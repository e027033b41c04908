/** What policies do to the world and learn from it, spelled out on the values alone: which fact is
    inserted, which row answers a query, which event is recorded. These laws name none of the
    primitive operations that the semantics and the machine share. */
module Effects {
  import opened Values
  import opened Ast
  import opened Static
  import S = Semantics

  // ---- Lists of named values ----

  ghost predicate Names(es: seq<Entry>, k: string) {
    exists i :: 0 <= i < |es| && es[i].key == k
  }

  ghost predicate FirstNamed(es: seq<Entry>, i: int, k: string) {
    0 <= i < |es| && es[i].key == k && forall j :: 0 <= j < i ==> es[j].key != k
  }

  ghost predicate LastNamed(es: seq<Entry>, i: int, k: string) {
    0 <= i < |es| && es[i].key == k && forall j :: i < j < |es| ==> es[j].key != k
  }

  ghost predicate Distinct(es: seq<Entry>) {
    forall i, j :: 0 <= i < j < |es| ==> es[i].key != es[j].key
  }

  /** Of several values for a name the last counts; names that are not given keep their value. */
  ghost predicate Valued(before: seq<Entry>, given: seq<Entry>, after: seq<Entry>) {
    (forall i, j :: 0 <= i < |after| && LastNamed(given, j, after[i].key) ==> after[i].value == given[j].value) &&
    forall i :: 0 <= i < |after| && !Names(given, after[i].key) ==> i < |before| && after[i] == before[i]
  }

  /** New names come behind, in the order in which they are first given. */
  ghost predicate Queued(before: seq<Entry>, given: seq<Entry>, after: seq<Entry>) {
    forall i, j, a, b ::
      |before| <= i < j < |after| && FirstNamed(given, a, after[i].key) && FirstNamed(given, b, after[j].key) ==> a < b
  }

  /** `after` is `before` with the values of `given`; a name that was there keeps its place. */
  ghost predicate Merges(before: seq<Entry>, given: seq<Entry>, after: seq<Entry>) {
    Distinct(after) && |before| <= |after| &&
    (forall i :: 0 <= i < |before| ==> after[i].key == before[i].key) &&
    (forall k :: Names(after, k) <==> Names(before, k) || Names(given, k)) &&
    Valued(before, given, after) && Queued(before, given, after)
  }

  lemma {:induction false} MergesNone(before: seq<Entry>)
    requires Distinct(before)
    ensures Merges(before, [], before)
  {
  }

  /** Where setting a name takes effect. */
  lemma {:induction false} SetWhere(es: seq<Entry>, k: string, v: Value)
    ensures !Names(es, k) ==> SetEntry(es, k, v) == es + [Entry(k, v)]
    ensures forall i :: FirstNamed(es, i, k) ==> SetEntry(es, k, v) == es[i := Entry(k, v)]
  {
    if es != [] {
      SetWhere(es[1..], k, v);
      if !Names(es, k) {
        assert es[0].key != k && forall i :: 0 <= i < |es[1..]| ==> es[1..][i] == es[i + 1];
        assert !Names(es[1..], k);
      }
      forall i | FirstNamed(es, i, k) ensures SetEntry(es, k, v) == es[i := Entry(k, v)] {
        if i > 0 {
          assert forall j :: 0 <= j < |es[1..]| ==> es[1..][j] == es[j + 1];
          assert FirstNamed(es[1..], i - 1, k);
          assert [es[0]] + es[1..][i - 1 := Entry(k, v)] == es[i := Entry(k, v)];
        }
      }
    }
  }

  lemma {:induction false} NamesMore(es: seq<Entry>, e: Entry)
    ensures forall k :: Names(es + [e], k) <==> Names(es, k) || k == e.key
  {
    forall k ensures Names(es + [e], k) <==> Names(es, k) || k == e.key {
      if i :| 0 <= i < |es| && es[i].key == k { assert (es + [e])[i].key == k; }
      assert (es + [e])[|es|] == e;
      if i :| 0 <= i < |es + [e]| && (es + [e])[i].key == k { assert i < |es| ==> es[i].key == k; }
    }
  }

  lemma {:induction false} LastMore(es: seq<Entry>, e: Entry, j: int, k: string)
    ensures LastNamed(es + [e], j, k) <==> if k == e.key then j == |es| else LastNamed(es, j, k)
  {
    var more := es + [e];
    assert more[|es|] == e && forall i :: 0 <= i < |es| ==> more[i] == es[i];
  }

  lemma {:induction false} FirstMore(es: seq<Entry>, e: Entry, j: int, k: string)
    ensures FirstNamed(es + [e], j, k) <==> if Names(es, k) then FirstNamed(es, j, k) else j == |es| && k == e.key
  {
    var more := es + [e];
    assert more[|es|] == e && forall i :: 0 <= i < |es| ==> more[i] == es[i];
    if Names(es, k) {
      var i :| 0 <= i < |es| && es[i].key == k;
      assert more[i].key == k;
    }
  }

  lemma {:induction false} FirstExists(es: seq<Entry>, k: string) returns (i: int)
    requires Names(es, k)
    ensures FirstNamed(es, i, k)
  {
    i := 0;
    while es[i].key != k
      invariant 0 <= i < |es| && forall j :: 0 <= j < i ==> es[j].key != k
      decreases |es| - i
    {
      var w :| 0 <= w < |es| && es[w].key == k;
      i := i + 1;
    }
  }

  /** Setting one more value merges one more. */
  lemma {:induction false} MergesMore(before: seq<Entry>, given: seq<Entry>, after: seq<Entry>, e: Entry)
    requires Merges(before, given, after)
    ensures Merges(before, given + [e], SetEntry(after, e.key, e.value))
  {
    SetWhere(after, e.key, e.value);
    NamesMore(given, e);
    if Names(after, e.key) {
      var i := FirstExists(after, e.key);
      MergesAgain(before, given, after, e, i);
    } else {
      MergesNew(before, given, after, e);
    }
  }

  lemma {:induction false} NamesSame(es: seq<Entry>, es': seq<Entry>)
    requires |es| == |es'| && forall i :: 0 <= i < |es| ==> es[i].key == es'[i].key
    ensures forall k :: Names(es, k) <==> Names(es', k)
  {
    forall k ensures Names(es, k) <==> Names(es', k) {
      if i :| 0 <= i < |es| && es[i].key == k { assert es'[i].key == k; }
      if i :| 0 <= i < |es'| && es'[i].key == k { assert es[i].key == k; }
    }
  }

  lemma {:induction false} MergesAgain(before: seq<Entry>, given: seq<Entry>, after: seq<Entry>, e: Entry, at: int)
    requires Merges(before, given, after) && FirstNamed(after, at, e.key)
    ensures Merges(before, given + [e], after[at := e])
  {
    var more, now := given + [e], after[at := e];
    NamesMore(given, e);
    NamesSame(after, now);
    assert Names(after, e.key);
    assert Valued(before, more, now) by {
      forall i, j | 0 <= i < |now| && LastNamed(more, j, now[i].key) ensures now[i].value == more[j].value {
        LastMore(given, e, j, now[i].key);
        if i != at { assert now[i] == after[i] && after[i].key != e.key; }
      }
    }
    assert Queued(before, more, now) by {
      forall i, j, a, b | |before| <= i < j < |now| && FirstNamed(more, a, now[i].key) &&
        FirstNamed(more, b, now[j].key)
        ensures a < b
      {
        WasGiven(before, given, after, i);
        WasGiven(before, given, after, j);
        FirstMore(given, e, a, now[i].key);
        FirstMore(given, e, b, now[j].key);
      }
    }
  }

  /** A name behind those that were there was given. */
  lemma {:induction false} WasGiven(before: seq<Entry>, given: seq<Entry>, after: seq<Entry>, i: int)
    requires Merges(before, given, after) && |before| <= i < |after|
    ensures Names(given, after[i].key)
  {
  }

  lemma {:induction false} MergesNew(before: seq<Entry>, given: seq<Entry>, after: seq<Entry>, e: Entry)
    requires Merges(before, given, after) && !Names(after, e.key)
    ensures Merges(before, given + [e], after + [e])
  {
    var more, now := given + [e], after + [e];
    NamesMore(given, e);
    NamesMore(after, e);
    assert !Names(given, e.key) && !Names(before, e.key);
    forall i, j | 0 <= i < j < |now| ensures now[i].key != now[j].key {
      if j == |after| { assert now[i] == after[i]; }
    }
    assert Valued(before, more, now) by {
      forall i, j | 0 <= i < |now| && LastNamed(more, j, now[i].key) ensures now[i].value == more[j].value {
        LastMore(given, e, j, now[i].key);
        if i < |after| { assert now[i] == after[i] && Names(after, after[i].key); }
      }
    }
    assert Queued(before, more, now) by {
      forall i, j, a, b | |before| <= i < j < |now| && FirstNamed(more, a, now[i].key) &&
        FirstNamed(more, b, now[j].key)
        ensures a < b
      {
        WasGiven(before, given, after, i);
        FirstMore(given, e, a, now[i].key);
        FirstMore(given, e, b, now[j].key);
        if j < |after| { WasGiven(before, given, after, j); }
      }
    }
  }

  // ---- Members of literals ----

  /** The values that the members of a literal supply, evaluated in order; bind markers supply none. */
  function Supplied(g: Program, n: nat, env: Scope, fs: seq<Field>, h: History): Outcome<seq<Entry>> {
    if fs == [] then Val([], h)
    else match fs[0].value
      case Bind => Supplied(g, n, env, fs[1..], h)
      case Given(e) =>
        var (v, h1) :- S.EvalExpr(g, n, env, e, h);
        var (es, h2) :- Supplied(g, n, env, fs[1..], h1);
        Val([Entry(fs[0].name, v)] + es, h2)
  }

  /** Keys are integers, booleans, strings or identifiers. */
  predicate Scalars(es: seq<Entry>) {
    forall i :: 0 <= i < |es| ==> es[i].value.IntV? || es[i].value.BoolV? || es[i].value.StringV? || es[i].value.IdV?
  }

  lemma {:induction false} KeysMean(
    g: Program, n: nat, env: Scope, fs: seq<Field>, name: string, vs: seq<Entry>, h: History,
    before: seq<Entry>, given: seq<Entry>, ks: seq<Entry>)
    requires Supplied(g, n, env, fs, h).Val? && Scalars(Supplied(g, n, env, fs, h).value) && Merges(before, given, ks)
    ensures
      var o, r := Supplied(g, n, env, fs, h), S.EvalFields(g, n, env, KeyMember, fs, FactV(name, ks, vs), h);
      r.Val? && r.hist == o.hist && r.value.FactV? && r.value == FactV(name, r.value.keys, vs) &&
      Merges(before, given + o.value, r.value.keys)
    decreases |fs|
  {
    hide Merges, S.EvalExpr, SetEntry;
    if fs == [] {
      assert given + [] == given;
    } else if fs[0].value.Bind? {
      KeysMean(g, n, env, fs[1..], name, vs, h, before, given, ks);
    } else {
      var o := Supplied(g, n, env, fs, h);
      var v := S.EvalExpr(g, n, env, fs[0].value.expr, h);
      var e := Entry(fs[0].name, v.value);
      var rest := Supplied(g, n, env, fs[1..], v.hist).value;
      assert o.value == [e] + rest && o.value[0] == e;
      assert Scalars(rest) by { assert forall i :: 0 <= i < |rest| ==> rest[i] == o.value[i + 1]; }
      MergesMore(before, given, ks, e);
      KeysMean(g, n, env, fs[1..], name, vs, v.hist, before, given + [e], SetEntry(ks, e.key, e.value));
      assert (given + [e]) + rest == given + o.value;
    }
  }

  lemma {:induction false} ValuesMean(
    g: Program, n: nat, env: Scope, fs: seq<Field>, name: string, ks: seq<Entry>, h: History,
    before: seq<Entry>, given: seq<Entry>, vs: seq<Entry>)
    requires Supplied(g, n, env, fs, h).Val? && Merges(before, given, vs)
    ensures
      var o, r := Supplied(g, n, env, fs, h), S.EvalFields(g, n, env, ValueMember, fs, FactV(name, ks, vs), h);
      r.Val? && r.hist == o.hist && r.value.FactV? && r.value == FactV(name, ks, r.value.values) &&
      Merges(before, given + o.value, r.value.values)
    decreases |fs|
  {
    hide Merges, S.EvalExpr, SetEntry;
    if fs == [] {
      assert given + [] == given;
    } else if fs[0].value.Bind? {
      ValuesMean(g, n, env, fs[1..], name, ks, h, before, given, vs);
    } else {
      var o := Supplied(g, n, env, fs, h);
      var v := S.EvalExpr(g, n, env, fs[0].value.expr, h);
      var e := Entry(fs[0].name, v.value);
      var rest := Supplied(g, n, env, fs[1..], v.hist).value;
      assert o.value == [e] + rest;
      MergesMore(before, given, vs, e);
      ValuesMean(g, n, env, fs[1..], name, ks, v.hist, before, given + [e], SetEntry(vs, e.key, e.value));
      assert (given + [e]) + rest == given + o.value;
    }
  }

  /** What the members of a fact literal supply: keys, values, and the history after both. */
  datatype Parts = Parts(keys: seq<Entry>, values: seq<Entry>, hist: History)

  ghost predicate Supplies(g: Program, n: nat, env: Scope, f: FactLiteral, h: History, p: Parts) {
    var ks := Supplied(g, n, env, f.keys, h);
    ks.Val? && ks.value == p.keys && Scalars(p.keys) &&
    Supplied(g, n, env, match f.values case NoValues => [] case GivenValues(fs) => fs, ks.hist) == Val(p.values, p.hist)
  }

  /** The fact a literal stands for. */
  lemma {:induction false} FactMeans(g: Program, n: nat, env: Scope, f: FactLiteral, h: History, p: Parts)
    returns (ks: seq<Entry>, vs: seq<Entry>)
    requires Supplies(g, n, env, f, h, p)
    ensures S.EvalFact(g, n, env, f, h) == Val(FactV(f.name, ks, vs), p.hist)
    ensures Merges([], p.keys, ks) && Merges([], p.values, vs)
  {
    hide Merges, S.EvalFields, Scalars;
    MergesNone([]);
    KeysMean(g, n, env, f.keys, f.name, [], h, [], [], []);
    var k := S.EvalFields(g, n, env, KeyMember, f.keys, FactV(f.name, [], []), h);
    ks := k.value.keys;
    vs := [];
    assert [] + p.keys == p.keys && [] + p.values == p.values;
    if f.values.GivenValues? {
      ValuesMean(g, n, env, f.values.fields, f.name, ks, k.hist, [], [], []);
      vs := S.EvalFields(g, n, env, ValueMember, f.values.fields, k.value, k.hist).value.values;
    } else {
      assert Supplied(g, n, env, [], k.hist) == Val([], k.hist);
    }
  }

  lemma {:induction false} FieldsSupplied(
    g: Program, n: nat, env: Scope, m: Member, fs: seq<Field>, target: Value, h: History)
    requires S.EvalFields(g, n, env, m, fs, target, h).Val?
    ensures
      var o := Supplied(g, n, env, fs, h);
      o.Val? && o.hist == S.EvalFields(g, n, env, m, fs, target, h).hist && (m.KeyMember? ==> Scalars(o.value))
    decreases |fs|
  {
    hide S.EvalExpr, SetEntry, HasField;
    if fs != [] {
      if fs[0].value.Bind? {
        FieldsSupplied(g, n, env, m, fs[1..], target, h);
      } else {
        var v := S.EvalExpr(g, n, env, fs[0].value.expr, h);
        FieldsSupplied(g, n, env, m, fs[1..], S.SetMemberOf(g.world, m, target, fs[0].name, v.value).value, v.hist);
      }
    }
  }

  /** Whatever literal is evaluated, its members supply their values. */
  lemma {:induction false} FactSupplied(g: Program, n: nat, env: Scope, f: FactLiteral, h: History) returns (p: Parts)
    requires S.EvalFact(g, n, env, f, h).Val?
    ensures Supplies(g, n, env, f, h, p)
  {
    hide S.EvalFields, Scalars;
    FieldsSupplied(g, n, env, KeyMember, f.keys, FactV(f.name, [], []), h);
    var k := S.EvalFields(g, n, env, KeyMember, f.keys, FactV(f.name, [], []), h);
    var ks := Supplied(g, n, env, f.keys, h).value;
    if f.values.GivenValues? {
      FieldsSupplied(g, n, env, ValueMember, f.values.fields, k.value, k.hist);
      var vs := Supplied(g, n, env, f.values.fields, k.hist);
      p := Parts(ks, vs.value, vs.hist);
    } else {
      assert Supplied(g, n, env, [], k.hist) == Val([], k.hist);
      p := Parts(ks, [], k.hist);
    }
  }

  // ---- Changes to facts ----

  /** The host takes an event, or the run fails with its code. */
  function Doing(w: World, e: Event, env: Scope, h: History): Outcome<S.Flow> {
    match w.host.accepts(h, e)
    case None => Val(S.Next(env), h + [e])
    case Some(c) => Fail(IoError(c), h)
  }

  /** Creating inserts the fact of the literal, and deleting deletes what has its keys. */
  lemma {:induction false} CreateMeans(g: Program, n: nat, env: Scope, nd: Node, h: History, p: Parts)
    returns (ks: seq<Entry>, vs: seq<Entry>)
    requires (nd.stmt.Create? || nd.stmt.Delete?) && Supplies(g, n, env, nd.stmt.fact, h, p)
    ensures Merges([], p.keys, ks) && Merges([], p.values, vs)
    ensures nd.stmt.Create? ==>
      S.EvalStmt(g, n, env, nd, h) == Doing(g.world, Inserted(nd.stmt.fact.name, ks, vs), env, p.hist)
    ensures nd.stmt.Delete? ==>
      S.EvalStmt(g, n, env, nd, h) == Doing(g.world, Deleted(nd.stmt.fact.name, ks), env, p.hist)
  {
    hide Merges, S.EvalFact, Supplies;
    ks, vs := FactMeans(g, n, env, nd.stmt.fact, h, p);
  }

  /** What an update does: the first row the host reports for the keys is deleted, and the fact with
      those keys and the new values is inserted. */
  function Updating(w: World, name: string, ks: seq<Entry>, vs: seq<Entry>, env: Scope, h: History): Outcome<S.Flow> {
    match w.host.query(h, name, ks)
    case Refused(c) => Fail(IoError(c), h)
    case Answer(rows) =>
      if |rows| == 0 then Fail(InvalidFact(name), h)
      else match rows[0]
        case RowFailed(c) => Fail(IoError(c), h)
        case Row(was, _) =>
          match w.host.accepts(h, Deleted(name, was))
          case Some(c) => Fail(IoError(c), h)
          case None => Doing(w, Inserted(name, ks, vs), env, h + [Deleted(name, was)])
  }

  lemma {:induction false} UpdateMeans(
    g: Program, n: nat, env: Scope, nd: Node, h: History, p: Parts, to: seq<Entry>, h': History)
    returns (ks: seq<Entry>, vs: seq<Entry>, now: seq<Entry>)
    requires nd.stmt.Update? && Supplies(g, n, env, nd.stmt.fact, h, p)
    requires Supplied(g, n, env, nd.stmt.to, p.hist) == Val(to, h')
    ensures Merges([], p.keys, ks) && Merges([], p.values, vs) && Merges(vs, to, now)
    ensures S.EvalStmt(g, n, env, nd, h) == Updating(g.world, nd.stmt.fact.name, ks, now, env, h')
  {
    hide Merges, S.EvalFact, S.EvalFields, Supplies, Supplied;
    ks, vs := FactMeans(g, n, env, nd.stmt.fact, h, p);
    var f := FactV(nd.stmt.fact.name, ks, vs);
    assert Merges(vs, [], vs) by { MergedIsStable(p.values, vs); }
    ValuesMean(g, n, env, nd.stmt.to, nd.stmt.fact.name, ks, p.hist, vs, [], vs);
    now := S.EvalFields(g, n, env, ValueMember, nd.stmt.to, f, p.hist).value.values;
    assert [] + to == to;
  }

  lemma MergedIsStable(given: seq<Entry>, vs: seq<Entry>)
    requires Merges([], given, vs)
    ensures Merges(vs, [], vs)
  {
    hide Valued, Queued;
    assert Distinct(vs);
    MergesNone(vs);
  }

  // ---- Nothing happens while a finish block evaluates its expressions ----

  lemma {:induction false} FinishQuiet(g: Program, n: nat, known: Known, env: Scope, e: Expr, h: History)
    requires ExprOk(g, FinishSite(known), e) && S.EvalExpr(g, n, env, e, h).Val?
    ensures S.EvalExpr(g, n, env, e, h).hist == h
    decreases e
  {
    hide Lookup, SerializeStruct, DeserializeStruct, GetField, FieldsOk, S.EvalFields;
    match e
    case NamedStruct(name, fields) =>
      assert FieldsOk(g, FinishSite(known), fields);
      FieldsQuiet(g, n, known, env, StructMember, fields, StructV(name, map[]), h);
    case Unary(_, a) => FinishQuiet(g, n, known, env, a, h);
    case _ =>
  }

  lemma {:induction false} FieldsQuiet(
    g: Program, n: nat, known: Known, env: Scope, m: Member, fs: seq<Field>, target: Value, h: History)
    requires FieldsOk(g, FinishSite(known), fs) && S.EvalFields(g, n, env, m, fs, target, h).Val?
    ensures S.EvalFields(g, n, env, m, fs, target, h).hist == h
    decreases fs
  {
    hide ExprOk, S.EvalExpr, S.SetMemberOf;
    if fs != [] {
      if fs[0].value.Bind? {
        FieldsQuiet(g, n, known, env, m, fs[1..], target, h);
      } else {
        var v := S.EvalExpr(g, n, env, fs[0].value.expr, h);
        FinishQuiet(g, n, known, env, fs[0].value.expr, h);
        FieldsQuiet(g, n, known, env, m, fs[1..], S.SetMemberOf(g.world, m, target, fs[0].name, v.value).value, h);
      }
    }
  }

  lemma {:induction false} FactQuiet(g: Program, n: nat, known: Known, env: Scope, f: FactLiteral, h: History)
    requires FactOk(g, FinishSite(known), f) && S.EvalFact(g, n, env, f, h).Val?
    ensures S.EvalFact(g, n, env, f, h).hist == h
  {
    hide FieldsOk, S.EvalFields;
    FieldsQuiet(g, n, known, env, KeyMember, f.keys, FactV(f.name, [], []), h);
    var k := S.EvalFields(g, n, env, KeyMember, f.keys, FactV(f.name, [], []), h);
    if f.values.GivenValues? { FieldsQuiet(g, n, known, env, ValueMember, f.values.fields, k.value, h); }
  }

  /** An accepted update that goes through adds exactly a deletion and an insertion to the history. */
  lemma {:induction false} UpdateTakesEffect(g: Program, n: nat, known: Known, env: Scope, nd: Node, h: History)
    returns (p: Parts, to: seq<Entry>, ks: seq<Entry>, vs: seq<Entry>, now: seq<Entry>, rows: seq<Row>)
    requires nd.stmt.Update? && StmtOk(g, FinishSite(known), nd) && S.EvalStmt(g, n, env, nd, h).Val?
    ensures Supplies(g, n, env, nd.stmt.fact, h, p) && Supplied(g, n, env, nd.stmt.to, h) == Val(to, h)
    ensures Merges([], p.keys, ks) && Merges([], p.values, vs) && Merges(vs, to, now)
    ensures g.world.host.query(h, nd.stmt.fact.name, ks) == Answer(rows) && rows != [] && rows[0].Row?
    ensures S.EvalStmt(g, n, env, nd, h) ==
      Val(S.Next(env), h + [Deleted(nd.stmt.fact.name, rows[0].keys), Inserted(nd.stmt.fact.name, ks, now)])
  {
    hide Merges, S.EvalFact, S.EvalFields, Supplies, Supplied, FactOk, FieldsOk, FactFitsSchema;
    var fact := nd.stmt.fact;
    p := FactSupplied(g, n, env, fact, h);
    ks, vs := FactMeans(g, n, env, fact, h, p);
    FactQuiet(g, n, known, env, fact, h);
    var f := S.EvalFact(g, n, env, fact, h).value;
    FieldsSupplied(g, n, env, ValueMember, nd.stmt.to, f, h);
    FieldsQuiet(g, n, known, env, ValueMember, nd.stmt.to, f, h);
    to := Supplied(g, n, env, nd.stmt.to, h).value;
    ks, vs, now := UpdateMeans(g, n, env, nd, h, p, to, h);
    rows := g.world.host.query(h, fact.name, ks).value;
    assert (h + [Deleted(fact.name, rows[0].keys)]) + [Inserted(fact.name, ks, now)] ==
      h + [Deleted(fact.name, rows[0].keys), Inserted(fact.name, ks, now)];
  }

  // ---- Queries ----

  predicate HasType(v: Value, t: VType) {
    match t
    case IntT => v.IntV?
    case BoolT => v.BoolV?
    case StringT => v.StringV?
    case BytesT => v.BytesV?
    case IdT => v.IdV?
    case StructT(name) => v.StructV? && v.name == name
    case EnumT(name) => v.EnumV? && v.enum == name
    case OptionalT(_) => false
  }

  ghost predicate FirstDeclared(ds: seq<FieldDef>, j: int, k: string) {
    0 <= j < |ds| && ds[j].name == k && forall i :: 0 <= i < j ==> ds[i].name != k
  }

  /** The value has the type declared first for the name. */
  ghost predicate DeclaredAs(k: string, v: Value, ds: seq<FieldDef>) {
    exists j :: FirstDeclared(ds, j, k) && HasType(v, ds[j].vtype)
  }

  ghost predicate Declared(es: seq<Entry>, ds: seq<FieldDef>) {
    forall i :: 0 <= i < |es| ==> DeclaredAs(es[i].key, es[i].value, ds)
  }

  ghost predicate Conforms(w: World, name: string, ks: seq<Entry>, vs: seq<Entry>) {
    name in w.facts && Declared(ks, w.facts[name].key) && Declared(vs, w.facts[name].value)
  }

  /** A delivered row that begins with the given keys and has every given value. */
  ghost predicate Hits(ks: seq<Entry>, vs: seq<Entry>, row: Row) {
    row.Row? && |ks| <= |row.keys| && (forall i :: 0 <= i < |ks| ==> row.keys[i] == ks[i]) &&
    forall i :: 0 <= i < |vs| ==> Found(row.values, vs[i].key, vs[i].value)
  }

  /** The first entry of this name has this value. */
  ghost predicate Found(es: seq<Entry>, k: string, v: Value) {
    exists j :: FirstNamed(es, j, k) && es[j].value == v
  }

  /** `m` has the names of the entries, each with the value of its last entry. */
  ghost predicate Fields(es: seq<Entry>, m: map<string, Value>) {
    (forall k :: k in m <==> Names(es, k)) && forall i, k :: LastNamed(es, i, k) ==> k in m && m[k] == es[i].value
  }

  lemma {:induction false} CollectFields(es: seq<Entry>)
    ensures Fields(es, Collect(es))
  {
    if es != [] {
      var init, e := es[..|es| - 1], es[|es| - 1];
      CollectFields(init);
      NamesMore(init, e);
      assert es == init + [e];
      forall i, k | LastNamed(es, i, k) ensures k in Collect(es) && Collect(es)[k] == es[i].value {
        LastMore(init, e, i, k);
      }
    }
  }

  lemma {:induction false} FindFirst(es: seq<Entry>, k: string, v: Value)
    ensures Find(es, k) == Some(v) <==> Found(es, k, v)
  {
    if es != [] {
      FindFirst(es[1..], k, v);
      if es[0].key == k {
        assert FirstNamed(es, 0, k);
        if j :| FirstNamed(es, j, k) && es[j].value == v { assert j == 0; }
      } else {
        if j :| FirstNamed(es[1..], j, k) && es[1..][j].value == v {
          assert FirstNamed(es, j + 1, k) by { assert forall i :: 0 < i < |es| ==> es[i] == es[1..][i - 1]; }
        }
        if j :| FirstNamed(es, j, k) && es[j].value == v {
          assert FirstNamed(es[1..], j - 1, k) by { assert forall i :: 0 <= i < |es[1..]| ==> es[1..][i] == es[i + 1]; }
          assert es[1..][j - 1] == es[j];
        }
      }
    }
  }

  lemma {:induction false} MatchIsHit(name: string, ks: seq<Entry>, vs: seq<Entry>, row: Row)
    requires row.Row?
    ensures RowMatches(FactV(name, ks, vs), row) <==> Hits(ks, vs, row)
  {
    hide Found, Find;
    forall i | 0 <= i < |vs|
      ensures Find(row.values, vs[i].key) == Some(vs[i].value) <==> Found(row.values, vs[i].key, vs[i].value)
    {
      FindFirst(row.values, vs[i].key, vs[i].value);
    }
    if ks <= row.keys { assert forall i :: 0 <= i < |ks| ==> row.keys[i] == ks[i]; }
    if |ks| <= |row.keys| && forall i :: 0 <= i < |ks| ==> row.keys[i] == ks[i] {
      assert row.keys[..|ks|] == ks;
    }
  }

  lemma {:induction false} DeclaredHead(ds: seq<FieldDef>, k: string, v: Value)
    requires ds != [] && ds[0].name == k
    ensures DeclaredAs(k, v, ds) <==> HasType(v, ds[0].vtype)
  {
    hide HasType;
    assert FirstDeclared(ds, 0, k);
  }

  lemma {:induction false} DeclaredLater(ds: seq<FieldDef>, j: int, k: string)
    requires ds != [] && ds[0].name != k
    ensures FirstDeclared(ds, j, k) <==> FirstDeclared(ds[1..], j - 1, k)
  {
    var rest := ds[1..];
    assert forall i :: 0 < i < |ds| ==> ds[i] == rest[i - 1];
    assert forall i :: 0 <= i < |rest| ==> rest[i] == ds[i + 1];
  }

  lemma {:induction false} DeclaredTail(ds: seq<FieldDef>, k: string, v: Value)
    requires ds != [] && ds[0].name != k
    ensures DeclaredAs(k, v, ds) <==> DeclaredAs(k, v, ds[1..])
  {
    hide HasType;
    var rest := ds[1..];
    if j :| FirstDeclared(rest, j, k) && HasType(v, rest[j].vtype) {
      DeclaredLater(ds, j + 1, k);
      assert ds[j + 1] == rest[j];
    }
    if j :| FirstDeclared(ds, j, k) && HasType(v, ds[j].vtype) {
      DeclaredLater(ds, j, k);
      assert rest[j - 1] == ds[j];
    }
  }

  lemma {:induction false} TypeFirst(ds: seq<FieldDef>, k: string, v: Value)
    ensures FieldType(ds, k).Some? && TypeOf(v) == FieldType(ds, k) <==> DeclaredAs(k, v, ds)
  {
    if ds == [] {
    } else if ds[0].name == k {
      DeclaredHead(ds, k, v);
      hide DeclaredAs;
    } else {
      hide DeclaredAs, TypeOf;
      DeclaredTail(ds, k, v);
      TypeFirst(ds[1..], k, v);
    }
  }

  lemma {:induction false} FitsDeclared(es: seq<Entry>, ds: seq<FieldDef>)
    ensures EntriesFit(es, ds) <==> Declared(es, ds)
  {
    hide FieldType, TypeOf, DeclaredAs;
    forall i | 0 <= i < |es|
      ensures FieldType(ds, es[i].key).Some? && TypeOf(es[i].value) == FieldType(ds, es[i].key) <==>
        DeclaredAs(es[i].key, es[i].value, ds)
    {
      TypeFirst(ds, es[i].key, es[i].value);
    }
  }

  lemma {:induction false} FactConforms(w: World, name: string, ks: seq<Entry>, vs: seq<Entry>)
    ensures FactFits(w, FactV(name, ks, vs)) <==> Conforms(w, name, ks, vs)
  {
    hide EntriesFit, Declared;
    if name in w.facts {
      FitsDeclared(ks, w.facts[name].key);
      FitsDeclared(vs, w.facts[name].value);
    }
  }

  /** The rows before `i` were delivered and did not hit. */
  ghost predicate Missed(ks: seq<Entry>, vs: seq<Entry>, rows: seq<Row>, i: int) {
    0 <= i <= |rows| && forall j :: 0 <= j < i ==> rows[j].Row? && !Hits(ks, vs, rows[j])
  }

  /** The first row that hits, as a struct; none if all rows miss; a failure that comes before. */
  ghost predicate FirstHit(name: string, ks: seq<Entry>, vs: seq<Entry>, rows: seq<Row>, r: Result<Value>) {
    (forall i :: 0 <= i < |rows| && Missed(ks, vs, rows, i) && Hits(ks, vs, rows[i]) ==>
      r.Ok? && r.value.StructV? && r.value.name == name && Fields(rows[i].keys + rows[i].values, r.value.fields)) &&
    (forall i :: 0 <= i < |rows| && Missed(ks, vs, rows, i) && rows[i].RowFailed? ==>
      r == Err(IoError(rows[i].code))) &&
    (Missed(ks, vs, rows, |rows|) ==> r == Ok(NoneV))
  }

  lemma {:induction false} MissedTail(ks: seq<Entry>, vs: seq<Entry>, rows: seq<Row>, i: int)
    requires rows != []
    ensures i > 0 ==>
      (Missed(ks, vs, rows, i) <==> rows[0].Row? && !Hits(ks, vs, rows[0]) && Missed(ks, vs, rows[1..], i - 1))
    ensures Missed(ks, vs, rows, 0)
  {
    hide Hits;
    assert forall j :: 0 <= j < |rows[1..]| ==> rows[1..][j] == rows[j + 1];
    if i > 0 && rows[0].Row? && !Hits(ks, vs, rows[0]) && Missed(ks, vs, rows[1..], i - 1) {
      forall j | 0 <= j < i ensures rows[j].Row? && !Hits(ks, vs, rows[j]) {
        if j > 0 { assert rows[j] == rows[1..][j - 1]; }
      }
    }
    if i > 0 && Missed(ks, vs, rows, i) {
      forall j | 0 <= j < i - 1 ensures rows[1..][j].Row? && !Hits(ks, vs, rows[1..][j]) {
        assert rows[1..][j] == rows[j + 1];
      }
    }
  }

  lemma {:induction false} FirstMatchHits(name: string, ks: seq<Entry>, vs: seq<Entry>, rows: seq<Row>)
    ensures FirstHit(name, ks, vs, rows, FirstMatch(FactV(name, ks, vs), rows))
    decreases |rows|
  {
    hide Hits, RowMatches, Missed, Fields;
    var r := FirstMatch(FactV(name, ks, vs), rows);
    if rows == [] {
      assert Missed(ks, vs, rows, 0) by { NoneMissed(ks, vs); }
    } else {
      FirstMatchHits(name, ks, vs, rows[1..]);
      if rows[0].Row? {
        MatchIsHit(name, ks, vs, rows[0]);
        CollectFields(rows[0].keys + rows[0].values);
      }
      HitNotFailed(ks, vs, rows[0]);
      assert forall j :: 0 <= j < |rows[1..]| ==> rows[1..][j] == rows[j + 1];
      forall i | 0 <= i <= |rows|
        ensures i > 0 ==>
          (Missed(ks, vs, rows, i) <==> rows[0].Row? && !Hits(ks, vs, rows[0]) && Missed(ks, vs, rows[1..], i - 1))
      {
        MissedTail(ks, vs, rows, i);
      }
    }
  }

  lemma NoneMissed(ks: seq<Entry>, vs: seq<Entry>)
    ensures Missed(ks, vs, [], 0)
  {
  }

  lemma HitNotFailed(ks: seq<Entry>, vs: seq<Entry>, row: Row)
    ensures row.RowFailed? ==> !Hits(ks, vs, row)
  {
  }

  /** What the host answers to a question about a fact that conforms to its schema. */
  ghost predicate Asked(w: World, name: string, ks: seq<Entry>, vs: seq<Entry>, h: History, r: Result<seq<Row>>) {
    if !Conforms(w, name, ks, vs) then r == Err(InvalidSchema(name))
    else match w.host.query(h, name, ks)
      case Refused(c) => r == Err(IoError(c))
      case Answer(rows) => r == Ok(rows)
  }

  lemma {:induction false} RowsAsked(w: World, name: string, ks: seq<Entry>, vs: seq<Entry>, h: History)
    ensures Asked(w, name, ks, vs, h, QueryRows(w, FactV(name, ks, vs), h))
  {
    hide FactFits, Conforms;
    FactConforms(w, name, ks, vs);
  }

  /** The answer of a query, or whether there is one. */
  lemma {:induction false} QueryMeans(
    g: Program, n: nat, env: Scope, kind: QueryKind, fact: FactLiteral, h: History, p: Parts)
    returns (ks: seq<Entry>, vs: seq<Entry>, rows: Result<seq<Row>>, r: Result<Value>)
    requires Supplies(g, n, env, fact, h, p)
    ensures Merges([], p.keys, ks) && Merges([], p.values, vs)
    ensures Asked(g.world, fact.name, ks, vs, p.hist, rows)
    ensures rows.Ok? ==> FirstHit(fact.name, ks, vs, rows.value, r)
    ensures kind.Query? ==>
      S.EvalExpr(g, n, env, FactQuery(kind, fact), h) ==
        if rows.Err? then Fail(rows.fault, p.hist) else if r.Err? then Fail(r.fault, p.hist) else Val(r.value, p.hist)
    ensures kind.Exists? ==>
      S.EvalExpr(g, n, env, FactQuery(kind, fact), h) ==
        if rows.Err? then Fail(rows.fault, p.hist)
        else if r.Err? then Fail(r.fault, p.hist) else Val(BoolV(r.value != NoneV), p.hist)
  {
    hide Merges, S.EvalFact, Supplies, FirstHit, Asked, FirstMatch, QueryRows;
    ks, vs := FactMeans(g, n, env, fact, h, p);
    RowsAsked(g.world, fact.name, ks, vs, p.hist);
    rows := QueryRows(g.world, FactV(fact.name, ks, vs), p.hist);
    r := Ok(NoneV);
    if rows.Ok? {
      r := FirstMatch(FactV(fact.name, ks, vs), rows.value);
      FirstMatchHits(fact.name, ks, vs, rows.value);
    }
  }

  // ---- Counting ----

  /** How many rows were delivered before the first failure. */
  ghost predicate Delivered(rows: seq<Row>, k: int) {
    0 <= k <= |rows| && (forall j :: 0 <= j < k ==> rows[j].Row?) && (k < |rows| ==> rows[k].RowFailed?)
  }

  ghost function HitsBelow(ks: seq<Entry>, vs: seq<Entry>, rows: seq<Row>, k: int): set<int>
    requires 0 <= k <= |rows|
  {
    set i | 0 <= i < k && Hits(ks, vs, rows[i])
  }

  lemma {:induction false} MatchingCounts(name: string, ks: seq<Entry>, vs: seq<Entry>, rows: seq<Row>) returns (k: int)
    ensures Delivered(rows, k)
    ensures S.Matching(FactV(name, ks, vs), rows) == |HitsBelow(ks, vs, rows, k)|
    ensures S.FirstFailure(rows) == if k < |rows| then Some(rows[k].code) else None
    decreases |rows|
  {
    hide Hits, RowMatches;
    if rows == [] || rows[0].RowFailed? {
      k := 0;
      assert HitsBelow(ks, vs, rows, 0) == {};
    } else {
      var m := MatchingCounts(name, ks, vs, rows[1..]);
      k := m + 1;
      MatchIsHit(name, ks, vs, rows[0]);
      assert forall j :: 0 < j < |rows| ==> rows[j] == rows[1..][j - 1];
      CountShift(ks, vs, rows, m);
    }
  }

  lemma {:induction false} CountStep(ks: seq<Entry>, vs: seq<Entry>, rows: seq<Row>, k: int)
    requires 0 <= k < |rows|
    ensures |HitsBelow(ks, vs, rows, k + 1)| == |HitsBelow(ks, vs, rows, k)| + if Hits(ks, vs, rows[k]) then 1 else 0
    ensures HitsBelow(ks, vs, rows, 0) == {}
  {
    hide Hits;
    var a := HitsBelow(ks, vs, rows, k);
    if Hits(ks, vs, rows[k]) {
      assert HitsBelow(ks, vs, rows, k + 1) == a + {k};
    } else {
      assert HitsBelow(ks, vs, rows, k + 1) == a;
    }
  }

  lemma {:induction false} CountShift(ks: seq<Entry>, vs: seq<Entry>, rows: seq<Row>, m: int)
    requires rows != [] && 0 <= m <= |rows| - 1
    ensures |HitsBelow(ks, vs, rows, m + 1)| ==
      |HitsBelow(ks, vs, rows[1..], m)| + if Hits(ks, vs, rows[0]) then 1 else 0
    decreases m
  {
    CountStep(ks, vs, rows, m);
    if m == 0 {
      assert HitsBelow(ks, vs, rows[1..], 0) == {};
    } else {
      hide Hits, HitsBelow;
      CountShift(ks, vs, rows, m - 1);
      CountStep(ks, vs, rows[1..], m - 1);
      assert rows[1..][m - 1] == rows[m];
    }
  }

  /** The counting forms: `c` rows hit before the first failure, if there is one at `k`. A count that
      is decided by then does not depend on the failure. */
  lemma {:induction false} CountMeans(
    g: Program, n: nat, env: Scope, kind: QueryKind, fact: FactLiteral, h: History, p: Parts)
    returns (ks: seq<Entry>, vs: seq<Entry>, rows: Result<seq<Row>>, k: int)
    requires Supplies(g, n, env, fact, h, p) && !kind.Query? && !kind.Exists?
    ensures Merges([], p.keys, ks) && Merges([], p.values, vs)
    ensures Asked(g.world, fact.name, ks, vs, p.hist, rows)
    ensures rows.Err? ==> S.EvalExpr(g, n, env, FactQuery(kind, fact), h) == Fail(rows.fault, p.hist)
    ensures rows.Ok? ==> Delivered(rows.value, k)
    ensures rows.Ok? ==>
      var c, o := |HitsBelow(ks, vs, rows.value, k)|, S.EvalExpr(g, n, env, FactQuery(kind, fact), h);
      var open := k < |rows.value| && !(if kind.AtMost? || kind.Exactly? then kind.limit < c else kind.limit <= c);
      if open then o == Fail(IoError(rows.value[k].code), p.hist)
      else match kind
        case UpTo(most) => o == Val(IntV(if most <= c then most else c), p.hist)
        case AtLeast(least) => o == Val(BoolV(least <= c), p.hist)
        case AtMost(most) => o == Val(BoolV(c <= most), p.hist)
        case Exactly(number) => o == Val(BoolV(c == number), p.hist)
  {
    hide Merges, S.EvalFact, Supplies, Asked, QueryRows, S.Matching, S.FirstFailure, Delivered, HitsBelow;
    ks, vs := FactMeans(g, n, env, fact, h, p);
    RowsAsked(g.world, fact.name, ks, vs, p.hist);
    rows := QueryRows(g.world, FactV(fact.name, ks, vs), p.hist);
    k := 0;
    if rows.Ok? {
      k := MatchingCounts(fact.name, ks, vs, rows.value);
      assert 0 <= k <= |rows.value| by { hide *; DeliveredInside(rows.value, k); }
    }
  }

  lemma DeliveredInside(rows: seq<Row>, k: int)
    requires Delivered(rows, k)
    ensures 0 <= k <= |rows|
  {
  }
}
