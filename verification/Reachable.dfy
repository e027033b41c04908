/** The custom types an interface needs: those reachable from action arguments and effect fields. */
module Reachable {
  import opened Values

  type Structs = map<string, seq<VType>>

  /** The struct or enum a type mentions, through any number of optionals. */
  function Named(t: VType): (r: Option<VType>)
    ensures r.Some? ==> r.value.StructT? || r.value.EnumT?
  {
    match t
    case StructT(_) | EnumT(_) => Some(t)
    case OptionalT(inner) => Named(inner)
    case _ => None
  }

  /** A struct or an enum, by its name. */
  type Custom = t: VType | t.StructT? || t.EnumT? witness StructT("")

  function Name(t: Custom): string {
    match t case StructT(n) => n case EnumT(n) => n
  }

  // ---- What the search computes ----

  /** The names found once `t` has been visited; `None` when an undefined struct is looked up, which
      panics. Every name is expanded at most once, and only where it is met as a struct. */
  function Visited(defs: Structs, found: set<string>, t: VType): (r: Option<set<string>>)
    ensures r.Some? ==> found <= r.value
    decreases defs.Keys - found, t, 0
  {
    match t
    case StructT(s) =>
      if s in found then Some(found)
      else if s !in defs then None
      else
        assert s in defs.Keys - found && s !in defs.Keys - (found + {s});
        AllVisited(defs, found + {s}, defs[s])
    case EnumT(e) => Some(found + {e})
    case OptionalT(inner) => Visited(defs, found, inner)
    case _ => Some(found)
  }

  function AllVisited(defs: Structs, found: set<string>, ts: seq<VType>): (r: Option<set<string>>)
    ensures r.Some? ==> found <= r.value
    decreases defs.Keys - found, ts, 1
  {
    if ts == [] then Some(found)
    else match AllVisited(defs, found, ts[..|ts| - 1])
      case None => None
      case Some(more) =>
        assert defs.Keys - more <= defs.Keys - found;
        assert defs.Keys - more == defs.Keys - found || defs.Keys - more < defs.Keys - found;
        Visited(defs, more, ts[|ts| - 1])
  }

  method Visit(defs: Structs, found: set<string>, t: VType) returns (r: Option<set<string>>)
    ensures r == Visited(defs, found, t)
    decreases defs.Keys - found, t
  {
    match t
    case StructT(s) =>
      if s in found { return Some(found); }
      if s !in defs { return None; }
      var more := found + {s};
      assert s in defs.Keys - found && s !in defs.Keys - more;
      for i := 0 to |defs[s]|
        invariant found + {s} <= more
        invariant AllVisited(defs, found + {s}, defs[s][..i]) == Some(more)
      {
        assert defs[s][..i + 1][..i] == defs[s][..i];
        assert defs.Keys - more < defs.Keys - found;
        var next := Visit(defs, more, defs[s][i]);
        if next.None? {
          Undone(defs, found + {s}, defs[s], i + 1);
          return None;
        }
        more := next.value;
      }
      assert defs[s][..|defs[s]|] == defs[s];
      return Some(more);
    case EnumT(e) => return Some(found + {e});
    case OptionalT(inner) => r := Visit(defs, found, inner);
    case _ => return Some(found);
  }

  /** A search that panics stays that way. */
  lemma {:induction false} Undone(defs: Structs, found: set<string>, ts: seq<VType>, k: nat)
    requires k <= |ts| && AllVisited(defs, found, ts[..k]).None?
    ensures AllVisited(defs, found, ts).None?
    decreases |ts|
  {
    if k < |ts| {
      assert ts[..|ts| - 1][..k] == ts[..k];
      Undone(defs, found, ts[..|ts| - 1], k);
    } else {
      assert ts[..k] == ts;
    }
  }

  // ---- What it is for ----

  /** What `t` mentions, if anything, is in the set. */
  predicate Has(types: set<Custom>, t: VType) {
    Named(t).Some? ==> Named(t).value in types
  }

  ghost predicate HasAll(types: set<Custom>, ts: seq<VType>) {
    forall i :: 0 <= i < |ts| ==> Has(types, ts[i])
  }

  /** With a struct, the set has what its fields mention. */
  ghost predicate Closed(defs: Structs, types: set<Custom>) {
    forall s :: StructT(s) in types && s in defs ==> HasAll(types, defs[s])
  }

  /** The set mentions a struct that is not defined. */
  ghost predicate Broken(defs: Structs, types: set<Custom>) {
    exists s :: StructT(s) in types && s !in defs
  }

  ghost function NamesOf(types: set<Custom>): set<string> {
    set t | t in types :: Name(t)
  }

  /** The fields of a struct mention nothing but its own name. */
  predicate SelfMade(defs: Structs, s: string)
    requires s in defs
  {
    forall i :: 0 <= i < |defs[s]| && Named(defs[s][i]).Some? ==> Name(Named(defs[s][i]).value) == s
  }

  /** A struct that shares its name with an enum has no field for the enum to hide. */
  ghost predicate Harmless(defs: Structs, types: set<Custom>) {
    forall s :: StructT(s) in types && EnumT(s) in types ==> s in defs && SelfMade(defs, s)
  }

  /** The search finds nothing that is not needed, and panics only on an undefined struct that is. */
  lemma {:induction false} NothingExtra(defs: Structs, found: set<string>, t: VType, types: set<Custom>)
    requires Closed(defs, types) && Has(types, t)
    ensures match Visited(defs, found, t)
      case None => Broken(defs, types)
      case Some(more) => more <= found + NamesOf(types)
    decreases defs.Keys - found, t, 0
  {
    match t
    case StructT(s) =>
      assert Name(t) in NamesOf(types);
      if s !in found && s in defs {
        assert s in defs.Keys - found && s !in defs.Keys - (found + {s});
        NothingExtraAll(defs, found + {s}, defs[s], types);
      }
    case EnumT(e) => assert Name(t) in NamesOf(types);
    case OptionalT(inner) => NothingExtra(defs, found, inner, types);
    case _ =>
  }

  lemma {:induction false} NothingExtraAll(defs: Structs, found: set<string>, ts: seq<VType>, types: set<Custom>)
    requires Closed(defs, types) && HasAll(types, ts)
    ensures match AllVisited(defs, found, ts)
      case None => Broken(defs, types)
      case Some(more) => more <= found + NamesOf(types)
    decreases defs.Keys - found, ts, 1
  {
    if ts != [] {
      var before, last := ts[..|ts| - 1], ts[|ts| - 1];
      NothingExtraAll(defs, found, before, types);
      match AllVisited(defs, found, before)
      case None =>
      case Some(more) =>
        assert defs.Keys - more <= defs.Keys - found;
        assert defs.Keys - more == defs.Keys - found || defs.Keys - more < defs.Keys - found;
        NothingExtra(defs, more, last, types);
    }
  }

  /** Structs among the new types are defined and have their fields. */
  ghost predicate Done(defs: Structs, was: set<Custom>, types: set<Custom>) {
    was <= types && forall s :: StructT(s) in types && StructT(s) !in was ==> s in defs && HasAll(types, defs[s])
  }

  /** If shared names are harmless the search misses nothing: the names it finds are those of a
      closed set with everything asked for, all of whose structs are defined. */
  lemma {:induction false} NothingMissed(defs: Structs, was: set<Custom>, t: VType, all: set<Custom>)
    returns (types: set<Custom>)
    requires Harmless(defs, all) && Closed(defs, all) && Has(all, t) && was <= all
    requires Visited(defs, NamesOf(was), t).Some?
    ensures types <= all && Done(defs, was, types) && Has(types, t)
    ensures Visited(defs, NamesOf(was), t) == Some(NamesOf(types))
    decreases defs.Keys - NamesOf(was), t, 0
  {
    types := was;
    match t
    case StructT(s) =>
      if s in NamesOf(was) {
        types := was + {t};
        Shared(defs, was, s, all);
      } else {
        var found := NamesOf(was);
        assert NamesOf(was + {t}) == found + {s} by { NamesMore(was, t); }
        assert s in defs.Keys - found && s !in defs.Keys - (found + {s});
        types := NothingMissedAll(defs, was + {t}, defs[s], all);
      }
    case EnumT(e) =>
      types := was + {t};
      NamesMore(was, t);
    case OptionalT(inner) => types := NothingMissed(defs, was, inner, all);
    case _ =>
  }

  /** A struct whose name is found already: itself, or an enum that hides nothing. */
  lemma {:induction false} Shared(defs: Structs, was: set<Custom>, s: string, all: set<Custom>)
    requires Harmless(defs, all) && was <= all && StructT(s) in all && s in NamesOf(was)
    ensures NamesOf(was + {StructT(s)}) == NamesOf(was) && Done(defs, was, was + {StructT(s)})
  {
    NamesMore(was, StructT(s));
    if StructT(s) !in was {
      var a :| a in was && Name(a) == s;
      assert a == EnumT(s);
      forall i | 0 <= i < |defs[s]| ensures Has(was + {StructT(s)}, defs[s][i]) {
        var m := Named(defs[s][i]);
        assert m.Some? ==> m.value == StructT(s) || m.value == EnumT(s);
      }
    }
  }

  lemma {:induction false} NamesMore(types: set<Custom>, t: Custom)
    ensures NamesOf(types + {t}) == NamesOf(types) + {Name(t)}
  {
    assert forall n :: n in NamesOf(types) ==> n in NamesOf(types + {t});
    assert t in types + {t};
  }

  lemma {:induction false} NothingMissedAll(defs: Structs, was: set<Custom>, ts: seq<VType>, all: set<Custom>)
    returns (types: set<Custom>)
    requires Harmless(defs, all) && Closed(defs, all) && HasAll(all, ts) && was <= all
    requires AllVisited(defs, NamesOf(was), ts).Some?
    ensures types <= all && Done(defs, was, types) && HasAll(types, ts)
    ensures AllVisited(defs, NamesOf(was), ts) == Some(NamesOf(types))
    decreases defs.Keys - NamesOf(was), ts, 1
  {
    types := was;
    if ts != [] {
      var before, last := ts[..|ts| - 1], ts[|ts| - 1];
      var mid := NothingMissedAll(defs, was, before, all);
      assert NamesOf(was) <= NamesOf(mid);
      assert defs.Keys - NamesOf(mid) == defs.Keys - NamesOf(was) ||
        defs.Keys - NamesOf(mid) < defs.Keys - NamesOf(was);
      types := NothingMissed(defs, mid, last, all);
    }
  }

  // ---- The types the roots need ----

  ghost predicate Needed(defs: Structs, roots: seq<VType>, types: set<Custom>) {
    HasAll(types, roots) && Closed(defs, types)
  }

  /** Everything the roots and the definitions mention. */
  ghost function Mentioned(defs: Structs, roots: seq<VType>): set<Custom> {
    (set i | 0 <= i < |roots| && Named(roots[i]).Some? :: Named(roots[i]).value) +
    (set s, i | s in defs && 0 <= i < |defs[s]| && Named(defs[s][i]).Some? :: Named(defs[s][i]).value)
  }

  /** What every set has that holds the roots and with every struct the types of its fields. */
  ghost function Reached(defs: Structs, roots: seq<VType>): set<Custom> {
    set t | t in Mentioned(defs, roots) && forall types :: Needed(defs, roots, types) ==> t in types
  }

  /** There is a least such set. */
  lemma {:induction false} ReachedLeast(defs: Structs, roots: seq<VType>)
    ensures Needed(defs, roots, Reached(defs, roots))
    ensures forall types :: Needed(defs, roots, types) ==> Reached(defs, roots) <= types
  {
    var least := Reached(defs, roots);
    forall i | 0 <= i < |roots| ensures Has(least, roots[i]) {
      assert forall types :: Needed(defs, roots, types) ==> Has(types, roots[i]);
    }
    forall s | StructT(s) in least && s in defs ensures HasAll(least, defs[s]) {
      forall i | 0 <= i < |defs[s]| ensures Has(least, defs[s][i]) {
        forall types | Needed(defs, roots, types) ensures Has(types, defs[s][i]) {
          assert HasAll(types, defs[s]);
        }
      }
    }
  }

  /** The search panics exactly on an undefined struct that is needed, and otherwise finds exactly
      the names of the types that are needed. */
  ghost predicate Precise(defs: Structs, roots: seq<VType>) {
    match AllVisited(defs, {}, roots)
    case None => Broken(defs, Reached(defs, roots))
    case Some(found) => !Broken(defs, Reached(defs, roots)) && found == NamesOf(Reached(defs, roots))
  }

  /** It is precise wherever shared names are harmless. */
  lemma {:induction false} Exact(defs: Structs, roots: seq<VType>)
    requires Harmless(defs, Reached(defs, roots))
    ensures Precise(defs, roots)
  {
    var types := Reached(defs, roots);
    ReachedLeast(defs, roots);
    hide Reached;
    NothingExtraAll(defs, {}, roots, types);
    if AllVisited(defs, {}, roots).Some? {
      assert NamesOf({}) == {};
      var found := NothingMissedAll(defs, {}, roots, types);
      assert Needed(defs, roots, found);
      assert found == types;
    }
  }

  method CollectReachableTypes(defs: Structs, roots: seq<VType>) returns (r: Option<set<string>>)
    ensures r == AllVisited(defs, {}, roots)
    ensures Harmless(defs, Reached(defs, roots)) ==>
      match r
      case None => Broken(defs, Reached(defs, roots))
      case Some(found) => !Broken(defs, Reached(defs, roots)) && found == NamesOf(Reached(defs, roots))
  {
    hide Reached, Broken, NamesOf, Harmless;
    if Harmless(defs, Reached(defs, roots)) { Exact(defs, roots); }
    var found := {};
    for i := 0 to |roots|
      invariant AllVisited(defs, {}, roots[..i]) == Some(found)
    {
      assert roots[..i + 1][..i] == roots[..i];
      var next := Visit(defs, found, roots[i]);
      if next.None? {
        Undone(defs, {}, roots, i + 1);
        return None;
      }
      found := next.value;
    }
    assert roots[..|roots|] == roots;
    return Some(found);
  }

  // ---- When shared names do harm ----

  /** A type over these structs and enums. */
  predicate Over(defs: Structs, enums: set<string>, t: VType) {
    match Named(t)
    case None => true
    case Some(m) => if m.StructT? then m.name in defs else m.name in enums
  }

  ghost predicate AllOver(defs: Structs, enums: set<string>, ts: seq<VType>) {
    forall i :: 0 <= i < |ts| ==> Over(defs, enums, ts[i])
  }

  /** All structs and enums that definitions mention exist. */
  ghost predicate WellFounded(defs: Structs, enums: set<string>) {
    forall s :: s in defs ==> AllOver(defs, enums, defs[s])
  }

  /** Met first as an enum, a struct is never expanded: the name of a field is missed. */
  lemma {:induction false} HiddenField(defs: Structs, s: string, i: nat)
    requires s in defs && i < |defs[s]| && Named(defs[s][i]).Some? && Name(Named(defs[s][i]).value) != s
    ensures AllVisited(defs, {}, [EnumT(s), StructT(s)]) == Some({s})
    ensures Name(Named(defs[s][i]).value) in NamesOf(Reached(defs, [EnumT(s), StructT(s)]))
  {
    var roots := [EnumT(s), StructT(s)];
    assert roots[..1] == [EnumT(s)] && [EnumT(s)][..0] == [];
    assert AllVisited(defs, {}, []) == Some({});
    assert AllVisited(defs, {}, [EnumT(s)]) == Some({} + {s});
    assert {} + {s} == {s};
    ReachedLeast(defs, roots);
    var types := Reached(defs, roots);
    hide Reached;
    assert Has(types, roots[1]) && HasAll(types, defs[s]) && Has(types, defs[s][i]);
  }

  lemma {:induction false} ReachedOver(defs: Structs, enums: set<string>, roots: seq<VType>)
    requires WellFounded(defs, enums) && AllOver(defs, enums, roots)
    ensures forall t :: t in Reached(defs, roots) ==> Over(defs, enums, t)
  {
    forall t | t in Mentioned(defs, roots) ensures Over(defs, enums, t) {
      if i :| 0 <= i < |roots| && Named(roots[i]) == Some(t) {
        assert Over(defs, enums, roots[i]);
      } else {
        var s, i :| s in defs && 0 <= i < |defs[s]| && Named(defs[s][i]) == Some(t);
        assert Over(defs, enums, defs[s][i]);
      }
    }
  }

  /** The exact condition, which can be read off the definitions: the search is precise from
      whatever roots if and only if every struct named like an enum mentions only its own name. */
  lemma {:induction false} AlwaysPrecise(defs: Structs, enums: set<string>)
    requires WellFounded(defs, enums)
    ensures
      (forall roots :: AllOver(defs, enums, roots) ==> Precise(defs, roots)) <==>
      forall s :: s in defs && s in enums ==> SelfMade(defs, s)
  {
    hide Reached;
    if forall s :: s in defs && s in enums ==> SelfMade(defs, s) {
      forall roots | AllOver(defs, enums, roots) ensures Precise(defs, roots) {
        ReachedOver(defs, enums, roots);
        assert Harmless(defs, Reached(defs, roots)) by {
          forall s | StructT(s) in Reached(defs, roots) && EnumT(s) in Reached(defs, roots)
            ensures s in defs && SelfMade(defs, s)
          {
            assert Over(defs, enums, StructT(s)) && Over(defs, enums, EnumT(s));
          }
        }
        Exact(defs, roots);
      }
    } else {
      var s :| s in defs && s in enums && !SelfMade(defs, s);
      var i :| 0 <= i < |defs[s]| && Named(defs[s][i]).Some? && Name(Named(defs[s][i]).value) != s;
      HiddenField(defs, s, i);
      assert AllOver(defs, enums, [EnumT(s), StructT(s)]);
      assert !Precise(defs, [EnumT(s), StructT(s)]);
    }
  }

  /** Such definitions, and the order of roots that is no trouble. */
  lemma {:induction false} TwoOfAName()
    ensures
      var defs := map["A" := [StructT("B")], "B" := []];
      !Precise(defs, [EnumT("A"), StructT("A")]) && Precise(defs, [StructT("A"), EnumT("A")])
  {
    var defs := map["A" := [StructT("B")], "B" := []];
    HiddenField(defs, "A", 0);
    StructFirst();
  }

  lemma {:induction false} StructFirst()
    ensures Precise(map["A" := [StructT("B")], "B" := []], [StructT("A"), EnumT("A")])
  {
    hide AllVisited, Reached, NamesOf;
    StructFirstFinds();
    StructFirstNeeds();
  }

  lemma {:induction false} StructFirstFinds()
    ensures AllVisited(map["A" := [StructT("B")], "B" := []], {}, [StructT("A"), EnumT("A")]) == Some({"A", "B"})
  {
    var defs := map["A" := [StructT("B")], "B" := []];
    var roots := [StructT("A"), EnumT("A")];
    assert roots[..1] == [StructT("A")] && [StructT("A")][..0] == [] && [StructT("B")][..0] == [];
    assert {} + {"A"} == {"A"} && {"A"} + {"B"} == {"A", "B"} && {"A", "B"} + {"A"} == {"A", "B"};
    assert Visited(defs, {"A"}, StructT("B")) == Some({"A", "B"});
    assert AllVisited(defs, {"A"}, [StructT("B")]) == Some({"A", "B"});
    assert Visited(defs, {}, StructT("A")) == Some({"A", "B"});
    assert AllVisited(defs, {}, [StructT("A")]) == Some({"A", "B"});
  }

  lemma {:induction false} StructFirstNeeds()
    ensures
      var defs := map["A" := [StructT("B")], "B" := []];
      var types := Reached(defs, [StructT("A"), EnumT("A")]);
      !Broken(defs, types) && NamesOf(types) == {"A", "B"}
  {
    var defs := map["A" := [StructT("B")], "B" := []];
    var roots := [StructT("A"), EnumT("A")];
    var types: set<Custom> := {EnumT("A"), StructT("A"), StructT("B")};
    ReachedLeast(defs, roots);
    var least := Reached(defs, roots);
    hide Reached;
    assert Has(least, roots[0]) && Has(least, roots[1]) && HasAll(least, defs["A"]) && Has(least, defs["A"][0]);
    assert Needed(defs, roots, types);
    assert least == types;
    assert NamesOf(types) == {"A", "B"} by {
      assert Name(StructT("A")) in NamesOf(types) && Name(StructT("B")) in NamesOf(types);
    }
  }
}
