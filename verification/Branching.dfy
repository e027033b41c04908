/** Code of branching statements while their labels are still open. */
module Branching {
  import opened Ast
  import opened Layout
  import opened Linking
  import M = Machine

  /** The branches of an if statement, leaving for the label `end`. */
  function SymBranches(g: Program, bs: seq<Branch>, end: M.Label): Code
    decreases bs
  {
    if bs == [] then []
    else
      var body := StmtsCode(g, bs[0].body);
      ExprCode(g, bs[0].cond) +
      ([I(M.Not), BranchBy(|body| + 2)] + (body + ([JumpTo(end)] + SymBranches(g, bs[1..], end))))
  }

  /** The tests of one arm, going to its label. */
  function SymValues(g: Program, es: seq<Expr>, arm: M.Label): Code {
    if es == [] then []
    else [I(M.Dup(0))] + (ExprCode(g, es[0]) + ([I(M.Eq), BranchTo(arm)] + SymValues(g, es[1..], arm)))
  }

  function SymPattern(g: Program, p: Pattern, arm: M.Label): Code {
    match p
    case Default => [JumpTo(arm)]
    case Values(es) => SymValues(g, es, arm)
  }

  function SymTests(g: Program, arms: seq<Arm>, labels: seq<M.Label>): Code
    requires |labels| == |arms|
  {
    if arms == [] then [] else SymPattern(g, arms[0].pattern, labels[0]) + SymTests(g, arms[1..], labels[1..])
  }

  function SymBodies(g: Program, arms: seq<Arm>, end: M.Label): Code {
    if arms == [] then []
    else [I(M.Pop)] + (StmtsCode(g, arms[0].body) + ([JumpTo(end)] + SymBodies(g, arms[1..], end)))
  }

  /** The arms' labels point to their bodies, the first of which stands at `at`. */
  ghost predicate ArmsPlaced(g: Program, arms: seq<Arm>, ls: seq<M.Label>, labels: Labels, at: int)
    requires |ls| == |arms|
  {
    arms != [] ==>
      ls[0] in labels && labels[ls[0]] == at &&
      ArmsPlaced(g, arms[1..], ls[1..], labels, at + |StmtsCode(g, arms[0].body)| + 2)
  }

  /** A placement survives further labels. */
  lemma {:induction false} StillPlaced(g: Program, arms: seq<Arm>, ls: seq<M.Label>, m: Moment, m': Moment, at: int)
    requires |ls| == |arms| && ArmsPlaced(g, arms, ls, m.labels, at) && Before(m, m')
    ensures ArmsPlaced(g, arms, ls, m'.labels, at)
    decreases arms
  {
    hide StmtsCode;
    if arms != [] { StillPlaced(g, arms[1..], ls[1..], m, m', at + |StmtsCode(g, arms[0].body)| + 2); }
  }

  lemma {:induction false} SymSizes(g: Program, bs: seq<Branch>, end: M.Label, after: nat)
    ensures |SymBranches(g, bs, end)| == |BranchesCode(g, bs, after)|
    decreases bs
  {
    if bs != [] { SymSizes(g, bs[1..], end, after); }
  }

  /** A branch up to where it leaves. */
  function BranchFront(g: Program, b: Branch): Code {
    var body := StmtsCode(g, b.body);
    (ExprCode(g, b.cond) + [I(M.Not), BranchBy(|body| + 2)]) + body
  }

  lemma {:induction false} BranchesStep(g: Program, bs: seq<Branch>, end: M.Label, after: nat)
    ensures bs == [] ==> BranchesCode(g, bs, after) == SymBranches(g, bs, end) == []
    ensures bs != [] ==>
      var rest := BranchesCode(g, bs[1..], after);
      BranchesCode(g, bs, after) == BranchFront(g, bs[0]) + ([JumpBy(|rest| + after + 1)] + rest)
    ensures bs != [] ==>
      SymBranches(g, bs, end) == BranchFront(g, bs[0]) + ([JumpTo(end)] + SymBranches(g, bs[1..], end))
  {
    hide ExprCode, StmtsCode;
  }

  lemma {:induction false} BranchesRealized(g: Program, bs: seq<Branch>, end: M.Label, after: nat, labels: Labels,
      from: int)
    requires end in labels && labels[end] == from + |BranchesCode(g, bs, after)| + after
    ensures Realized(labels, from, SymBranches(g, bs, end), BranchesCode(g, bs, after))
    decreases bs
  {
    hide Realized, BranchesCode, SymBranches, BranchFront;
    BranchesStep(g, bs, end, after);
    if bs != [] {
      var front, rest := BranchFront(g, bs[0]), BranchesCode(g, bs[1..], after);
      var sym, a := SymBranches(g, bs[1..], end), from + |front|;
      BranchesRealized(g, bs[1..], end, after, labels, a + 1);
      RealizedCons(labels, a, JumpTo(end), JumpBy(|rest| + after + 1), sym, rest);
      RealizedAfter(labels, from, front, [JumpTo(end)] + sym, [JumpBy(|rest| + after + 1)] + rest);
    } else {
      RealizedSame(labels, from, []);
    }
  }

  /** A test of an arm up to where it leaves. */
  function TestFront(g: Program, e: Expr): Code {
    ([I(M.Dup(0))] + ExprCode(g, e)) + [I(M.Eq)]
  }

  lemma {:induction false} ValuesStep(g: Program, es: seq<Expr>, arm: M.Label, gap: nat)
    ensures es == [] ==> ValueTests(g, es, gap) == SymValues(g, es, arm) == []
    ensures es != [] ==>
      var rest := ValueTests(g, es[1..], gap);
      ValueTests(g, es, gap) == TestFront(g, es[0]) + ([BranchBy(|rest| + gap + 1)] + rest)
    ensures es != [] ==>
      SymValues(g, es, arm) == TestFront(g, es[0]) + ([BranchTo(arm)] + SymValues(g, es[1..], arm))
  {
    hide ExprCode;
  }

  lemma {:induction false} ValuesRealized(g: Program, es: seq<Expr>, arm: M.Label, gap: nat, labels: Labels, from: int)
    requires arm in labels && labels[arm] == from + |ValueTests(g, es, gap)| + gap
    ensures Realized(labels, from, SymValues(g, es, arm), ValueTests(g, es, gap))
    decreases es
  {
    hide Realized, ValueTests, SymValues, TestFront;
    ValuesStep(g, es, arm, gap);
    if es != [] {
      var front, rest, sym := TestFront(g, es[0]), ValueTests(g, es[1..], gap), SymValues(g, es[1..], arm);
      var a := from + |front|;
      ValuesRealized(g, es[1..], arm, gap, labels, a + 1);
      RealizedCons(labels, a, BranchTo(arm), BranchBy(|rest| + gap + 1), sym, rest);
      RealizedAfter(labels, from, front, [BranchTo(arm)] + sym, [BranchBy(|rest| + gap + 1)] + rest);
    } else {
      RealizedSame(labels, from, []);
    }
  }

  lemma {:induction false} PatternRealized(g: Program, p: Pattern, arm: M.Label, gap: nat, labels: Labels, from: int)
    requires arm in labels && labels[arm] == from + |PatternCode(g, p, gap)| + gap
    ensures Realized(labels, from, SymPattern(g, p, arm), PatternCode(g, p, gap))
  {
    hide Realized, ValueTests;
    match p
    case Default =>
      RealizedSame(labels, from + 1, []);
      RealizedCons(labels, from, JumpTo(arm), JumpBy(gap + 1), [], []);
      assert [JumpTo(arm)] + [] == [JumpTo(arm)] && [JumpBy(gap + 1)] + [] == [JumpBy(gap + 1)];
    case Values(es) => ValuesRealized(g, es, arm, gap, labels, from);
  }

  lemma {:induction false} TestsStep(g: Program, arms: seq<Arm>, ls: seq<M.Label>, gap: nat)
    requires |ls| == |arms|
    ensures arms == [] ==> TestsCode(g, arms, gap) == SymTests(g, arms, ls) == []
    ensures arms != [] ==>
      var size := |StmtsCode(g, arms[0].body)| + 2;
      var rest := TestsCode(g, arms[1..], gap + size);
      TestsCode(g, arms, gap) == PatternCode(g, arms[0].pattern, |rest| + gap) + rest
    ensures arms != [] ==>
      SymTests(g, arms, ls) == SymPattern(g, arms[0].pattern, ls[0]) + SymTests(g, arms[1..], ls[1..])
  {
    hide StmtsCode, PatternCode, SymPattern;
  }

  lemma {:induction false} PlacedStep(g: Program, arms: seq<Arm>, ls: seq<M.Label>, labels: Labels, at: int, next: int)
    requires |ls| == |arms| && arms != [] && ArmsPlaced(g, arms, ls, labels, at)
    requires next == at + |StmtsCode(g, arms[0].body)| + 2
    ensures ls[0] in labels && labels[ls[0]] == at
    ensures ArmsPlaced(g, arms[1..], ls[1..], labels, next)
  {
    hide StmtsCode;
  }

  lemma {:induction false} TestsRealized(
    g: Program, arms: seq<Arm>, ls: seq<M.Label>, gap: nat, labels: Labels, from: int, at: int)
    requires |ls| == |arms| && at == from + |TestsCode(g, arms, gap)| + gap
    requires ArmsPlaced(g, arms, ls, labels, at)
    ensures Realized(labels, from, SymTests(g, arms, ls), TestsCode(g, arms, gap))
    decreases arms
  {
    hide ExprCode, StmtsCode, Realized, PatternCode, SymPattern, TestsCode, SymTests, ArmsPlaced;
    TestsStep(g, arms, ls, gap);
    if arms != [] {
      var size := |StmtsCode(g, arms[0].body)| + 2;
      var rest := TestsCode(g, arms[1..], gap + size);
      var first, sym := PatternCode(g, arms[0].pattern, |rest| + gap), SymPattern(g, arms[0].pattern, ls[0]);
      PlacedStep(g, arms, ls, labels, at, at + size);
      PatternRealized(g, arms[0].pattern, ls[0], |rest| + gap, labels, from);
      TestsRealized(g, arms[1..], ls[1..], gap + size, labels, from + |first|, at + size);
      RealizedJoin(labels, from, sym, first, SymTests(g, arms[1..], ls[1..]), rest);
    } else {
      RealizedSame(labels, from, []);
    }
  }

  /** An arm's body up to where it leaves. */
  function BodyFront(g: Program, arm: Arm): Code {
    [I(M.Pop)] + StmtsCode(g, arm.body)
  }

  lemma {:induction false} BodiesStep(g: Program, arms: seq<Arm>, end: M.Label)
    ensures arms == [] ==> BodiesCode(g, arms) == SymBodies(g, arms, end) == []
    ensures arms != [] ==>
      var rest := BodiesCode(g, arms[1..]);
      BodiesCode(g, arms) == BodyFront(g, arms[0]) + ([JumpBy(|rest| + 1)] + rest)
    ensures arms != [] ==>
      SymBodies(g, arms, end) == BodyFront(g, arms[0]) + ([JumpTo(end)] + SymBodies(g, arms[1..], end))
  {
    hide StmtsCode;
  }

  lemma {:induction false} BodiesRealized(g: Program, arms: seq<Arm>, end: M.Label, labels: Labels, from: int)
    requires end in labels && labels[end] == from + |BodiesCode(g, arms)|
    ensures Realized(labels, from, SymBodies(g, arms, end), BodiesCode(g, arms))
    decreases arms
  {
    hide Realized, BodiesCode, SymBodies, BodyFront;
    BodiesStep(g, arms, end);
    if arms != [] {
      var front, rest, sym := BodyFront(g, arms[0]), BodiesCode(g, arms[1..]), SymBodies(g, arms[1..], end);
      var a := from + |front|;
      BodiesRealized(g, arms[1..], end, labels, a + 1);
      RealizedCons(labels, a, JumpTo(end), JumpBy(|rest| + 1), sym, rest);
      RealizedAfter(labels, from, front, [JumpTo(end)] + sym, [JumpBy(|rest| + 1)] + rest);
    } else {
      RealizedSame(labels, from, []);
    }
  }

  // ---- Building up from the front ----

  lemma {:induction false} TestsSnoc(g: Program, arms: seq<Arm>, ls: seq<M.Label>, arm: Arm, l: M.Label)
    requires |ls| == |arms|
    ensures SymTests(g, arms + [arm], ls + [l]) == SymTests(g, arms, ls) + SymPattern(g, arm.pattern, l)
    decreases arms
  {
    hide SymPattern;
    if arms != [] {
      TestsSnoc(g, arms[1..], ls[1..], arm, l);
      assert (arms + [arm])[1..] == arms[1..] + [arm] && (ls + [l])[1..] == ls[1..] + [l];
    } else {
      assert (arms + [arm])[1..] == [] && SymTests(g, [], (ls + [l])[1..]) == [];
    }
  }

  lemma {:induction false} ValuesLength(g: Program, es: seq<Expr>, arm: M.Label, gap: nat)
    ensures |SymValues(g, es, arm)| == |ValueTests(g, es, gap)|
    decreases es
  {
    if es != [] { ValuesLength(g, es[1..], arm, gap); }
  }

  lemma {:induction false} TestsLength(g: Program, arms: seq<Arm>, ls: seq<M.Label>, gap: nat)
    requires |ls| == |arms|
    ensures |SymTests(g, arms, ls)| == |TestsCode(g, arms, gap)|
    decreases arms
  {
    hide SymValues, ValueTests, StmtsCode;
    if arms != [] {
      var size := |StmtsCode(g, arms[0].body)| + 2;
      TestsLength(g, arms[1..], ls[1..], gap + size);
      match arms[0].pattern {
        case Default =>
        case Values(es) => ValuesLength(g, es, ls[0], |TestsCode(g, arms[1..], gap + size)| + gap);
      }
    }
  }

  function BodiesSize(g: Program, arms: seq<Arm>): nat {
    if arms == [] then 0 else |StmtsCode(g, arms[0].body)| + 2 + BodiesSize(g, arms[1..])
  }

  lemma {:induction false} PlacedSnoc(g: Program, arms: seq<Arm>, ls: seq<M.Label>, arm: Arm, l: M.Label,
      labels: Labels, at: int)
    requires |ls| == |arms| && ArmsPlaced(g, arms, ls, labels, at)
    requires l in labels && labels[l] == at + BodiesSize(g, arms)
    ensures ArmsPlaced(g, arms + [arm], ls + [l], labels, at)
    ensures BodiesSize(g, arms + [arm]) == BodiesSize(g, arms) + |StmtsCode(g, arm.body)| + 2
    decreases arms
  {
    hide StmtsCode;
    if arms != [] {
      PlacedSnoc(g, arms[1..], ls[1..], arm, l, labels, at + |StmtsCode(g, arms[0].body)| + 2);
      assert (arms + [arm])[1..] == arms[1..] + [arm] && (ls + [l])[1..] == ls[1..] + [l];
    } else {
      assert (arms + [arm])[1..] == [];
    }
  }

  lemma {:induction false} BodiesLength(g: Program, arms: seq<Arm>, end: M.Label)
    ensures |SymBodies(g, arms, end)| == |BodiesCode(g, arms)| == BodiesSize(g, arms)
  {
    if arms != [] { BodiesLength(g, arms[1..], end); }
  }
}
