/** Symbolic code and its linked form. */
module Linking {
  import opened Layout
  import M = Machine

  function PatchTarget(labels: Labels, t: M.Target): M.Target {
    match t case Unresolved(l) => TargetOf(labels, l) case Resolved(_) => t
  }

  /** An instruction with its target looked up. */
  function Patch(labels: Labels, i: M.Instr): M.Instr {
    match i
    case Branch(t) => M.Branch(PatchTarget(labels, t))
    case Jump(t) => M.Jump(PatchTarget(labels, t))
    case Call(t) => M.Call(PatchTarget(labels, t))
    case _ => i
  }

  function PatchAll(labels: Labels, prog: seq<M.Instr>): seq<M.Instr> {
    seq(|prog|, k requires 0 <= k < |prog| => Patch(labels, prog[k]))
  }

  predicate Resolvable(labels: Labels, i: M.Instr) {
    (i.Branch? || i.Jump? || i.Call?) ==> i.target.Resolved? || i.target.sym in labels
  }

  /** Memory and labels at some moment of a compilation. */
  datatype Moment = Moment(prog: seq<M.Instr>, labels: Labels)

  ghost predicate Extends(more: Labels, labels: Labels) {
    forall l :: l in labels ==> l in more && more[l] == labels[l]
  }

  /** Memory and labels only grow. */
  ghost predicate Before(m: Moment, m': Moment) {
    m.prog <= m'.prog && Extends(m'.labels, m.labels)
  }

  lemma Reflexive(m: Moment)
    ensures Before(m, m)
  {
  }

  /** Whatever labels are still added, linking turns `i` into what `op` means at `a`. */
  ghost predicate Becomes(labels: Labels, i: M.Instr, op: Op, a: int) {
    forall more :: Extends(more, labels) ==> Patch(more, i) == Place(more, op, a)
  }

  /** Whatever labels are still added, linking turns the instructions from `from` on into `code`. */
  ghost predicate Written(m: Moment, from: nat, code: Code) {
    from + |code| <= |m.prog| &&
    forall k :: 0 <= k < |code| ==> Becomes(m.labels, m.prog[from + k], code[k], from + k)
  }

  /** Written code stays written while memory and labels grow. */
  lemma {:induction false} Later(m: Moment, m': Moment, from: nat, code: Code)
    requires Written(m, from, code) && Before(m, m')
    ensures Written(m', from, code)
  {
    forall k | 0 <= k < |code| ensures Becomes(m'.labels, m'.prog[from + k], code[k], from + k) {
      assert Becomes(m.labels, m.prog[from + k], code[k], from + k);
      forall more | Extends(more, m'.labels) ensures Patch(more, m'.prog[from + k]) == Place(more, code[k], from + k) {
        assert Extends(more, m.labels);
      }
    }
  }

  lemma {:induction false} Join(m: Moment, from: nat, a: Code, b: Code)
    requires Written(m, from, a) && Written(m, from + |a|, b)
    ensures Written(m, from, a + b)
  {
    hide Becomes;
    forall k | 0 <= k < |a + b| ensures Becomes(m.labels, m.prog[from + k], (a + b)[k], from + k) {
      if k >= |a| { assert Becomes(m.labels, m.prog[from + |a| + (k - |a|)], b[k - |a|], from + |a| + (k - |a|)); }
    }
  }

  /** Written code followed by code written later. */
  lemma {:induction false} Append(m: Moment, m': Moment, from: nat, a: Code, b: Code)
    requires Written(m, from, a) && Before(m, m') && Written(m', from + |a|, b)
    ensures Written(m', from, a + b)
  {
    hide Written, Before;
    Later(m, m', from, a);
    Join(m', from, a, b);
  }

  /** The forms in which a single operation is written. */
  predicate Writes(labels: Labels, i: M.Instr, op: Op, a: int) {
    match op
    case I(j) => i == j && !i.Branch? && !i.Jump? && !i.Call?
    case BranchBy(d) => i.Branch? && PatchTarget(labels, i.target) == M.Resolved(a + d)
    case JumpBy(d) => i.Jump? && PatchTarget(labels, i.target) == M.Resolved(a + d)
    case CallBy(d) => i.Call? && PatchTarget(labels, i.target) == M.Resolved(a + d)
    case JumpTo(l) => i == M.Jump(M.Unresolved(l))
    case BranchTo(l) => i == M.Branch(M.Unresolved(l))
    case CallTo(l) => i == M.Call(M.Unresolved(l))
  }

  lemma {:induction false} Single(m: Moment, a: nat, op: Op)
    requires a < |m.prog| && Writes(m.labels, m.prog[a], op, a)
    ensures Written(m, a, [op])
  {
  }

  /** Written code followed by a single operation. */
  lemma {:induction false} AppendOne(m: Moment, m': Moment, from: nat, a: Code, op: Op)
    requires Written(m, from, a) && Before(m, m')
    requires from + |a| < |m'.prog| && Writes(m'.labels, m'.prog[from + |a|], op, from + |a|)
    ensures Written(m', from, a + [op])
  {
    hide Written, Before;
    Single(m', from + |a|, op);
    Append(m, m', from, a, [op]);
  }

  predicate Plain(xs: seq<M.Instr>) {
    forall k :: 0 <= k < |xs| ==> !xs[k].Branch? && !xs[k].Jump? && !xs[k].Call?
  }

  lemma {:induction false} Straight(m: Moment, a: nat, xs: seq<M.Instr>)
    requires a + |xs| <= |m.prog| && m.prog[a..a + |xs|] == xs && Plain(xs)
    ensures Written(m, a, Instrs(xs))
  {
    forall k | 0 <= k < |xs| ensures Becomes(m.labels, m.prog[a + k], Instrs(xs)[k], a + k) {
      assert m.prog[a + k] == m.prog[a..a + |xs|][k] == xs[k];
    }
  }

  /** Written code followed by plain instructions. */
  lemma {:induction false} AppendPlain(m: Moment, m': Moment, from: nat, a: Code, xs: seq<M.Instr>)
    requires Written(m, from, a) && Before(m, m') && |m.prog| == from + |a|
    requires m'.prog == m.prog + xs && Plain(xs)
    ensures Written(m', from, a + Instrs(xs))
  {
    hide Written, Before;
    Straight(m', from + |a|, xs);
    Append(m, m', from, a, Instrs(xs));
  }

  /** A symbolic jump whose label is set is a jump by the distance. */
  predicate Realizes(labels: Labels, sym: Op, op: Op, a: int) {
    sym == op ||
    match sym
    case JumpTo(l) => l in labels && op == JumpBy(labels[l] - a)
    case BranchTo(l) => l in labels && op == BranchBy(labels[l] - a)
    case _ => false
  }

  /** `code` is `sym`, placed at `from`, with symbolic jumps resolved. */
  ghost predicate Realized(labels: Labels, from: int, sym: Code, code: Code) {
    |sym| == |code| && forall k :: 0 <= k < |code| ==> Realizes(labels, sym[k], code[k], from + k)
  }

  lemma {:induction false} RealizedWritten(m: Moment, from: nat, sym: Code, code: Code)
    requires Written(m, from, sym) && Realized(m.labels, from, sym, code)
    ensures Written(m, from, code)
  {
    forall k | 0 <= k < |code| ensures Becomes(m.labels, m.prog[from + k], code[k], from + k) {
      assert Becomes(m.labels, m.prog[from + k], sym[k], from + k);
      assert Realizes(m.labels, sym[k], code[k], from + k);
    }
  }

  lemma {:induction false} RealizedSame(labels: Labels, from: int, code: Code)
    ensures Realized(labels, from, code, code)
  {
  }

  lemma {:induction false} RealizedJoin(labels: Labels, from: int, s1: Code, c1: Code, s2: Code, c2: Code)
    requires Realized(labels, from, s1, c1) && Realized(labels, from + |c1|, s2, c2)
    ensures Realized(labels, from, s1 + s2, c1 + c2)
  {
    hide Realizes;
    forall k | 0 <= k < |c1 + c2| ensures Realizes(labels, (s1 + s2)[k], (c1 + c2)[k], from + k) {
      if k >= |c1| { assert Realizes(labels, s2[k - |c1|], c2[k - |c1|], from + |c1| + (k - |c1|)); }
    }
  }

  /** One operation in front. */
  lemma {:induction false} RealizedCons(labels: Labels, from: int, s0: Op, c0: Op, s: Code, c: Code)
    requires Realizes(labels, s0, c0, from) && Realized(labels, from + 1, s, c)
    ensures Realized(labels, from, [s0] + s, [c0] + c)
  {
    hide Realizes;
    assert Realized(labels, from, [s0], [c0]);
    RealizedJoin(labels, from, [s0], [c0], s, c);
  }

  /** Finished code in front. */
  lemma {:induction false} RealizedAfter(labels: Labels, from: int, code: Code, s: Code, c: Code)
    requires Realized(labels, from + |code|, s, c)
    ensures Realized(labels, from, code + s, code + c)
  {
    hide Realized;
    RealizedSame(labels, from, code);
    RealizedJoin(labels, from, code, code, s, c);
  }
}
