/** The shared-memory mutex as a transition system: any number of threads, interleaved at every
    access to the lock word, on top of a kernel wait queue that may wake a thread for no reason.
    Loads made while spinning are hints and may be stale. */
module Mutex {
  import opened Values

  const UNLOCKED := 0
  const LOCKED := 1
  const SLEEPING := 2
  const PASSIVE_SPIN := 5

  /** The futex implementation and the compare-and-swap fallback. */
  datatype Variant = Futex | Cas

  /** Where a thread is. `wait` is the value it will store when it takes the lock. */
  datatype Pc<D> =
    | Idle
    | Trying                               // about to try the fast path
    | Spinning(round: nat, wait: int)      // about to load the lock word
    | Attempting(round: nat, wait: int)    // saw it free, about to compare and swap
    | Swapping(wait: int)                  // about to announce that it will sleep
    | Parking                              // about to call the kernel
    | Asleep
    | Holding
    | Loaded(copy: D)                      // inside the critical section, between read and write
    | Unlocking
    | Waking                               // released, still owes a wake-up
    | Bug                                  // unlocking found an impossible lock word

  datatype Event<U> = Acquired(t: nat) | Updated(t: nat, u: U) | Released(t: nat)

  datatype State<D, U> = State(key: int, pcs: seq<Pc<D>>, data: D, events: seq<Event<U>>)

  /** How an update changes the protected value, and which implementation runs. */
  datatype Config<!D, !U> = Config(variant: Variant, apply: (D, U) -> D)

  // ---- Steps ----

  function Go<D, U>(s: State<D, U>, t: nat, pc: Pc<D>): State<D, U>
    requires t < |s.pcs|
  {
    s.(pcs := s.pcs[t := pc])
  }

  function Take<D, U>(s: State<D, U>, t: nat, key: int): State<D, U>
    requires t < |s.pcs|
  {
    Go(s, t, Holding).(key := key, events := s.events + [Acquired(t)])
  }

  ghost predicate LockStep<D(!new), U(!new)>(c: Config<D, U>, s: State<D, U>, s': State<D, U>, t: nat)
    requires t < |s.pcs|
  {
    match s.pcs[t]
    case Idle => s' == Go(s, t, Trying)
    case Trying =>
      if s.key == UNLOCKED then s' == Take(s, t, LOCKED)
      else if c.variant.Cas? then s' == s
      else s' == Go(s, t, Spinning(0, s.key))
    case Spinning(r, w) =>
      if r < PASSIVE_SPIN then s' == Go(s, t, Attempting(r, w)) || s' == Go(s, t, Spinning(r + 1, w))
      else s' == Go(s, t, Swapping(w))
    case Attempting(r, w) =>
      if s.key == UNLOCKED then s' == Take(s, t, w) else s' == Go(s, t, Spinning(r, w))
    case Swapping(_) =>
      if s.key == UNLOCKED then s' == Take(s, t, SLEEPING) else s' == Go(s, t, Parking).(key := SLEEPING)
    case Parking =>
      // The kernel puts the thread to sleep only if the word still says so; it may also refuse.
      (s.key == SLEEPING && s' == Go(s, t, Asleep)) || s' == Go(s, t, Spinning(0, SLEEPING))
    case Asleep => s' == Go(s, t, Spinning(0, SLEEPING))
    case _ => false
  }

  ghost predicate SectionStep<D(!new), U(!new)>(c: Config<D, U>, s: State<D, U>, s': State<D, U>, t: nat)
    requires t < |s.pcs|
  {
    match s.pcs[t]
    case Holding => s' == Go(s, t, Loaded(s.data)) || s' == Go(s, t, Unlocking)
    case Loaded(copy) =>
      exists u :: s' == Go(s, t, Holding).(data := c.apply(copy, u), events := s.events + [Updated(t, u)])
    case _ => false
  }

  ghost predicate UnlockStep<D(!new), U(!new)>(c: Config<D, U>, s: State<D, U>, s': State<D, U>, t: nat)
    requires t < |s.pcs|
  {
    match s.pcs[t]
    case Unlocking =>
      var next :=
        if c.variant.Cas? then Idle
        else if s.key == SLEEPING then Waking
        else if s.key == LOCKED then Idle
        else Bug;
      s' == Go(s, t, next).(key := UNLOCKED, events := s.events + [Released(t)])
    case Waking =>
      (exists j :: 0 <= j < |s.pcs| && s.pcs[j].Asleep? && s' == Go(Go(s, t, Idle), j, Spinning(0, SLEEPING))) ||
      ((forall j :: 0 <= j < |s.pcs| ==> !s.pcs[j].Asleep?) && s' == Go(s, t, Idle))
    case _ => false
  }

  ghost predicate Next<D(!new), U(!new)>(c: Config<D, U>, s: State<D, U>, s': State<D, U>) {
    exists t :: 0 <= t < |s.pcs| && (LockStep(c, s, s', t) || SectionStep(c, s, s', t) || UnlockStep(c, s, s', t))
  }

  ghost predicate Init<D(!new), U(!new)>(s: State<D, U>) {
    s.key == UNLOCKED && s.events == [] && forall t :: 0 <= t < |s.pcs| ==> s.pcs[t].Idle?
  }

  ghost predicate Run<D(!new), U(!new)>(c: Config<D, U>, run: seq<State<D, U>>) {
    |run| > 0 && Init(run[0]) && forall i :: 0 <= i < |run| - 1 ==> Next(c, run[i], run[i + 1])
  }

  // ---- The atomic lock ----

  /** An atomic lock around a value. */
  datatype Lock<D> = Lock(owner: Option<nat>, data: D)

  /** One event of the atomic lock; `None` when the lock forbids it. */
  function Atomic<D, U>(c: Config<D, U>, l: Lock<D>, e: Event<U>): Option<Lock<D>> {
    match e
    case Acquired(t) => if l.owner.None? then Some(Lock(Some(t), l.data)) else None
    case Updated(t, u) => if l.owner == Some(t) then Some(Lock(l.owner, c.apply(l.data, u))) else None
    case Released(t) => if l.owner == Some(t) then Some(Lock(None, l.data)) else None
  }

  function Replay<D, U>(c: Config<D, U>, init: D, es: seq<Event<U>>): Option<Lock<D>> {
    if es == [] then Some(Lock(None, init))
    else match Replay(c, init, es[..|es| - 1])
      case None => None
      case Some(l) => Atomic(c, l, es[|es| - 1])
  }

  // ---- Invariant ----

  predicate Owns<D>(pc: Pc<D>) {
    pc.Holding? || pc.Loaded? || pc.Unlocking?
  }

  /** Awake, and bound to leave the lock word saying that somebody sleeps. */
  predicate Remembers<D>(pc: Pc<D>) {
    ((pc.Spinning? || pc.Attempting? || pc.Swapping?) && pc.wait == SLEEPING) || pc.Parking? || pc.Waking?
  }

  ghost predicate ThreadOk<D, U>(c: Config<D, U>, s: State<D, U>, pc: Pc<D>) {
    ((pc.Spinning? || pc.Attempting? || pc.Swapping?) ==> pc.wait == LOCKED || pc.wait == SLEEPING) &&
    (pc.Loaded? ==> pc.copy == s.data) &&
    !pc.Bug? && (c.variant.Cas? ==> pc.Idle? || pc.Trying? || Owns(pc))
  }

  /** The events so far are a run of the atomic lock, which agrees on the data and on who owns
      the lock; the lock word is free exactly when nobody does. */
  ghost predicate Refines<D, U>(c: Config<D, U>, init: D, s: State<D, U>) {
    var l := Replay(c, init, s.events);
    l.Some? && l.value.data == s.data && (s.key == UNLOCKED <==> l.value.owner.None?) &&
    (forall t :: 0 <= t < |s.pcs| ==> (Owns(s.pcs[t]) <==> l.value.owner == Some(t))) &&
    (l.value.owner.Some? ==> l.value.owner.value < |s.pcs|)
  }

  /** No lost wake-up. */
  ghost predicate Watched<D, U>(s: State<D, U>) {
    (exists t :: 0 <= t < |s.pcs| && s.pcs[t].Asleep?) ==>
      s.key == SLEEPING || exists t :: 0 <= t < |s.pcs| && Remembers(s.pcs[t])
  }

  ghost predicate Inv<D, U>(c: Config<D, U>, init: D, s: State<D, U>) {
    UNLOCKED <= s.key <= SLEEPING && Refines(c, init, s) && Watched(s) &&
    forall t :: 0 <= t < |s.pcs| ==> ThreadOk(c, s, s.pcs[t])
  }

  // ---- Every step keeps it ----

  lemma {:induction false} ReplaySnoc<D, U>(c: Config<D, U>, init: D, es: seq<Event<U>>, e: Event<U>)
    ensures Replay(c, init, es + [e]) ==
      match Replay(c, init, es) case None => None case Some(l) => Atomic(c, l, e)
  {
    assert (es + [e])[..|es + [e]| - 1] == es;
  }

  lemma {:induction false} LockKeeps<D(!new),
      U(!new)>(c: Config<D, U>, init: D, s: State<D, U>, s': State<D, U>, t: nat)
    requires t < |s.pcs| && Inv(c, init, s) && LockStep(c, s, s', t)
    ensures Inv(c, init, s')
  {
    LockRefines(c, init, s, s', t);
    LockWatches(c, init, s, s', t);
    LockThreads(c, init, s, s', t);
    LockKey(c, init, s, s', t);
    hide Refines, Watched, LockStep, ThreadOk;
  }

  lemma {:induction false} LockKey<D(!new), U(!new)>(c: Config<D, U>, init: D, s: State<D, U>, s': State<D, U>, t: nat)
    requires t < |s.pcs| && Inv(c, init, s) && LockStep(c, s, s', t)
    ensures UNLOCKED <= s'.key <= SLEEPING
  {
    hide Refines, Watched;
    assert ThreadOk(c, s, s.pcs[t]);
  }

  lemma {:induction false} LockThreads<D(!new),
      U(!new)>(c: Config<D, U>, init: D, s: State<D, U>, s': State<D, U>, t: nat)
    requires t < |s.pcs| && Inv(c, init, s) && LockStep(c, s, s', t)
    ensures forall j :: 0 <= j < |s'.pcs| ==> ThreadOk(c, s', s'.pcs[j])
  {
    hide Refines, Watched;
    assert ThreadOk(c, s, s.pcs[t]);
    forall j | 0 <= j < |s'.pcs| ensures ThreadOk(c, s', s'.pcs[j]) {
      assert j != t ==> ThreadOk(c, s, s.pcs[j]);
    }
  }

  lemma {:induction false} LockRefines<D(!new),
      U(!new)>(c: Config<D, U>, init: D, s: State<D, U>, s': State<D, U>, t: nat)
    requires t < |s.pcs| && Inv(c, init, s) && LockStep(c, s, s', t)
    ensures Refines(c, init, s')
  {
    hide Replay;
    ReplaySnoc(c, init, s.events, Acquired(t));
    assert ThreadOk(c, s, s.pcs[t]);
  }

  lemma {:induction false} LockWatches<D(!new),
      U(!new)>(c: Config<D, U>, init: D, s: State<D, U>, s': State<D, U>, t: nat)
    requires t < |s.pcs| && Inv(c, init, s) && LockStep(c, s, s', t)
    ensures Watched(s')
  {
    hide Refines;
    assert ThreadOk(c, s, s.pcs[t]);
    if j :| 0 <= j < |s'.pcs| && s'.pcs[j].Asleep? && s'.key != SLEEPING {
      assert s.key != SLEEPING && s.pcs[j].Asleep?;
      var r :| 0 <= r < |s.pcs| && Remembers(s.pcs[r]);
      assert Remembers(s'.pcs[if r == t then t else r]);
    }
  }

  lemma {:induction false} SectionKeeps<D(!new),
      U(!new)>(c: Config<D, U>, init: D, s: State<D, U>, s': State<D, U>, t: nat)
    requires t < |s.pcs| && Inv(c, init, s) && SectionStep(c, s, s', t)
    ensures Inv(c, init, s')
  {
    hide Replay;
    assert ThreadOk(c, s, s.pcs[t]);
    if s.pcs[t].Loaded? {
      var u :| s' == Go(s, t, Holding).(data := c.apply(s.pcs[t].copy, u), events := s.events + [Updated(t, u)]);
      ReplaySnoc(c, init, s.events, Updated(t, u));
      // Nobody else is between a read and a write.
      forall j | 0 <= j < |s'.pcs| ensures ThreadOk(c, s', s'.pcs[j]) {
        assert ThreadOk(c, s, s.pcs[j]) && (Owns(s.pcs[j]) ==> j == t);
      }
    } else {
      forall j | 0 <= j < |s'.pcs| ensures ThreadOk(c, s', s'.pcs[j]) {
        assert ThreadOk(c, s, s.pcs[j]);
      }
    }
    OthersRemember(s, s', t);
  }

  /** A step of a thread that neither sleeps nor owes anything keeps the watch. */
  lemma {:induction false} OthersRemember<D, U>(s: State<D, U>, s': State<D, U>, t: nat)
    requires t < |s.pcs| == |s'.pcs| && Watched(s) && s'.key == s.key && !Remembers(s.pcs[t])
    requires forall j :: 0 <= j < |s.pcs| && j != t ==> s'.pcs[j] == s.pcs[j]
    requires !s'.pcs[t].Asleep?
    ensures Watched(s')
  {
    if j :| 0 <= j < |s'.pcs| && s'.pcs[j].Asleep? && s'.key != SLEEPING {
      assert s.pcs[j].Asleep?;
      var r :| 0 <= r < |s.pcs| && Remembers(s.pcs[r]);
      assert Remembers(s'.pcs[r]);
    }
  }

  lemma {:induction false} UnlockKeeps<D(!new),
      U(!new)>(c: Config<D, U>, init: D, s: State<D, U>, s': State<D, U>, t: nat)
    requires t < |s.pcs| && Inv(c, init, s) && UnlockStep(c, s, s', t)
    ensures Inv(c, init, s')
  {
    hide Replay;
    assert ThreadOk(c, s, s.pcs[t]);
    ReplaySnoc(c, init, s.events, Released(t));
    forall j | 0 <= j < |s'.pcs| ensures ThreadOk(c, s', s'.pcs[j]) {
      assert ThreadOk(c, s, s.pcs[j]) && (s.pcs[t].Unlocking? ==> Owns(s.pcs[t]));
    }
    UnlockWatches(c, init, s, s', t);
  }

  lemma {:induction false} UnlockWatches<D(!new),
      U(!new)>(c: Config<D, U>, init: D, s: State<D, U>, s': State<D, U>, t: nat)
    requires t < |s.pcs| && Inv(c, init, s) && UnlockStep(c, s, s', t)
    ensures Watched(s')
  {
    hide Refines;
    if j :| 0 <= j < |s'.pcs| && s'.pcs[j].Asleep? {
      assert s.pcs[j].Asleep? && ThreadOk(c, s, s.pcs[j]);
      if s.pcs[t].Waking? {
        // Some sleeper, perhaps not this one, was woken and remembers.
        var w :| 0 <= w < |s.pcs| && s.pcs[w].Asleep? && s' == Go(Go(s, t, Idle), w, Spinning(0, SLEEPING));
        assert Remembers(s'.pcs[w]);
      } else if s.key == SLEEPING && c.variant.Futex? {
        assert Remembers(s'.pcs[t]);
      } else if s.key != SLEEPING {
        var r :| 0 <= r < |s.pcs| && Remembers(s.pcs[r]);
        assert Remembers(s'.pcs[r]);
      }
    }
  }

  lemma {:induction false} NextKeeps<D(!new), U(!new)>(c: Config<D, U>, init: D, s: State<D, U>, s': State<D, U>)
    requires Inv(c, init, s) && Next(c, s, s')
    ensures Inv(c, init, s') && |s'.pcs| == |s.pcs|
  {
    hide Inv;
    var t :| 0 <= t < |s.pcs| && (LockStep(c, s, s', t) || SectionStep(c, s, s', t) || UnlockStep(c, s, s', t));
    if LockStep(c, s, s', t) { LockKeeps(c, init, s, s', t); }
    else if SectionStep(c, s, s', t) { SectionKeeps(c, init, s, s', t); }
    else { UnlockKeeps(c, init, s, s', t); }
  }

  lemma {:induction false} RunKeeps<D(!new), U(!new)>(c: Config<D, U>, run: seq<State<D, U>>, i: nat)
    requires Run(c, run) && i < |run|
    ensures Inv(c, run[0].data, run[i]) && |run[i].pcs| == |run[0].pcs|
  {
    hide Next, Inv;
    if i == 0 {
      InitInv(c, run[0]);
    } else {
      RunKeeps(c, run, i - 1);
      assert Next(c, run[i - 1], run[i - 1 + 1]);
      NextKeeps(c, run[0].data, run[i - 1], run[i]);
    }
  }

  lemma {:induction false} InitInv<D(!new), U(!new)>(c: Config<D, U>, s: State<D, U>)
    requires Init(s)
    ensures Inv(c, s.data, s)
  {
    assert Replay(c, s.data, s.events) == Some(Lock(None, s.data));
  }

  // ---- What users of the mutex rely on, in every state of every run ----

  /** At most one thread is inside, and the lock word is nonzero exactly when one is. */
  lemma {:induction false} MutualExclusion<D(!new),
      U(!new)>(c: Config<D, U>, run: seq<State<D, U>>, i: nat, t: nat, u: nat)
    requires Run(c, run) && i < |run| && t < |run[i].pcs| && u < |run[i].pcs|
    ensures Owns(run[i].pcs[t]) && Owns(run[i].pcs[u]) ==> t == u
    ensures run[i].key != UNLOCKED <==> exists j :: 0 <= j < |run[i].pcs| && Owns(run[i].pcs[j])
  {
    hide Run, Replay;
    RunKeeps(c, run, i);
    var l := Replay(c, run[0].data, run[i].events);
    if run[i].key != UNLOCKED { assert Owns(run[i].pcs[l.value.owner.value]); }
  }

  /** Both variants refine the atomic lock: the acquisitions, updates and releases so far are a
      run of it, ending with the same value and the same owner. */
  lemma {:induction false} Linearizable<D(!new), U(!new)>(c: Config<D, U>, run: seq<State<D, U>>, i: nat)
    requires Run(c, run) && i < |run|
    ensures
      var l := Replay(c, run[0].data, run[i].events);
      l.Some? && l.value.data == run[i].data &&
      forall t :: 0 <= t < |run[i].pcs| ==> (Owns(run[i].pcs[t]) <==> l.value.owner == Some(t))
  {
    hide Run, Replay;
    RunKeeps(c, run, i);
  }

  /** Releasing a held lock never finds it free or in an unknown state. */
  lemma {:induction false} NeverBug<D(!new), U(!new)>(c: Config<D, U>, run: seq<State<D, U>>, i: nat, t: nat)
    requires Run(c, run) && i < |run| && t < |run[i].pcs|
    ensures !run[i].pcs[t].Bug?
    ensures run[i].pcs[t].Unlocking? ==> run[i].key == LOCKED || run[i].key == SLEEPING
  {
    hide Run, Replay;
    RunKeeps(c, run, i);
    assert ThreadOk(c, run[i], run[i].pcs[t]);
    assert run[i].pcs[t].Unlocking? ==> Owns(run[i].pcs[t]);
  }

  /** A sleeping thread is never forgotten: the lock word says so, or an awake thread will see to
      it. */
  lemma {:induction false} NoLostWakeUp<D(!new), U(!new)>(c: Config<D, U>, run: seq<State<D, U>>, i: nat, t: nat)
    requires Run(c, run) && i < |run| && t < |run[i].pcs| && run[i].pcs[t].Asleep?
    ensures run[i].key == SLEEPING || exists j :: 0 <= j < |run[i].pcs| && Remembers(run[i].pcs[j])
  {
    hide Run, Replay, Refines;
    RunKeeps(c, run, i);
  }

  /** So no state has a free lock and only sleepers: whenever a thread is waiting or inside, some
      thread that is not asleep is at work. */
  lemma {:induction false} NeverAllAsleep<D(!new), U(!new)>(c: Config<D, U>, run: seq<State<D, U>>, i: nat, t: nat)
    requires Run(c, run) && i < |run| && t < |run[i].pcs| && !run[i].pcs[t].Idle?
    ensures exists j :: 0 <= j < |run[i].pcs| && !run[i].pcs[j].Idle? && !run[i].pcs[j].Asleep?
  {
    hide Run, Replay;
    if run[i].pcs[t].Asleep? {
      NoLostWakeUp(c, run, i, t);
      if run[i].key == SLEEPING {
        MutualExclusion(c, run, i, t, t);
        var j :| 0 <= j < |run[i].pcs| && Owns(run[i].pcs[j]);
        assert !run[i].pcs[j].Idle?;
      } else {
        var j :| 0 <= j < |run[i].pcs| && Remembers(run[i].pcs[j]);
        assert !run[i].pcs[j].Idle?;
      }
    }
  }

  // ---- What the atomic lock guarantees ----

  /** The updates among the events, in order. */
  function Updates<U>(es: seq<Event<U>>): seq<U> {
    if es == [] then []
    else Updates(es[..|es| - 1]) + if es[|es| - 1].Updated? then [es[|es| - 1].u] else []
  }

  function ApplyAll<D, U>(c: Config<D, U>, d: D, us: seq<U>): D {
    if us == [] then d else c.apply(ApplyAll(c, d, us[..|us| - 1]), us[|us| - 1])
  }

  /** No update is lost or applied twice. */
  lemma {:induction false} AppliedInOrder<D(!new), U(!new)>(c: Config<D, U>, init: D, es: seq<Event<U>>)
    requires Replay(c, init, es).Some?
    ensures Replay(c, init, es).value.data == ApplyAll(c, init, Updates(es))
  {
    if es != [] {
      var before, e := es[..|es| - 1], es[|es| - 1];
      AppliedInOrder(c, init, before);
      if e.Updated? {
        assert Updates(es) == Updates(before) + [e.u];
        assert Updates(es)[..|Updates(es)| - 1] == Updates(before);
      } else {
        assert Updates(es) == Updates(before);
      }
    }
  }

  /** No update or release falls into another thread's section: each comes after an acquisition
      by the same thread with nothing but its own updates between. */
  lemma {:induction false} OwnSections<D(!new), U(!new)>(c: Config<D, U>, init: D, es: seq<Event<U>>)
    requires Replay(c, init, es).Some?
    ensures Replay(c, init, es).value.owner.Some? ==> Opened(es, |es|, Replay(c, init, es).value.owner.value)
    ensures forall k :: 0 <= k < |es| && !es[k].Acquired? ==> Opened(es, k, es[k].t)
  {
    if es != [] {
      var before, e := es[..|es| - 1], es[|es| - 1];
      OwnSections(c, init, before);
      if !e.Acquired? { OpenedLonger(before, es, |before|, e.t); }
      if Replay(c, init, es).value.owner.Some? { OpenedOn(es, e); }
      hide Opened;
      forall k | 0 <= k < |es| && !es[k].Acquired? ensures Opened(es, k, es[k].t) {
        if k < |before| {
          assert before[k] == es[k];
          OpenedLonger(before, es, k, before[k].t);
        }
      }
    }
  }

  lemma {:induction false} OpenedOn<U>(es: seq<Event<U>>, e: Event<U>)
    requires es != [] && e == es[|es| - 1] && (e.Updated? ==> Opened(es, |es| - 1, e.t)) && !e.Released?
    ensures Opened(es, |es|, e.t)
  {
    if e.Acquired? {
      assert OpenedAt(es, |es| - 1, |es|, e.t);
    } else {
      var j :| OpenedAt(es, j, |es| - 1, e.t);
      assert OpenedAt(es, j, |es|, e.t);
    }
  }

  /** Just before position `k`, thread `t` is inside a section of its own. */
  ghost predicate Opened<U>(es: seq<Event<U>>, k: int, t: nat) {
    exists j :: OpenedAt(es, j, k, t)
  }

  /** Thread `t` acquires the lock at position `j` and only updates from there up to `k`. */
  ghost predicate OpenedAt<U>(es: seq<Event<U>>, j: int, k: int, t: nat) {
    0 <= j < k <= |es| && es[j] == Acquired(t) && forall i :: j < i < k ==> es[i].Updated? && es[i].t == t
  }

  lemma {:induction false} OpenedLonger<U>(es: seq<Event<U>>, es': seq<Event<U>>, k: int, t: nat)
    requires Opened(es, k, t) && es <= es'
    ensures Opened(es', k, t)
  {
    var j :| OpenedAt(es, j, k, t);
    assert OpenedAt(es', j, k, t);
  }

  /** So in every state of every run the protected value is the initial one with all updates so far
      applied once, in order, and each update and release fell into a section of its own thread. */
  lemma {:induction false} NothingLost<D(!new), U(!new)>(c: Config<D, U>, run: seq<State<D, U>>, i: nat)
    requires Run(c, run) && i < |run|
    ensures run[i].data == ApplyAll(c, run[0].data, Updates(run[i].events))
    ensures forall k :: 0 <= k < |run[i].events| && !run[i].events[k].Acquired? ==>
      Opened(run[i].events, k, run[i].events[k].t)
    ensures forall t :: 0 <= t < |run[i].pcs| && Owns(run[i].pcs[t]) ==> Opened(run[i].events, |run[i].events|, t)
  {
    hide Run, Replay, Opened, ApplyAll, Updates;
    Linearizable(c, run, i);
    AppliedInOrder(c, run[0].data, run[i].events);
    OwnSections(c, run[0].data, run[i].events);
  }

  // ---- Whoever waits can get in ----

  /** Thread `t` takes a step of its own; no thread wakes up by itself. */
  ghost predicate Moves<D(!new), U(!new)>(c: Config<D, U>, s: State<D, U>, s': State<D, U>, t: nat) {
    t < |s.pcs| && !s.pcs[t].Asleep? && (LockStep(c, s, s', t) || SectionStep(c, s, s', t) || UnlockStep(c, s, s', t))
  }

  /** The states of `more` follow one another from `s` on. */
  ghost predicate Goes<D(!new), U(!new)>(c: Config<D, U>, s: State<D, U>, more: seq<State<D, U>>)
    decreases |more|
  {
    more != [] ==> (exists t :: Moves(c, s, more[0], t)) && Goes(c, more[0], more[1..])
  }

  function Last<D, U>(s: State<D, U>, more: seq<State<D, U>>): State<D, U> {
    if more == [] then s else more[|more| - 1]
  }

  lemma {:induction false} GoesOn<D(!new), U(!new)>(
    c: Config<D, U>, s: State<D, U>, more: seq<State<D, U>>, further: seq<State<D, U>>)
    requires Goes(c, s, more) && Goes(c, Last(s, more), further)
    ensures Goes(c, s, more + further) && Last(s, more + further) == Last(Last(s, more), further)
    decreases |more|
  {
    hide Moves;
    if more == [] {
      assert more + further == further;
    } else {
      GoesOn(c, more[0], more[1..], further);
      assert (more + further)[1..] == more[1..] + further;
    }
  }

  lemma {:induction false} GoesStep<D(!new), U(!new)>(c: Config<D, U>, s: State<D, U>, s': State<D, U>, t: nat)
    requires Moves(c, s, s', t)
    ensures Goes(c, s, [s'])
  {
    hide Moves;
    assert [s'][1..] == [];
  }

  lemma {:induction false} GoesKeeps<D(!new), U(!new)>(c: Config<D, U>, init: D, s: State<D, U>, more: seq<State<D, U>>)
    requires Inv(c, init, s) && Goes(c, s, more)
    ensures Inv(c, init, Last(s, more)) && |Last(s, more).pcs| == |s.pcs|
    decreases |more|
  {
    hide Inv, LockStep, SectionStep, UnlockStep;
    if more != [] {
      assert Next(c, s, more[0]);
      NextKeeps(c, init, s, more[0]);
      GoesKeeps(c, init, more[0], more[1..]);
      assert Last(s, more) == Last(more[0], more[1..]);
    }
  }

  lemma {:induction false} GoesRun<D(!new), U(!new)>(c: Config<D, U>, run: seq<State<D, U>>, more: seq<State<D, U>>)
    requires Run(c, run) && Goes(c, run[|run| - 1], more)
    ensures Run(c, run + more)
    decreases |more|
  {
    hide LockStep, SectionStep, UnlockStep;
    if more == [] {
      assert run + more == run;
    } else {
      var longer := run + [more[0]];
      assert Next(c, run[|run| - 1], more[0]);
      forall i | 0 <= i < |longer| - 1 ensures Next(c, longer[i], longer[i + 1]) {
        if i < |run| - 1 { assert Next(c, run[i], run[i + 1]); }
      }
      GoesRun(c, longer, more[1..]);
      assert longer + more[1..] == run + more;
    }
  }

  /** Only thread `t` stands elsewhere. */
  predicate Others<D(==), U>(s: State<D, U>, s': State<D, U>, t: nat) {
    |s'.pcs| == |s.pcs| && forall j :: 0 <= j < |s.pcs| && j != t ==> s'.pcs[j] == s.pcs[j]
  }

  /** The owner finishes its section. */
  lemma {:induction false} Finish<D(!new), U(!new)>(c: Config<D, U>, s: State<D, U>, o: nat, u: U)
    returns (more: seq<State<D, U>>)
    requires o < |s.pcs| && Owns(s.pcs[o])
    ensures Goes(c, s, more)
    ensures Last(s, more).key == s.key && Others(s, Last(s, more), o) && Last(s, more).pcs[o].Unlocking?
  {
    hide Goes;
    GoesNone(c, s);
    more := [];
    if s.pcs[o].Loaded? {
      var next := Go(s, o, Holding).(data := c.apply(s.pcs[o].copy, u), events := s.events + [Updated(o, u)]);
      assert SectionStep(c, s, next, o);
      GoesStep(c, s, next, o);
      more := [next];
    }
    var now := Last(s, more);
    if now.pcs[o].Holding? {
      var next := Go(now, o, Unlocking);
      assert SectionStep(c, now, next, o);
      GoesStep(c, now, next, o);
      GoesOn(c, s, more, [next]);
      more := more + [next];
    }
  }

  /** The owner finishes its section and releases the lock; it then owes a wake-up exactly if the
      lock word says that somebody sleeps. */
  lemma {:induction false} Leave<D(!new), U(!new)>(c: Config<D, U>, init: D, s: State<D, U>, o: nat, u: U)
    returns (more: seq<State<D, U>>)
    requires Inv(c, init, s) && o < |s.pcs| && Owns(s.pcs[o])
    ensures Goes(c, s, more)
    ensures
      var e := Last(s, more);
      e.key == UNLOCKED && Others(s, e, o) && e.pcs[o] == if c.variant.Futex? && s.key == SLEEPING then Waking else Idle
  {
    assert s.key == LOCKED || s.key == SLEEPING by { hide Replay; }
    hide Inv, Goes;
    more := Finish(c, s, o, u);
    var now := Last(s, more);
    var after: Pc<D> := if c.variant.Futex? && s.key == SLEEPING then Waking else Idle;
    var next := Go(now, o, after).(key := UNLOCKED, events := now.events + [Released(o)]);
    assert UnlockStep(c, now, next, o);
    GoesStep(c, now, next, o);
    GoesOn(c, s, more, [next]);
    more := more + [next];
  }

  lemma GoesNone<D(!new), U(!new)>(c: Config<D, U>, s: State<D, U>)
    ensures Goes(c, s, [])
  {
  }

  predicate Contends<D>(pc: Pc<D>) {
    pc.Trying? || pc.Spinning? || pc.Attempting? || pc.Swapping? || pc.Parking?
  }

  /** An awake contender takes a free lock, and does not forget sleepers. */
  lemma {:induction false} Enter<D(!new), U(!new)>(c: Config<D, U>, s: State<D, U>, t: nat)
    returns (more: seq<State<D, U>>)
    requires s.key == UNLOCKED && t < |s.pcs| && Contends(s.pcs[t])
    ensures Goes(c, s, more)
    ensures
      var e := Last(s, more);
      Others(s, e, t) && e.pcs[t].Holding? && (Remembers(s.pcs[t]) ==> e.key == SLEEPING)
  {
    hide Goes;
    more := [];
    assert Goes(c, s, []) by { GoesNone(c, s); }
    var now := s;
    if now.pcs[t].Parking? {
      var next := Go(now, t, Spinning(0, SLEEPING));
      assert Moves(c, now, next, t);
      GoesStep(c, now, next, t);
      GoesOn(c, s, more, [next]);
      more, now := more + [next], next;
    }
    if now.pcs[t].Spinning? {
      var next := if now.pcs[t].round < PASSIVE_SPIN then Go(now, t, Attempting(now.pcs[t].round, now.pcs[t].wait))
        else Go(now, t, Swapping(now.pcs[t].wait));
      assert Moves(c, now, next, t);
      GoesStep(c, now, next, t);
      GoesOn(c, s, more, [next]);
      more, now := more + [next], next;
    }
    var key := if now.pcs[t].Trying? then LOCKED else if now.pcs[t].Attempting? then now.pcs[t].wait else SLEEPING;
    var next := Take(now, t, key);
    assert Moves(c, now, next, t);
    GoesStep(c, now, next, t);
    GoesOn(c, s, more, [next]);
    more := more + [next];
  }

  /** A thread that owes a wake-up wakes the sleeper `t`. */
  lemma {:induction false} Wake<D(!new), U(!new)>(c: Config<D, U>, s: State<D, U>, r: nat, t: nat)
    returns (more: seq<State<D, U>>)
    requires r < |s.pcs| && t < |s.pcs| && s.pcs[r].Waking? && s.pcs[t].Asleep?
    ensures Goes(c, s, more)
    ensures Last(s, more) == Go(Go(s, r, Idle), t, Spinning(0, SLEEPING))
  {
    hide Goes;
    var next := Go(Go(s, r, Idle), t, Spinning(0, SLEEPING));
    assert UnlockStep(c, s, next, r);
    GoesStep(c, s, next, r);
    more := [next];
  }

  /** Whoever is inside leaves. */
  lemma {:induction false} Clear<D(!new), U(!new)>(c: Config<D, U>, init: D, s: State<D, U>, u: U)
    returns (more: seq<State<D, U>>)
    requires Inv(c, init, s)
    ensures Goes(c, s, more)
    ensures
      var e := Last(s, more);
      e.key == UNLOCKED && |e.pcs| == |s.pcs| && forall j :: 0 <= j < |s.pcs| && !Owns(s.pcs[j]) ==>
        e.pcs[j] == s.pcs[j]
  {
    if s.key == UNLOCKED {
      more := [];
    } else {
      var o := Owner(c, init, s);
      hide Inv, Goes;
      more := Leave(c, init, s, o, u);
    }
  }

  lemma {:induction false} Owner<D(!new), U(!new)>(c: Config<D, U>, init: D, s: State<D, U>) returns (o: nat)
    requires Inv(c, init, s) && s.key != UNLOCKED
    ensures o < |s.pcs| && Owns(s.pcs[o])
  {
    hide Replay;
    o := Replay(c, init, s.events).value.owner.value;
  }

  /** A sleeper is woken by another thread. */
  lemma {:induction false} Rouse<D(!new), U(!new)>(c: Config<D, U>, init: D, s: State<D, U>, t: nat, u: U)
    returns (more: seq<State<D, U>>)
    requires Inv(c, init, s) && t < |s.pcs| && s.pcs[t].Asleep?
    ensures Goes(c, s, more) && |Last(s, more).pcs| == |s.pcs| && Contends(Last(s, more).pcs[t])
  {
    assert c.variant.Futex? by { hide Replay; assert ThreadOk(c, s, s.pcs[t]); }
    if s.key == SLEEPING {
      var o := Owner(c, init, s);
      hide Inv, Goes;
      var a := Leave(c, init, s, o, u);
      var b := Wake(c, Last(s, a), o, t);
      GoesOn(c, s, a, b);
      more := a + b;
    } else {
      var r :| 0 <= r < |s.pcs| && Remembers(s.pcs[r]);
      hide Inv, Goes;
      if s.pcs[r].Waking? {
        more := Wake(c, s, r, t);
      } else {
        more := RouseBy(c, init, s, r, t, u);
      }
    }
  }

  /** A contender that remembers gets in first, and wakes the sleeper when it leaves. */
  lemma {:induction false} RouseBy<D(!new), U(!new)>(c: Config<D, U>, init: D, s: State<D, U>, r: nat, t: nat, u: U)
    returns (more: seq<State<D, U>>)
    requires Inv(c, init, s) && c.variant.Futex? && t < |s.pcs| && s.pcs[t].Asleep?
    requires r < |s.pcs| && Remembers(s.pcs[r]) && Contends(s.pcs[r])
    ensures Goes(c, s, more) && |Last(s, more).pcs| == |s.pcs| && Contends(Last(s, more).pcs[t])
  {
    hide Inv, Goes;
    var a := Clear(c, init, s, u);
    GoesKeeps(c, init, s, a);
    var b := Enter(c, Last(s, a), r);
    GoesOn(c, s, a, b);
    GoesKeeps(c, init, s, a + b);
    var d := Leave(c, init, Last(s, a + b), r, u);
    GoesOn(c, s, a + b, d);
    var e := Wake(c, Last(s, a + b + d), r, t);
    GoesOn(c, s, a + b + d, e);
    more := a + b + d + e;
  }

  /** From every state of every run a thread that waits can still get in, and no thread has to wake
      up by itself for it. */
  lemma {:induction false} WaiterCanEnter<D(!new), U(!new)>(c: Config<D, U>, run: seq<State<D, U>>, t: nat, u: U)
    returns (more: seq<State<D, U>>)
    requires run != [] && Run(c, run) && t < |run[|run| - 1].pcs|
    requires Contends(run[|run| - 1].pcs[t]) || run[|run| - 1].pcs[t].Asleep?
    ensures Goes(c, run[|run| - 1], more) && Run(c, run + more)
    ensures |Last(run[|run| - 1], more).pcs| == |run[|run| - 1].pcs| && Last(run[|run| - 1], more).pcs[t].Holding?
  {
    hide Inv, Goes, Run;
    RunKeeps(c, run, |run| - 1);
    var s, init := run[|run| - 1], run[0].data;
    var a := [];
    if s.pcs[t].Asleep? { a := Rouse(c, init, s, t, u); } else { GoesNone(c, s); }
    GoesKeeps(c, init, s, a);
    var b := Clear(c, init, Last(s, a), u);
    GoesOn(c, s, a, b);
    var d := Enter(c, Last(s, a + b), t);
    GoesOn(c, s, a + b, d);
    more := a + b + d;
    GoesRun(c, run, more);
  }
}
