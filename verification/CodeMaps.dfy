/** The map from instruction addresses to source locators. */
module CodeMaps {
  import opened Values

  datatype Mapped = Mapped(address: nat, locator: nat)

  ghost predicate Increasing(m: seq<Mapped>) {
    forall i, j :: 0 <= i < j < |m| ==> m[i].address < m[j].address
  }

  /** Reference lookup: the last entry, in order of insertion, at or below `ip`. */
  function LastAt(m: seq<Mapped>, ip: nat): Option<nat> {
    if m == [] then None
    else if m[|m| - 1].address <= ip then Some(m[|m| - 1].locator)
    else LastAt(m[..|m| - 1], ip)
  }

  /** `r` is the locator of the last insertion at or below `ip`, if there is one. */
  ghost predicate Answers(m: seq<Mapped>, ip: nat, r: Option<nat>) {
    match r
    case None => forall i :: 0 <= i < |m| ==> ip < m[i].address
    case Some(l) =>
      exists i :: 0 <= i < |m| && m[i] == Mapped(m[i].address, l) && m[i].address <= ip &&
        forall j :: i < j < |m| ==> ip < m[j].address
  }

  lemma {:induction false} AnswersLast(m: seq<Mapped>, ip: nat)
    ensures Answers(m, ip, LastAt(m, ip))
  {
    if m != [] {
      var init, k := m[..|m| - 1], |m| - 1;
      if m[k].address <= ip {
        assert m[k] == Mapped(m[k].address, LastAt(m, ip).value);
      } else {
        AnswersLast(init, ip);
        if LastAt(m, ip).Some? {
          var i :| 0 <= i < |init| && init[i] == Mapped(init[i].address, LastAt(m, ip).value) &&
            init[i].address <= ip &&
                   forall j :: i < j < |init| ==> ip < init[j].address;
          assert m[i] == init[i] && forall j :: i < j < k ==> m[j] == init[j];
        }
      }
    }
  }

  /** The table after inserting at a position not below the last one. */
  function Insert(m: seq<Mapped>, e: Mapped): seq<Mapped> {
    if m != [] && m[|m| - 1].address == e.address then m[..|m| - 1] + [e] else m + [e]
  }

  /** The table after a history of accepted insertions. */
  function Replay(log: seq<Mapped>): seq<Mapped> {
    if log == [] then [] else Insert(Replay(log[..|log| - 1]), log[|log| - 1])
  }

  /** Accepted insertions never go backwards. */
  ghost predicate Accepted(log: seq<Mapped>) {
    forall i, j :: 0 <= i <= j < |log| ==> log[i].address <= log[j].address
  }

  lemma {:induction false} InsertIncreasing(m: seq<Mapped>, e: Mapped)
    requires Increasing(m) && (m != [] ==> m[|m| - 1].address <= e.address)
    ensures Increasing(Insert(m, e)) && Insert(m, e) != [] && Insert(m, e)[|Insert(m, e)| - 1] == e
  {
    if m != [] && m[|m| - 1].address == e.address {
      var init := m[..|m| - 1];
      forall i, j | 0 <= i < j < |init + [e]| ensures (init + [e])[i].address < (init + [e])[j].address {
        assert m[i].address < m[j].address;
      }
    } else {
      forall i, j | 0 <= i < j < |m + [e]| ensures (m + [e])[i].address < (m + [e])[j].address {
        if j == |m| { assert i < |m| - 1 ==> m[i].address < m[|m| - 1].address; }
      }
    }
  }

  lemma {:induction false} ReplayIncreasing(log: seq<Mapped>)
    requires Accepted(log)
    ensures Increasing(Replay(log))
    ensures log == [] <==> Replay(log) == []
    ensures log != [] ==> Replay(log)[|Replay(log)| - 1] == log[|log| - 1]
  {
    if log != [] {
      var before, e := log[..|log| - 1], log[|log| - 1];
      assert Accepted(before);
      assert before != [] ==> before[|before| - 1].address <= e.address;
      hide Accepted, Increasing, Insert;
      ReplayIncreasing(before);
      InsertIncreasing(Replay(before), e);
    }
  }

  lemma {:induction false} AcceptOne(log: seq<Mapped>, e: Mapped)
    requires Accepted(log) && (log != [] ==> log[|log| - 1].address <= e.address)
    ensures Accepted(log + [e]) && Replay(log + [e]) == Insert(Replay(log), e)
  {
    assert (log + [e])[..|log + [e]| - 1] == log;
  }

  /** Replacing an entry at the same address loses nothing a lookup could see: the compact
      table answers like the whole history of insertions. */
  lemma {:induction false} LookupIsHistory(log: seq<Mapped>, ip: nat)
    requires Accepted(log)
    ensures LastAt(Replay(log), ip) == LastAt(log, ip)
  {
    if log != [] {
      var before, e := log[..|log| - 1], log[|log| - 1];
      var m := Replay(before);
      ReplayIncreasing(before);
      LookupIsHistory(before, ip);
      assert Insert(m, e)[..|Insert(m, e)| - 1] == if m != [] && m[|m| - 1].address == e.address then m[..|m| - 1]
        else m;
    }
  }

  lemma {:induction false} LastAtIndex(m: seq<Mapped>, ip: nat, i: int)
    requires Increasing(m) && -1 <= i < |m|
    requires i >= 0 ==> m[i].address <= ip
    requires i + 1 < |m| ==> ip < m[i + 1].address
    ensures LastAt(m, ip) == if i < 0 then None else Some(m[i].locator)
    decreases |m|
  {
    if i < |m| - 1 { LastAtIndex(m[..|m| - 1], ip, i); }
  }

  class CodeMap {
    var mapping: seq<Mapped>
    ghost var log: seq<Mapped>

    /** The mapping is the compacted form of every insertion accepted so far. */
    ghost predicate Valid()
      reads this
    {
      Accepted(log) && mapping == Replay(log)
    }

    /** Insertions at or above this address are accepted. */
    ghost function Limit(): nat
      reads this
    {
      if log == [] then 0 else log[|log| - 1].address
    }

    constructor ()
      ensures Valid() && log == []
    {
      mapping := [];
      log := [];
    }

    method MapInstructionRange(instruction: nat, locator: nat) returns (ok: bool)
      requires Valid()
      modifies this
      ensures Valid()
      ensures ok <==> old(Limit()) <= instruction
      ensures log == if ok then old(log) + [Mapped(instruction, locator)] else old(log)
    {
      hide Accepted, Increasing, Replay;
      ReplayIncreasing(log);
      if |mapping| > 0 {
        var last := mapping[|mapping| - 1];
        if instruction == last.address {
          mapping := mapping[..|mapping| - 1];
        } else if instruction <= last.address {
          return false;
        }
      }
      mapping := mapping + [Mapped(instruction, locator)];
      AcceptOne(log, Mapped(instruction, locator));
      log := log + [Mapped(instruction, locator)];
      return true;
    }

    /** Binary search by address: the position of an entry at `ip`, or where one would go. */
    method Search(ip: nat) returns (found: bool, at: nat)
      requires Valid()
      ensures at <= |mapping|
      ensures forall i :: 0 <= i < at ==> mapping[i].address < ip
      ensures found ==>
        at < |mapping| && mapping[at].address == ip && (at + 1 < |mapping| ==> ip < mapping[at + 1].address)
      ensures !found ==> forall i :: at <= i < |mapping| ==> ip < mapping[i].address
    {
      ReplayIncreasing(log);
      var low, high := 0, |mapping|;
      while low < high
        invariant 0 <= low <= high <= |mapping|
        invariant forall i :: 0 <= i < low ==> mapping[i].address < ip
        invariant forall i :: high <= i < |mapping| ==> ip < mapping[i].address
      {
        var mid := (low + high) / 2;
        if mapping[mid].address == ip {
          return true, mid;
        } else if mapping[mid].address < ip {
          low := mid + 1;
        } else {
          high := mid;
        }
      }
      return false, low;
    }

    /** Looking up an address finds the locator of the last insertion at or below it, or fails
        when there is none. */
    method LocatorFromInstruction(ip: nat) returns (r: Option<nat>)
      requires Valid()
      ensures r == LastAt(log, ip) && Answers(log, ip, r)
    {
      AnswersLast(log, ip);
      hide Accepted, Increasing, Replay, LastAt, Answers;
      LookupIsHistory(log, ip);
      ReplayIncreasing(log);
      var found, at := Search(ip);
      if found {
        LastAtIndex(mapping, ip, at);
        return Some(mapping[at].locator);
      }
      LastAtIndex(mapping, ip, at as int - 1);
      if at == 0 { return None; }
      return Some(mapping[at - 1].locator);
    }
  }
}
