/** Null-terminated file paths and how they are joined. */
module Paths {
  import opened Bytes

  const NUL: Byte := 0
  const SLASH: Byte := 47

  /** A borrowed path: if there is a null byte, it is the last byte. */
  ghost predicate IsPath(p: seq<Byte>) {
    forall i :: 0 <= i < |p| - 1 ==> p[i] != NUL
  }

  /** An owned path: empty, or with exactly one null byte, at its end. */
  ghost predicate Terminated(p: seq<Byte>) {
    IsPath(p) && (p == [] || p[|p| - 1] == NUL)
  }

  function Strip(p: seq<Byte>): seq<Byte> {
    if p != [] && p[|p| - 1] == NUL then p[..|p| - 1] else p
  }

  predicate IsAbs(p: seq<Byte>) {
    p != [] && p[0] == SLASH
  }

  predicate NeedsSlash(p: seq<Byte>) {
    p != [] && p[|p| - 1] != SLASH
  }

  /** Joining text without terminators. */
  function Joined(a: seq<Byte>, b: seq<Byte>): seq<Byte> {
    if IsAbs(b) then b else if NeedsSlash(a) then a + [SLASH] + b else a + b
  }

  /** Joining a list of components, starting from `a`. */
  function JoinAll(a: seq<Byte>, ps: seq<seq<Byte>>): seq<Byte>
    decreases |ps|
  {
    if ps == [] then a else JoinAll(Joined(a, ps[0]), ps[1..])
  }

  /** A relative text goes behind a slash: the one that is there, or one put in if it is missing; an
      absolute text stands alone. */
  ghost predicate Behind(a: seq<Byte>, b: seq<Byte>, r: seq<Byte>) {
    if |b| > 0 && b[0] == 47 then r == b
    else if |a| == 0 then r == b
    else if a[|a| - 1] == 47 then r == a + b
    else r == a + [47] + b
  }

  lemma {:induction false} JoinedBehind(a: seq<Byte>, b: seq<Byte>)
    ensures Behind(a, b, Joined(a, b))
  {
    if a == [] { assert a + b == b; }
  }

  /** Between two texts, the second relative, stands exactly one slash of the join's own or of the
      first text. */
  lemma {:induction false} OneSlash(a: seq<Byte>, b: seq<Byte>)
    ensures a != [] && !IsAbs(b) ==>
      exists k :: 0 < k <= |Joined(a, b)| && Joined(a, b)[k - 1] == 47 && Joined(a, b)[k..] == b &&
        (Joined(a, b)[..k] == a || Joined(a, b)[..k - 1] == a)
  {
    if a != [] && !IsAbs(b) {
      var k := |Joined(a, b)| - |b|;
      assert Joined(a, b)[k..] == b && Joined(a, b)[k - 1] == 47;
      assert Joined(a, b)[..k] == a || Joined(a, b)[..k - 1] == a;
    }
  }

  lemma {:induction false} JoinAssociative(a: seq<Byte>, b: seq<Byte>, c: seq<Byte>)
    ensures Joined(Joined(a, b), c) == Joined(a, Joined(b, c))
  {
    if !IsAbs(c) {
      if IsAbs(b) {
        assert Joined(a, b) == b && IsAbs(Joined(b, c));
      } else if b == [] {
        assert a + [] == a && a + [SLASH] + [] == a + [SLASH] && [] + c == c;
      } else {
        RelativeAssociative(a, b, c);
      }
    }
  }

  function Slash(p: seq<Byte>): seq<Byte> {
    if NeedsSlash(p) then [SLASH] else []
  }

  lemma {:induction false} JoinedRelative(a: seq<Byte>, b: seq<Byte>)
    requires !IsAbs(b)
    ensures Joined(a, b) == a + (Slash(a) + b)
    ensures b != [] ==> Slash(Joined(a, b)) == Slash(b)
  {
  }

  lemma Regroup(a: seq<Byte>, x: seq<Byte>, b: seq<Byte>, y: seq<Byte>, c: seq<Byte>)
    ensures (a + (x + b)) + (y + c) == a + (x + (b + (y + c)))
  {
  }

  lemma {:induction false} RelativeAssociative(a: seq<Byte>, b: seq<Byte>, c: seq<Byte>)
    requires b != [] && !IsAbs(b) && !IsAbs(c)
    ensures Joined(Joined(a, b), c) == Joined(a, Joined(b, c))
  {
    JoinedRelative(a, b);
    JoinedRelative(b, c);
    assert !IsAbs(Joined(b, c));
    hide Joined, Slash;
    JoinedRelative(Joined(a, b), c);
    JoinedRelative(a, Joined(b, c));
    Regroup(a, Slash(a), b, Slash(b), c);
  }

  /** The last absolute component wins: everything before it is forgotten. */
  lemma {:induction false} LastAbsoluteWins(a: seq<Byte>, ps: seq<seq<Byte>>, i: nat)
    requires i < |ps| && IsAbs(ps[i])
    ensures JoinAll(a, ps) == JoinAll([], ps[i..])
    decreases i
  {
    if i == 0 {
      assert ps[0..] == ps;
    } else {
      LastAbsoluteWins(Joined(a, ps[0]), ps[1..], i - 1);
      assert ps[1..][i - 1..] == ps[i..];
    }
  }

  /** What a path given as raw bytes stands for: it ends at the first null byte, if any. */
  method TryNew(bytes: seq<Byte>) returns (p: seq<Byte>, found: bool)
    ensures IsPath(p) && p <= bytes && (found <==> NUL in bytes) && (found ==> Terminated(p) && p != [])
    ensures !found ==> p == bytes
  {
    for i := 0 to |bytes|
      invariant NUL !in bytes[..i]
    {
      if bytes[i] == NUL {
        assert NUL in bytes;
        assert forall k :: 0 <= k < i ==> bytes[k] == bytes[..i][k];
        return bytes[..i + 1], true;
      }
    }
    assert bytes[..|bytes|] == bytes;
    return bytes, false;
  }

  class PathBuf {
    var buf: seq<Byte>

    ghost predicate Valid()
      reads this
    {
      Terminated(buf)
    }

    constructor ()
      ensures Valid() && buf == []
    {
      buf := [];
    }

    method Push(path: seq<Byte>)
      requires Valid() && IsPath(path)
      modifies this
      ensures Valid() && buf != []
      ensures Strip(buf) == Joined(Strip(old(buf)), Strip(path))
      ensures Behind(Strip(old(buf)), Strip(path), Strip(buf))
    {
      hide Behind;
      JoinedBehind(Strip(buf), Strip(path));
      if |buf| > 0 { buf := buf[..|buf| - 1]; }
      ghost var a, b := buf, Strip(path);
      assert a == Strip(old(buf)) && NUL !in a;
      assert NUL !in b by { StripClean(path); }
      if IsAbs(path) {
        buf := path;
      } else {
        if NeedsSlash(buf) { buf := buf + [SLASH]; }
        buf := buf + path;
      }
      ghost var text := Joined(a, b);
      assert buf == text || buf == text + [NUL];
      if buf == [] || buf[|buf| - 1] != NUL { buf := buf + [NUL]; }
      assert NUL !in text;
      assert buf == text + [NUL];
    }

    method Extend(paths: seq<seq<Byte>>)
      requires Valid() && forall i :: 0 <= i < |paths| ==> IsPath(paths[i])
      modifies this
      ensures Valid() && (paths != [] ==> buf != [])
      ensures Strip(buf) == JoinAll(Strip(old(buf)), Stripped(paths))
    {
      ghost var texts := Stripped(paths);
      for i := 0 to |paths|
        invariant Valid() && (i > 0 ==> buf != [])
        invariant JoinAll(Strip(old(buf)), texts) == JoinAll(Strip(buf), texts[i..])
      {
        Push(paths[i]);
        assert texts[i..][0] == texts[i] && texts[i..][1..] == texts[i + 1..];
      }
    }
  }

  function Stripped(paths: seq<seq<Byte>>): seq<seq<Byte>> {
    seq(|paths|, i requires 0 <= i < |paths| => Strip(paths[i]))
  }

  lemma StripClean(p: seq<Byte>)
    requires IsPath(p)
    ensures NUL !in Strip(p)
  {
  }

  method Join(a: seq<Byte>, b: seq<Byte>) returns (p: seq<Byte>)
    requires IsPath(a) && IsPath(b)
    ensures Terminated(p) && p != [] && Strip(p) == Joined(Strip(a), Strip(b)) && Behind(Strip(a), Strip(b), Strip(p))
  {
    hide Behind;
    JoinedBehind(Strip(a), Strip(b));
    var buf := new PathBuf();
    buf.Extend([a, b]);
    assert Stripped([a, b]) == [Strip(a), Strip(b)];
    JoinTwo(Strip(a), Strip(b));
    p := buf.buf;
  }

  lemma JoinTwo(a: seq<Byte>, b: seq<Byte>)
    ensures JoinAll([], [a, b]) == Joined(a, b)
  {
    assert Joined([], a) == a;
    assert [a, b][1..] == [b] && [b][1..] == [];
    assert JoinAll(a, [b]) == JoinAll(Joined(a, b), []);
  }

  /** So joining paths, as the bytes that come out, is associative whatever terminators go in. */
  lemma {:induction false} JoinedBytesAgree(
    a: seq<Byte>, b: seq<Byte>, c: seq<Byte>, ab: seq<Byte>, bc: seq<Byte>, left: seq<Byte>, right: seq<Byte>)
    requires Strip(ab) == Joined(Strip(a), Strip(b)) && Strip(bc) == Joined(Strip(b), Strip(c))
    requires Terminated(left) && left != [] && Strip(left) == Joined(Strip(ab), Strip(c))
    requires Terminated(right) && right != [] && Strip(right) == Joined(Strip(a), Strip(bc))
    ensures left == right
  {
    JoinAssociative(Strip(a), Strip(b), Strip(c));
    hide Joined;
    assert left == Strip(left) + [NUL] && right == Strip(right) + [NUL];
  }
}
