/** Writers into caller-supplied memory that report how much they would have needed. */
module Writers {
  import opened Bytes

  function Min(a: nat, b: nat): nat { if a < b then a else b }

  function Concat(chunks: seq<seq<Byte>>): seq<Byte> {
    if chunks == [] then [] else Concat(chunks[..|chunks| - 1]) + chunks[|chunks| - 1]
  }

  /** A buffer of `limit` usable bytes into which text is written piece by piece. Sizes saturate
      at `max`. */
  class Buffer {
    const max: nat
    const dst: array<Byte>
    const limit: nat
    var nw: nat

    /** The text written so far, whether or not it fitted. */
    ghost var text: seq<Byte>

    /** What fits is there, and the size of the whole is known. */
    ghost predicate Valid()
      reads this, dst
    {
      limit <= dst.Length < max && nw == Min(|text|, max) && (|text| <= limit ==> dst[..|text|] == text)
    }

    constructor (dst: array<Byte>, limit: nat, max: nat)
      requires limit <= dst.Length < max
      ensures Valid() && this.dst == dst && this.limit == limit && this.max == max && text == []
    {
      this.dst := dst;
      this.limit := limit;
      this.max := max;
      nw := 0;
      text := [];
    }

    /** Writes a piece if all of it fits behind what came before; counts it in any case. */
    method Write(data: seq<Byte>)
      requires Valid()
      modifies this`nw, this`text, dst
      ensures Valid() && text == old(text) + data
      ensures dst[limit..] == old(dst[limit..])
    {
      var start := nw;
      nw := Min(start + |data|, max);
      if nw <= limit {
        for i := 0 to |data|
          modifies dst
          invariant forall k :: 0 <= k < start ==> dst[k] == old(dst[k])
          invariant forall k :: 0 <= k < i ==> dst[start + k] == data[k]
          invariant forall k :: start + |data| <= k < dst.Length ==> dst[k] == old(dst[k])
        {
          dst[start + i] := data[i];
        }
        assert dst[..start] == old(dst[..start]) && dst[start..start + |data|] == data;
        assert dst[..start + |data|] == dst[..start] + dst[start..start + |data|];
      }
      text := text + data;
    }
  }

  /** What a caller sees: the size reported, whether it fitted, and the bytes if it did. */
  datatype Report = Fitted(size: nat, bytes: seq<Byte>) | TooSmall(size: nat)

  /** Copies all chunks out through a buffer over the whole of `dst`. */
  method CopyTo(dst: array<Byte>, chunks: seq<seq<Byte>>, max: nat) returns (r: Report)
    requires dst.Length < max
    modifies dst
    ensures r == Copied(Concat(chunks), dst.Length, max)
    ensures
      var text := Concat(chunks);
      if |text| <= dst.Length then r == Fitted(|text|, text)
      else r == TooSmall(if |text| < max then |text| else max)
    ensures r.Fitted? ==> dst[..r.size] == r.bytes
  {
    var buf := new Buffer(dst, dst.Length, max);
    WriteChunks(buf, chunks);
    if buf.nw > dst.Length { return TooSmall(buf.nw); }
    return Fitted(buf.nw, dst[..buf.nw]);
  }

  method WriteChunks(buf: Buffer, chunks: seq<seq<Byte>>)
    requires buf.Valid() && buf.text == []
    modifies buf`nw, buf`text, buf.dst
    ensures buf.Valid() && buf.text == Concat(chunks)
    ensures buf.dst[buf.limit..] == old(buf.dst[buf.limit..])
  {
    for i := 0 to |chunks|
      invariant buf.Valid() && buf.text == Concat(chunks[..i])
      invariant buf.dst[buf.limit..] == old(buf.dst[buf.limit..])
    {
      buf.Write(chunks[i]);
      assert chunks[..i + 1][..i] == chunks[..i];
    }
    assert chunks[..|chunks|] == chunks;
  }

  /** The report depends on the text alone, not on how it was cut. */
  function Copied(text: seq<Byte>, capacity: nat, max: nat): Report {
    if |text| <= capacity then Fitted(|text|, text) else TooSmall(Min(|text|, max))
  }

  /** Writes a null-terminated string; the last byte of `dst` is kept for the terminator. */
  method WriteCStr(dst: array<Byte>, chunks: seq<seq<Byte>>, max: nat) returns (r: Report)
    requires dst.Length < max
    modifies dst
    ensures r == CStr(Concat(chunks), dst.Length, max)
    ensures
      var text := Concat(chunks);
      if |text| < dst.Length then r == Fitted(|text| + 1, text + [0])
      else r == TooSmall(if |text| + 1 < max then |text| + 1 else max)
    ensures r.Fitted? ==> dst[..r.size] == r.bytes
  {
    var limit := if dst.Length == 0 then 0 else dst.Length - 1;
    var buf := new Buffer(dst, limit, max);
    WriteChunks(buf, chunks);
    ghost var text := Concat(chunks);
    var idx := Min(buf.nw, dst.Length);
    if idx < dst.Length { dst[idx] := 0; }
    var size := Min(buf.nw + 1, max);
    if size <= dst.Length {
      assert dst[..size] == dst[..idx] + [0];
      return Fitted(size, dst[..size]);
    }
    return TooSmall(size);
  }

  function CStr(text: seq<Byte>, capacity: nat, max: nat): Report {
    if |text| + 1 <= capacity then Fitted(|text| + 1, text + [0]) else TooSmall(Min(|text| + 1, max))
  }

  /** Size negotiation: below saturation, retrying with the size reported succeeds and reports
      the same size. */
  lemma {:induction false} RetryFits(text: seq<Byte>, capacity: nat, max: nat)
    requires |text| + 1 < max
    ensures
      var size := Copied(text, capacity, max).size;
      Copied(text, size, max) == Fitted(size, text)
    ensures
      var size := CStr(text, capacity, max).size;
      size == |text| + 1 && CStr(text, size, max) == Fitted(size, text + [0])
  {
    assert Min(|text|, max) == |text| && Min(|text| + 1, max) == |text| + 1;
  }
}
