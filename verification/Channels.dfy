/** Fast channels: messages laid out as ciphertext, tag and header, sealed and opened either from
    one buffer into another or in place, over any authenticated encryption whose open inverts its
    seal. */
module Channels {
  import opened Values
  import opened Bytes

  // ---- Little-endian integers and the data header ----

  function Power(k: nat): nat { if k == 0 then 1 else 256 * Power(k - 1) }

  function Le(n: nat, k: nat): (bs: seq<Byte>)
    ensures |bs| == k
  {
    if k == 0 then [] else [n % 256] + Le(n / 256, k - 1)
  }

  function FromLe(bs: seq<Byte>): nat {
    if bs == [] then 0 else bs[0] + 256 * FromLe(bs[1..])
  }

  lemma {:induction false} LeRoundTrip(n: nat, k: nat)
    requires n < Power(k)
    ensures FromLe(Le(n, k)) == n
  {
    if k > 0 {
      LeRoundTrip(n / 256, k - 1);
      assert Le(n, k)[1..] == Le(n / 256, k - 1);
    }
  }

  lemma Digits(b: Byte, rest: nat)
    ensures (b + 256 * rest) % 256 == b && (b + 256 * rest) / 256 == rest
  {
  }

  lemma PowerNext(k: nat)
    requires k > 0
    ensures Power(k) == 256 * Power(k - 1)
  {
  }

  lemma {:induction false} FromLeRoundTrip(bs: seq<Byte>)
    ensures FromLe(bs) < Power(|bs|) && Le(FromLe(bs), |bs|) == bs
  {
    if bs != [] {
      FromLeRoundTrip(bs[1..]);
      hide Power;
      Digits(bs[0], FromLe(bs[1..]));
      PowerNext(|bs|);
    }
  }

  const LABEL_SIZE := 4
  const SEQ_SIZE := 8
  const HEADER_SIZE := 12

  datatype DataHeader = DataHeader(lbl: nat, seqno: nat)

  ghost predicate Fits(h: DataHeader) { h.lbl < Power(LABEL_SIZE) && h.seqno < Power(SEQ_SIZE) }

  function Encode(h: DataHeader): (bs: seq<Byte>)
    ensures |bs| == HEADER_SIZE
  {
    Le(h.lbl, LABEL_SIZE) + Le(h.seqno, SEQ_SIZE)
  }

  function Parse(bs: seq<Byte>): DataHeader
    requires |bs| == HEADER_SIZE
  {
    DataHeader(FromLe(bs[..LABEL_SIZE]), FromLe(bs[LABEL_SIZE..]))
  }

  lemma {:induction false} HeaderRoundTrip(h: DataHeader)
    requires Fits(h)
    ensures Parse(Encode(h)) == h
  {
    LeRoundTrip(h.lbl, LABEL_SIZE);
    LeRoundTrip(h.seqno, SEQ_SIZE);
    assert Encode(h)[..LABEL_SIZE] == Le(h.lbl, LABEL_SIZE) && Encode(h)[LABEL_SIZE..] == Le(h.seqno, SEQ_SIZE);
  }

  lemma {:induction false} ParseRoundTrip(bs: seq<Byte>)
    requires |bs| == HEADER_SIZE
    ensures Fits(Parse(bs)) && Encode(Parse(bs)) == bs
  {
    FromLeRoundTrip(bs[..LABEL_SIZE]);
    FromLeRoundTrip(bs[LABEL_SIZE..]);
    assert bs[..LABEL_SIZE] + bs[LABEL_SIZE..] == bs;
  }

  // ---- Authenticated encryption ----

  const VERSION := 0x6f54

  datatype AuthData = AuthData(version: nat, lbl: nat)

  datatype Sealed = Sealed(ciphertext: seq<Byte>, tag: seq<Byte>)

  datatype Error =
    | InputTooLarge | BufferTooSmall | NotFound | KeyExpired | Authentication | InvalidSize | Allocation
    | Crypto(code: nat)

  /** What a key makes of its input. */
  datatype Keyed<T> = Yields(value: T) | Declines(error: Error)

  /** The cipher: sealing and opening may both be declined. */
  datatype Aead<!K> = Aead(
    tagSize: nat,
    seal: (K, AuthData, nat, seq<Byte>) -> Keyed<Sealed>,
    open: (K, AuthData, nat, Sealed) -> Keyed<seq<Byte>>)

  /** One more than the largest length. */
  const USIZE := 0x1_0000_0000_0000_0000

  /** What is sealed keeps its length, comes with a whole tag and opens again. */
  ghost predicate Lawful<K(!new)>(a: Aead<K>) {
    a.tagSize + HEADER_SIZE < USIZE &&
    (forall k, ad, n, p :: a.seal(k, ad, n, p).Yields? ==>
      var s := a.seal(k, ad, n, p).value;
      |s.ciphertext| == |p| && |s.tag| == a.tagSize && a.open(k, ad, n, s) == Yields(p)) &&
    (forall k, ad, n, s :: a.open(k, ad, n, s).Yields? ==> |a.open(k, ad, n, s).value| == |s.ciphertext|)
  }

  /** How a call ends: the source returns a result, or the thread panics. */
  datatype Outcome<T> = Done(value: T) | Failed(error: Error) | Panicked

  // ---- What goes over the wire ----

  /** ciphertext || tag || header */
  function Message(s: Sealed, lbl: nat, seqno: nat): seq<Byte> {
    s.ciphertext + s.tag + Encode(DataHeader(lbl, seqno))
  }

  /** What is sent, octet by octet: ciphertext and tag under the version and the label, four octets
      of label and eight of sequence number, least significant first. */
  predicate OnWire<K(!new)>(a: Aead<K>, key: K, lbl: nat, seqno: nat, plaintext: seq<Byte>, bs: seq<Byte>) {
    var s := a.seal(key, AuthData(0x6f54, lbl), seqno, plaintext);
    var n := |plaintext|;
    s.Yields? && |bs| == n + a.tagSize + 12 && bs[..n] == s.value.ciphertext && bs[n..n + a.tagSize] == s.value.tag &&
    HeaderOctets(lbl, seqno, bs[n + a.tagSize..])
  }

  predicate HeaderOctets(lbl: nat, seqno: nat, h: seq<Byte>) {
    |h| == 12 &&
    h[0] == lbl % 256 && h[1] == lbl / 0x100 % 256 && h[2] == lbl / 0x1_0000 % 256 && h[3] == lbl / 0x100_0000 % 256 &&
    h[4] == seqno % 256 && h[5] == seqno / 0x100 % 256 && h[6] == seqno / 0x1_0000 % 256 &&
    h[7] == seqno / 0x100_0000 % 256 && h[8] == seqno / 0x1_0000_0000 % 256 &&
    h[9] == seqno / 0x100_0000_0000 % 256 && h[10] == seqno / 0x1_0000_0000_0000 % 256 &&
    h[11] == seqno / 0x100_0000_0000_0000 % 256
  }

  lemma LeStep(n: nat, k: nat)
    ensures Le(n, k + 1) == [n % 256] + Le(n / 256, k) && Le(n, 0) == []
  {
  }

  lemma {:induction false} LeFour(n: nat, k: nat)
    ensures
      var n1 := n / 256;
      var n2 := n1 / 256;
      var n3 := n2 / 256;
      Le(n, k + 4) == [n % 256, n1 % 256, n2 % 256, n3 % 256] + Le(n3 / 256, k)
  {
    hide Le;
    var n1 := n / 256;
    var n2 := n1 / 256;
    var n3 := n2 / 256;
    LeStep(n, k + 3);
    LeStep(n1, k + 2);
    LeStep(n2, k + 1);
    LeStep(n3, k);
  }

  lemma Divided(n: nat)
    ensures n / 256 / 256 == n / 0x1_0000 && n / 256 / 256 / 256 == n / 0x100_0000
    ensures n / 256 / 256 / 256 / 256 == n / 0x1_0000_0000
  {
  }

  lemma DividedHigh(n: nat)
    ensures
      var m := n / 0x1_0000_0000;
      m / 0x100 == n / 0x100_0000_0000 && m / 0x1_0000 == n / 0x1_0000_0000_0000 &&
      m / 0x100_0000 == n / 0x100_0000_0000_0000
  {
  }

  lemma {:induction false} EncodeOctets(lbl: nat, seqno: nat)
    ensures HeaderOctets(lbl, seqno, Encode(DataHeader(lbl, seqno)))
  {
    hide Le;
    var high := seqno / 0x1_0000_0000;
    LeFour(lbl, 0);
    LeFour(seqno, 4);
    LeFour(high, 0);
    LeStep(lbl / 256 / 256 / 256 / 256, 0);
    LeStep(high / 256 / 256 / 256 / 256, 0);
    Divided(lbl);
    Divided(seqno);
    Divided(high);
    DividedHigh(seqno);
  }

  lemma {:induction false} MessageOnWire<K(!new)>(a: Aead<K>, key: K, lbl: nat, seqno: nat, plaintext: seq<Byte>)
    requires Lawful(a) && a.seal(key, AuthData(VERSION, lbl), seqno, plaintext).Yields?
    ensures
      var s := a.seal(key, AuthData(VERSION, lbl), seqno, plaintext).value;
      OnWire(a, key, lbl, seqno, plaintext, Message(s, lbl, seqno))
  {
    hide HeaderOctets;
    EncodeOctets(lbl, seqno);
    var s := a.seal(key, AuthData(VERSION, lbl), seqno, plaintext).value;
    var h := Encode(DataHeader(lbl, seqno));
    assert |s.ciphertext| == |plaintext| && |s.tag| == a.tagSize;
    assert Message(s, lbl, seqno)[|plaintext| + a.tagSize..] == h;
  }

  datatype Opened = Opened(lbl: nat, seqno: nat, plaintext: seq<Byte>)

  /** What a message means to a receiver who has a key for each label. */
  function Read<K>(a: Aead<K>, keys: map<nat, K>, msg: seq<Byte>): Outcome<Opened> {
    if |msg| < HEADER_SIZE then Failed(InvalidSize)
    else
      var rest, h := msg[..|msg| - HEADER_SIZE], Parse(msg[|msg| - HEADER_SIZE..]);
      if |rest| < a.tagSize then Failed(Authentication)
      else if h.lbl !in keys then Failed(NotFound)
      else
        var n := |rest| - a.tagSize;
        match a.open(keys[h.lbl], AuthData(VERSION, h.lbl), h.seqno, Sealed(rest[..n], rest[n..]))
        case Declines(e) => Failed(e)
        case Yields(p) => Done(Opened(h.lbl, h.seqno, p))
  }

  /** Reading a sealed message gives back the plaintext, label and sequence number. */
  lemma {:induction false} RoundTrip<K(!new)>(a: Aead<K>, keys: map<nat, K>, lbl: nat, seqno: nat, plaintext: seq<Byte>)
    requires Lawful(a) && lbl in keys && Fits(DataHeader(lbl, seqno))
    requires a.seal(keys[lbl], AuthData(VERSION, lbl), seqno, plaintext).Yields?
    ensures
      var msg := Message(a.seal(keys[lbl], AuthData(VERSION, lbl), seqno, plaintext).value, lbl, seqno);
      |msg| == |plaintext| + a.tagSize + HEADER_SIZE && Read(a, keys, msg) == Done(Opened(lbl, seqno, plaintext))
  {
    var s := a.seal(keys[lbl], AuthData(VERSION, lbl), seqno, plaintext).value;
    var msg, h := Message(s, lbl, seqno), Encode(DataHeader(lbl, seqno));
    HeaderRoundTrip(DataHeader(lbl, seqno));
    assert |s.ciphertext| == |plaintext| && |s.tag| == a.tagSize;
    var rest := msg[..|msg| - HEADER_SIZE];
    assert rest == s.ciphertext + s.tag && msg[|msg| - HEADER_SIZE..] == h;
    var n := |rest| - a.tagSize;
    assert rest[..n] == s.ciphertext && rest[n..] == s.tag;
  }

  // ---- A buffer with fixed capacity ----

  function Filled(n: nat, v: Byte): seq<Byte> { seq(n, _ => v) }

  /** A vector that holds at most `capacity` bytes. */
  function Resized(v: seq<Byte>, n: nat, fill: Byte): seq<Byte> {
    if n <= |v| then v[..n] else v + Filled(n - |v|, fill)
  }

  class FixedBuf {
    const data: array<Byte>
    var len: nat

    ghost predicate Valid()
      reads this
    {
      len <= data.Length
    }

    function Contents(): seq<Byte>
      requires Valid()
      reads this, data
    {
      data[..len]
    }

    constructor (data: array<Byte>, len: nat)
      requires len <= data.Length
      ensures Valid() && this.data == data && this.len == len
    {
      this.data := data;
      this.len := len;
    }

    method Truncate(n: nat)
      requires Valid()
      modifies this`len
      ensures Valid()
      ensures Contents() == if n < old(len) then old(Contents())[..n] else old(Contents())
    {
      if n < len { len := n; }
    }

    method TryReserveExact(additional: nat) returns (ok: bool)
      requires Valid()
      ensures ok <==> len + additional <= data.Length
    {
      return data.Length - len >= additional;
    }

    /** Fails exactly when the capacity would be exceeded, and then changes nothing. */
    method TryResize(n: nat, fill: Byte) returns (ok: bool)
      requires Valid()
      modifies this`len, data
      ensures Valid() && (ok <==> n <= data.Length)
      ensures Contents() == if ok then Resized(old(Contents()), n, fill) else old(Contents())
    {
      if n > len {
        ok := TryReserveExact(n - len);
        if !ok { return; }
        var i := len;
        while i < n
          modifies data
          invariant len <= i <= n
          invariant forall k :: 0 <= k < len ==> data[k] == old(data[k])
          invariant forall k :: len <= k < i ==> data[k] == fill
        {
          data[i] := fill;
          i := i + 1;
        }
        len := n;
      } else {
        Truncate(n);
        ok := true;
      }
    }
  }

  // ---- Writing into slices ----

  predicate Zero(bs: seq<Byte>) { forall i :: 0 <= i < |bs| ==> bs[i] == 0 }

  method Fill(dst: array<Byte>, n: nat)
    requires n <= dst.Length
    modifies dst
    ensures Zero(dst[..n]) && dst[n..] == old(dst[n..])
  {
    for i := 0 to n
      invariant forall k :: 0 <= k < i ==> dst[k] == 0
      invariant forall k :: i <= k < dst.Length ==> dst[k] == old(dst[k])
    {
      dst[i] := 0;
    }
  }

  /** Writes the slice of `dst` that starts at `from`. */
  method Write(dst: array<Byte>, from: nat, bytes: seq<Byte>)
    requires from + |bytes| <= dst.Length
    modifies dst
    ensures dst[from..from + |bytes|] == bytes
    ensures dst[..from] == old(dst[..from]) && dst[from + |bytes|..] == old(dst[from + |bytes|..])
  {
    for i := 0 to |bytes|
      invariant forall k :: 0 <= k < i ==> dst[from + k] == bytes[k]
      invariant forall k :: 0 <= k < dst.Length && !(from <= k < from + i) ==> dst[k] == old(dst[k])
    {
      dst[from + i] := bytes[i];
    }
  }

  /** A cipher that declines may leave anything in its output. */
  method Spoil(dst: array<Byte>, n: nat)
    requires n <= dst.Length
    modifies dst
    ensures dst[n..] == old(dst[n..])
  {
    for i := 0 to n
      invariant forall k :: n <= k < dst.Length ==> dst[k] == old(dst[k])
    {
      dst[i] := *;
    }
  }

  // ---- The client ----

  datatype ChannelId = ChannelId(node: nat, lbl: nat)

  /** The keys of a channel, which may be missing in one direction, and the next sequence number to
      seal with. */
  datatype Channel<K> = Channel(sealKey: Option<K>, openKey: Option<K>, next: nat)

  /** Where the input of a cipher stands: elsewhere, or where the output goes. */
  datatype Input = Given(bytes: seq<Byte>) | InPlace

  /** `checks` says whether the build panics on arithmetic overflow. */
  class Client<!K(!new)> {
    const aead: Aead<K>
    const checks: bool
    var channels: map<ChannelId, Channel<K>>

    constructor (aead: Aead<K>, checks: bool, channels: map<ChannelId, Channel<K>>)
      ensures this.aead == aead && this.checks == checks && this.channels == channels
    {
      this.aead := aead;
      this.checks := checks;
      this.channels := channels;
    }

    function Overhead(): nat { aead.tagSize + HEADER_SIZE }

    /** The open keys shared with a peer, by label. */
    function Keys(peer: nat): map<nat, K>
      reads this
    {
      map id | id in channels && id.node == peer && channels[id].openKey.Some? :: id.lbl := channels[id].openKey.value
    }

    /** What the next seal on a channel gives. */
    function Next(id: ChannelId, plaintext: seq<Byte>): Keyed<Sealed>
      reads this
    {
      if id !in channels || channels[id].sealKey.None? then Declines(NotFound)
      else if channels[id].next >= USIZE then Declines(KeyExpired)
      else aead.seal(channels[id].sealKey.value, AuthData(VERSION, id.lbl), channels[id].next, plaintext)
    }

    // ---- Sealing ----

    /** The key writes ciphertext and tag of `plaintext` to its output. */
    method SealInto(key: K, ad: AuthData, seqno: nat, out: array<Byte>, plaintext: seq<Byte>) returns (r: Keyed<()>)
      requires Lawful(aead) && |plaintext| + aead.tagSize <= out.Length
      modifies out
      ensures match aead.seal(key, ad, seqno, plaintext)
        case Declines(e) => r == Declines(e)
        case Yields(s) => r == Yields(()) && out[..|plaintext| + aead.tagSize] == s.ciphertext + s.tag
      ensures out[|plaintext| + aead.tagSize..] == old(out[|plaintext| + aead.tagSize..])
    {
      var n := |plaintext|;
      match aead.seal(key, ad, seqno, plaintext)
      case Declines(e) =>
        Spoil(out, n + aead.tagSize);
        return Declines(e);
      case Yields(s) =>
        Write(out, 0, s.ciphertext + s.tag);
        return Yields(());
    }

    /** The key replaces the plaintext in `out[..n]` and writes the tag to the slice behind. */
    method SealOver(key: K, ad: AuthData, seqno: nat, out: array<Byte>, n: nat) returns (r: Keyed<()>)
      requires Lawful(aead) && n + aead.tagSize <= out.Length
      modifies out
      ensures match aead.seal(key, ad, seqno, old(out[..n]))
        case Declines(e) => r == Declines(e)
        case Yields(s) => r == Yields(()) && out[..n] == s.ciphertext && out[n..n + aead.tagSize] == s.tag
      ensures out[n + aead.tagSize..] == old(out[n + aead.tagSize..])
    {
      match aead.seal(key, ad, seqno, out[..n])
      case Declines(e) =>
        Spoil(out, n + aead.tagSize);
        return Declines(e);
      case Yields(s) =>
        Write(out, 0, s.ciphertext);
        Write(out, n, s.tag);
        assert out[..n] == s.ciphertext;
        return Yields(());
    }

    /** Finds the key, has it seal into what precedes the header, and on success writes only the
        header. The sequence number is used up exactly then. */
    method DoSeal(id: ChannelId, buf: array<Byte>, header: nat, input: Input) returns (r: Outcome<()>)
      requires Lawful(aead) && aead.tagSize <= header && header + HEADER_SIZE <= buf.Length
      requires input.Given? ==> |input.bytes| + aead.tagSize == header
      modifies this, buf
      ensures
        var plaintext := if input.Given? then input.bytes else old(buf[..header - aead.tagSize]);
        match old(Next(id, plaintext))
        case Declines(e) => r == Failed(e) && channels == old(channels)
        case Yields(s) =>
          r == Done(()) && buf[..header + HEADER_SIZE] == Message(s, id.lbl, old(channels)[id].next) &&
          channels == old(channels)[id := old(channels)[id].(next := old(channels)[id].next + 1)]
      ensures buf[header + HEADER_SIZE..] == old(buf[header + HEADER_SIZE..])
      ensures r.Done? ==>
        id in old(channels) && HeaderOctets(id.lbl, old(channels)[id].next, buf[header..header + HEADER_SIZE])
    {
      hide HeaderOctets, Encode;
      if id !in channels || channels[id].sealKey.None? { return Failed(NotFound); }
      var c := channels[id];
      if c.next >= USIZE { return Failed(KeyExpired); }
      var ad, n := AuthData(VERSION, id.lbl), header - aead.tagSize;
      var o: Keyed<()>;
      if input.Given? {
        o := SealInto(c.sealKey.value, ad, c.next, buf, input.bytes);
      } else {
        o := SealOver(c.sealKey.value, ad, c.next, buf, n);
        assert o.Yields? ==> buf[..header] == buf[..n] + buf[n..header];
      }
      ghost var behind := buf[header..];
      assert behind[HEADER_SIZE..] == buf[header + HEADER_SIZE..];
      if o.Declines? { return Failed(o.error); }
      channels := channels[id := c.(next := c.next + 1)];
      ghost var front := buf[..header];
      Write(buf, header, Encode(DataHeader(id.lbl, c.next)));
      assert buf[..header + HEADER_SIZE] == front + buf[header..header + HEADER_SIZE];
      EncodeOctets(id.lbl, c.next);
      return Done(());
    }

    method Seal(id: ChannelId, dst: array<Byte>, plaintext: seq<Byte>) returns (r: Outcome<()>)
      requires Lawful(aead)
      modifies this, dst
      ensures
        var n := |plaintext| + Overhead();
        if n >= USIZE then r == Failed(InputTooLarge) && dst[..] == old(dst[..]) && channels == old(channels)
        else if n > dst.Length then r == Failed(BufferTooSmall) && dst[..] == old(dst[..]) && channels == old(channels)
        else
          dst[n..] == old(dst[n..]) &&
          match old(Next(id, plaintext))
          case Declines(e) => r == Failed(e) && Zero(dst[..n]) && channels == old(channels)
          case Yields(s) =>
            r == Done(()) && dst[..n] == Message(s, id.lbl, old(channels)[id].next) &&
            channels == old(channels)[id := old(channels)[id].(next := old(channels)[id].next + 1)]
      ensures r.Done? ==>
        id in old(channels) && old(channels)[id].sealKey.Some? && |plaintext| + Overhead() <= dst.Length &&
        OnWire(aead, old(channels)[id].sealKey.value, id.lbl, old(channels)[id].next, plaintext,
               dst[..|plaintext| + Overhead()])
    {
      hide OnWire, HeaderOctets;
      ghost var c := channels;
      if Next(id, plaintext).Yields? {
        MessageOnWire(aead, c[id].sealKey.value, id.lbl, c[id].next, plaintext);
      }
      var n := |plaintext| + Overhead();
      if n >= USIZE { return Failed(InputTooLarge); }
      if dst.Length < n { return Failed(BufferTooSmall); }
      r := DoSeal(id, dst, n - HEADER_SIZE, Given(plaintext));
      if r.Failed? { Fill(dst, n); }
    }

    /** The same message, in place of the plaintext. */
    method SealInPlace(id: ChannelId, data: FixedBuf) returns (r: Outcome<()>)
      requires Lawful(aead) && data.Valid()
      modifies this, data, data.data
      ensures data.Valid()
      ensures
        var n := old(data.len) + Overhead();
        if n > data.data.Length then r == Failed(Allocation) && data.Contents() == old(data.Contents()) &&
          channels == old(channels)
        else
          data.len == n &&
          match old(Next(id, data.Contents()))
          case Declines(e) => r == Failed(e) && Zero(data.Contents()) && channels == old(channels)
          case Yields(s) =>
            r == Done(()) && data.Contents() == Message(s, id.lbl, old(channels)[id].next) &&
            channels == old(channels)[id := old(channels)[id].(next := old(channels)[id].next + 1)]
      ensures r.Done? ==>
        id in old(channels) && old(channels)[id].sealKey.Some? &&
        OnWire(aead, old(channels)[id].sealKey.value, id.lbl, old(channels)[id].next, old(data.Contents()),
               data.Contents())
    {
      hide OnWire, HeaderOctets;
      ghost var c := channels;
      if Next(id, data.Contents()).Yields? {
        MessageOnWire(aead, c[id].sealKey.value, id.lbl, c[id].next, data.Contents());
      }
      var ok := data.TryReserveExact(Overhead());
      if !ok { return Failed(Allocation); }
      ghost var plaintext := data.Contents();
      ok := data.TryResize(data.len + Overhead(), 0);
      assert data.data[..|plaintext|] == data.Contents()[..|plaintext|] == plaintext;
      r := DoSeal(id, data.data, data.len - HEADER_SIZE, InPlace);
      if r.Failed? { Fill(data.data, data.len); }
    }

    // ---- Opening ----

    /** The key writes the plaintext of `ciphertext`, which ends with its tag, to its output. */
    method OpenInto(key: K, ad: AuthData, seqno: nat, out: array<Byte>, ciphertext: seq<Byte>) returns (r: Keyed<()>)
      requires Lawful(aead) && aead.tagSize <= |ciphertext| && |ciphertext| - aead.tagSize <= out.Length
      modifies out
      ensures
        var n := |ciphertext| - aead.tagSize;
        match aead.open(key, ad, seqno, Sealed(ciphertext[..n], ciphertext[n..]))
        case Declines(e) => r == Declines(e)
        case Yields(p) => r == Yields(()) && out[..n] == p && out[n..] == old(out[n..])
    {
      var n := |ciphertext| - aead.tagSize;
      match aead.open(key, ad, seqno, Sealed(ciphertext[..n], ciphertext[n..]))
      case Declines(e) =>
        Spoil(out, n);
        return Declines(e);
      case Yields(p) =>
        Write(out, 0, p);
        return Yields(());
    }

    /** The key replaces the ciphertext in `out[..n]`, whose tag lies behind. */
    method OpenOver(key: K, ad: AuthData, seqno: nat, out: array<Byte>, n: nat) returns (r: Keyed<()>)
      requires Lawful(aead) && n + aead.tagSize <= out.Length
      modifies out
      ensures match aead.open(key, ad, seqno, Sealed(old(out[..n]), old(out[n..n + aead.tagSize])))
        case Declines(e) => r == Declines(e)
        case Yields(p) => r == Yields(()) && out[..n] == p
    {
      match aead.open(key, ad, seqno, Sealed(out[..n], out[n..n + aead.tagSize]))
      case Declines(e) =>
        Spoil(out, n);
        return Declines(e);
      case Yields(p) =>
        Write(out, 0, p);
        return Yields(());
    }

    /** Finds the key and has it open the input into `out[..n]`. */
    method DoOpen(id: ChannelId, seqno: nat, out: array<Byte>, n: nat, input: Input) returns (r: Outcome<()>)
      requires Lawful(aead) && n <= out.Length
      requires if input.Given? then |input.bytes| == n + aead.tagSize else n + aead.tagSize <= out.Length
      modifies out
      ensures
        var s := if input.Given? then Sealed(input.bytes[..n], input.bytes[n..])
          else Sealed(old(out[..n]), old(out[n..n + aead.tagSize]));
        if id.lbl !in Keys(id.node) then r == Failed(NotFound)
        else match aead.open(Keys(id.node)[id.lbl], AuthData(VERSION, id.lbl), seqno, s)
          case Declines(e) => r == Failed(e)
          case Yields(p) => r == Done(()) && out[..n] == p && (input.Given? ==> out[n..] == old(out[n..]))
    {
      KeyOf(id);
      if id !in channels || channels[id].openKey.None? { return Failed(NotFound); }
      var key, ad := channels[id].openKey.value, AuthData(VERSION, id.lbl);
      var o: Keyed<()>;
      if input.Given? {
        o := OpenInto(key, ad, seqno, out, input.bytes);
      } else {
        o := OpenOver(key, ad, seqno, out, n);
      }
      return if o.Yields? then Done(()) else Failed(o.error);
    }

    lemma KeyOf(id: ChannelId)
      ensures id.lbl in Keys(id.node) <==> id in channels && channels[id].openKey.Some?
      ensures id.lbl in Keys(id.node) ==> Keys(id.node)[id.lbl] == channels[id].openKey.value
    {
      assert forall x :: x in channels && x.node == id.node && x.lbl == id.lbl ==> x == id;
    }

    method Open(peer: nat, dst: array<Byte>, msg: seq<Byte>) returns (r: Outcome<(nat, nat)>)
      requires Lawful(aead)
      modifies dst
      ensures
        if |msg| < Overhead() then Read(aead, Keys(peer), msg).Failed? &&
          r == Failed(Read(aead, Keys(peer), msg).error) && dst[..] == old(dst[..])
        else if dst.Length < |msg| - Overhead() then r == Failed(BufferTooSmall) && dst[..] == old(dst[..])
        else match Read(aead, Keys(peer), msg)
          case Done(o) =>
            r == Done((o.lbl, o.seqno)) && |o.plaintext| == |msg| - Overhead() &&
            dst[..|o.plaintext|] == o.plaintext && dst[|o.plaintext|..] == old(dst[|o.plaintext|..])
          case Failed(e) => r == Failed(e) && Zero(dst[..])
          case Panicked => false
    {
      if |msg| < HEADER_SIZE { return Failed(InvalidSize); }
      var rest, h := msg[..|msg| - HEADER_SIZE], Parse(msg[|msg| - HEADER_SIZE..]);
      if |rest| < aead.tagSize { return Failed(Authentication); }
      var n := |rest| - aead.tagSize;
      if dst.Length < n { return Failed(BufferTooSmall); }
      var o := DoOpen(ChannelId(peer, h.lbl), h.seqno, dst, n, Given(rest));
      if o.Failed? {
        Fill(dst, dst.Length);
        return Failed(o.error);
      }
      return Done((h.lbl, h.seqno));
    }

    /** Agrees with the buffered opener, except that a build with overflow checks panics on a message
        with a header but less than a tag before it. Without checks the length wraps around and the
        message is refused like any other that is too short. */
    method OpenInPlace(peer: nat, data: FixedBuf) returns (r: Outcome<(nat, nat)>)
      requires Lawful(aead) && data.Valid()
      modifies data, data.data
      ensures data.Valid()
      ensures
        var msg := old(data.Contents());
        r.Panicked? <==> checks && HEADER_SIZE <= |msg| < Overhead()
      ensures
        var msg := old(data.Contents());
        if |msg| < Overhead() then
          data.Contents() == msg && Read(aead, Keys(peer), msg).Failed? &&
          (r.Panicked? || r == Failed(Read(aead, Keys(peer), msg).error))
        else match Read(aead, Keys(peer), msg)
          case Done(o) => r == Done((o.lbl, o.seqno)) && data.Contents() == o.plaintext
          case Failed(e) => r == Failed(e) && data.len == |msg| && Zero(data.Contents())
          case Panicked => false
    {
      hide Parse;
      var msg := data.Contents();
      if |msg| < HEADER_SIZE { return Failed(InvalidSize); }
      var rest, h := msg[..|msg| - HEADER_SIZE], Parse(msg[|msg| - HEADER_SIZE..]);
      if |rest| < aead.tagSize && checks { return Panicked; }
      var n := if |rest| < aead.tagSize then |rest| - aead.tagSize + USIZE else |rest| - aead.tagSize;
      if n > |rest| { return Failed(Authentication); }
      assert rest == data.data[..|rest|] && n + aead.tagSize == |rest|;
      assert data.data[..n] == rest[..n] && data.data[n..|rest|] == rest[n..];
      var o := DoOpen(ChannelId(peer, h.lbl), h.seqno, data.data, n, InPlace);
      if o.Failed? {
        Fill(data.data, data.len);
        return Failed(o.error);
      }
      data.Truncate(n);
      return Done((h.lbl, h.seqno));
    }
  }

  // ---- Two clients ----

  /** The receiver opens what comes from `peer` on this label with the key the sender seals with. */
  ghost predicate Shares<K(!new)>(sender: Client<K>, id: ChannelId, receiver: Client<K>, peer: nat)
    reads sender, receiver
  {
    Lawful(sender.aead) && receiver.aead == sender.aead && id.lbl < Power(LABEL_SIZE) &&
    id in sender.channels && sender.channels[id].sealKey.Some? &&
    id.lbl in receiver.Keys(peer) && receiver.Keys(peer)[id.lbl] == sender.channels[id].sealKey.value
  }

  /** How a message is sealed or opened. */
  datatype Style = Buffered | OverItself

  /** Seals one message, by either sealer. */
  method Pack<K(!new)>(sender: Client<K>, id: ChannelId, style: Style, plaintext: seq<Byte>)
      returns (r: Outcome<seq<Byte>>)
    requires Lawful(sender.aead) && |plaintext| + sender.Overhead() < USIZE
    modifies sender
    ensures match old(sender.Next(id, plaintext))
      case Declines(e) => r == Failed(e) && sender.channels == old(sender.channels)
      case Yields(s) =>
        r == Done(Message(s, id.lbl, old(sender.channels)[id].next)) &&
        sender.channels ==
          old(sender.channels)[id := old(sender.channels)[id].(next := old(sender.channels)[id].next + 1)]
  {
    hide OnWire;
    var n := |plaintext| + sender.Overhead();
    var space := new Byte[n];
    var o: Outcome<()>;
    if style.Buffered? {
      o := sender.Seal(id, space, plaintext);
    } else {
      Write(space, 0, plaintext);
      var data := new FixedBuf(space, |plaintext|);
      assert data.Contents() == plaintext;
      o := sender.SealInPlace(id, data);
    }
    assert space[..n] == space[..];
    return if o.Done? then Done(space[..]) else Failed(o.error);
  }

  /** Opens one message, by either opener. */
  method Unpack<K(!new)>(receiver: Client<K>, peer: nat, style: Style, msg: seq<Byte>) returns (r: Outcome<Opened>)
    requires Lawful(receiver.aead) && receiver.Overhead() <= |msg|
    ensures r == Read(receiver.aead, receiver.Keys(peer), msg)
  {
    var space := new Byte[|msg|];
    var o: Outcome<(nat, nat)>;
    if style.Buffered? {
      o := receiver.Open(peer, space, msg);
      return if o.Done? then Done(Opened(o.value.0, o.value.1, space[..|msg| - receiver.Overhead()]))
        else Failed(o.error);
    }
    Write(space, 0, msg);
    var data := new FixedBuf(space, |msg|);
    assert data.Contents() == msg;
    o := receiver.OpenInPlace(peer, data);
    return if o.Done? then Done(Opened(o.value.0, o.value.1, data.Contents())) else Failed(o.error);
  }

  /** Whatever sealer and opener are used, the receiver gets the plaintext with the label and the
      sequence number it was sealed with; nothing is received only if nothing was sealed. */
  method Exchange<K(!new)>(
    sender: Client<K>, id: ChannelId, receiver: Client<K>, peer: nat, how: (Style, Style), plaintext: seq<Byte>)
    returns (r: Outcome<Opened>)
    requires Shares(sender, id, receiver, peer) && |plaintext| + sender.Overhead() < USIZE
    modifies sender
    ensures match old(sender.Next(id, plaintext))
      case Declines(e) => r == Failed(e) && sender.channels == old(sender.channels)
      case Yields(_) =>
        r == Done(Opened(id.lbl, old(sender.channels)[id].next, plaintext)) &&
        sender.channels ==
          old(sender.channels)[id := old(sender.channels)[id].(next := old(sender.channels)[id].next + 1)]
    ensures Shares(sender, id, receiver, peer)
  {
    var msg := Pack(sender, id, how.0, plaintext);
    assert Shares(sender, id, receiver, peer) by {
      receiver.KeyOf(ChannelId(peer, id.lbl));
    }
    if msg.Failed? { return Failed(msg.error); }
    assert SEQ_SIZE == 8 && Power(8) == USIZE;
    RoundTrip(sender.aead, receiver.Keys(peer), id.lbl, old(sender.channels)[id].next, plaintext);
    r := Unpack(receiver, peer, how.1, msg.value);
  }

  /** Whether the cipher seals this plaintext under this key and sequence number. */
  predicate Sealable<K>(a: Aead<K>, key: K, lbl: nat, seqno: nat, plaintext: seq<Byte>) {
    seqno < USIZE && a.seal(key, AuthData(VERSION, lbl), seqno, plaintext).Yields?
  }

  /** What becomes of one message: received as it was sealed, or not sealed. */
  predicate Turn<K>(a: Aead<K>, key: K, lbl: nat, seqno: nat, plaintext: seq<Byte>, r: Outcome<Opened>) {
    if Sealable(a, key, lbl, seqno, plaintext) then r == Done(Opened(lbl, seqno, plaintext)) else r.Failed?
  }

  function Received(got: seq<Outcome<Opened>>): nat {
    if got == [] then 0 else Received(got[..|got| - 1]) + if got[|got| - 1].Done? then 1 else 0
  }

  /** Every message had its turn, with the number of messages received before it added to `first`. */
  ghost predicate Told<K(!new)>(
    a: Aead<K>, key: K, lbl: nat, first: nat, plaintexts: seq<seq<Byte>>, got: seq<Outcome<Opened>>)
  {
    |got| <= |plaintexts| &&
    forall i :: 0 <= i < |got| ==> Turn(a, key, lbl, first + Received(got[..i]), plaintexts[i], got[i])
  }

  lemma {:induction false} ToldOn<K(!new)>(
    a: Aead<K>, key: K, lbl: nat, first: nat, plaintexts: seq<seq<Byte>>, got: seq<Outcome<Opened>>, r: Outcome<Opened>)
    requires Told(a, key, lbl, first, plaintexts, got) && |got| < |plaintexts|
    requires Turn(a, key, lbl, first + Received(got), plaintexts[|got|], r)
    ensures Told(a, key, lbl, first, plaintexts, got + [r])
    ensures Received(got + [r]) == Received(got) + if r.Done? then 1 else 0
  {
    hide Turn, Received;
    var more := got + [r];
    assert more[..|got|] == got;
    ReceivedOn(got, r);
    forall i | 0 <= i < |more| ensures Turn(a, key, lbl, first + Received(more[..i]), plaintexts[i], more[i]) {
      if i < |got| { assert more[..i] == got[..i]; }
    }
  }

  lemma ReceivedOn(got: seq<Outcome<Opened>>, r: Outcome<Opened>)
    ensures Received(got + [r]) == Received(got) + if r.Done? then 1 else 0
  {
    assert (got + [r])[..|got|] == got;
  }

  /** A whole conversation, every message sealed and opened in a style of its own: a message is
      received if and only if it could be sealed at its turn, and then with its own plaintext and the
      next number after those received before it. So no sequence number is used twice. */
  method Converse<K(!new)>(
    sender: Client<K>, id: ChannelId, receiver: Client<K>, peer: nat, how: seq<(Style, Style)>,
      plaintexts: seq<seq<Byte>>)
    returns (got: seq<Outcome<Opened>>)
    requires Shares(sender, id, receiver, peer) && |how| == |plaintexts|
    requires forall i :: 0 <= i < |plaintexts| ==> |plaintexts[i]| + sender.Overhead() < USIZE
    modifies sender
    ensures |got| == |plaintexts|
    ensures
      var c := old(sender.channels)[id];
      Told(sender.aead, c.sealKey.value, id.lbl, c.next, plaintexts, got) &&
      id in sender.channels && sender.channels[id] == c.(next := c.next + Received(got))
  {
    hide Lawful, Told, Received;
    ghost var c := sender.channels[id];
    got := [];
    ToldNone(sender.aead, c.sealKey.value, id.lbl, c.next, plaintexts);
    for i := 0 to |plaintexts|
      invariant Shares(sender, id, receiver, peer) && |got| == i
      invariant sender.channels[id] == c.(next := c.next + Received(got))
      invariant Told(sender.aead, c.sealKey.value, id.lbl, c.next, plaintexts, got)
    {
      var r := Exchange(sender, id, receiver, peer, how[i], plaintexts[i]);
      ToldOn(sender.aead, c.sealKey.value, id.lbl, c.next, plaintexts, got, r);
      got := got + [r];
    }
  }

  lemma ToldNone<K(!new)>(a: Aead<K>, key: K, lbl: nat, first: nat, plaintexts: seq<seq<Byte>>)
    ensures Told(a, key, lbl, first, plaintexts, []) && Received([]) == 0
  {
  }

  /** Later messages are received under greater numbers. */
  lemma {:induction false} NumbersGrow(got: seq<Outcome<Opened>>, i: nat, j: nat)
    requires i < j <= |got| && got[i].Done?
    ensures Received(got[..i]) < Received(got[..j])
    decreases j
  {
    assert got[..j][..j - 1] == got[..j - 1];
    if i < j - 1 { NumbersGrow(got, i, j - 1); }
  }
}
