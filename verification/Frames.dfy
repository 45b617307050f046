/** QUIC variable-length integers and the incremental HTTP/3 frame parser
    (pkgs/microdoh3/src/h3.rs). */
module Frames {
  import opened Bytes

  // ----- variable-length integers -----

  function Pow256(n: nat): (p: nat)
    ensures p >= 1
  {
    if n == 0 then 1 else 256 * Pow256(n - 1)
  }

  /** The low `n` octets of `v`, most significant first. */
  function ToBigEndian(v: nat, n: nat): (bs: seq<u8>)
    ensures |bs| == n
  {
    if n == 0 then [] else [v / Pow256(n - 1) % 256] + ToBigEndian(v, n - 1)
  }

  /** `acc` followed by the octets `bs`, read as one number. */
  function BigEndian(acc: nat, bs: seq<u8>): nat
    decreases |bs|
  {
    if bs == [] then acc else BigEndian(acc * 256 + bs[0], bs[1..])
  }

  lemma {:induction false} BigEndianInverse(acc: nat, v: nat, n: nat)
    ensures BigEndian(acc, ToBigEndian(v, n)) == acc * Pow256(n) + v % Pow256(n)
    decreases n
  {
    if n == 0 {
    } else {
      var p, d := Pow256(n - 1), v / Pow256(n - 1) % 256;
      var bs := ToBigEndian(v, n);
      assert bs[0] == d && bs[1..] == ToBigEndian(v, n - 1);
      BigEndianInverse(acc * 256 + d, v, n - 1);
      DivDiv(v, p, 256);
      ShiftIn(acc, d, p);
    }
  }

  lemma ShiftIn(acc: nat, d: nat, p: nat)
    ensures (acc * 256 + d) * p == acc * (256 * p) + d * p
    ensures p * 256 == 256 * p
  {
  }

  /** What `varint_encode` appends; above 2^62 the two length bits overwrite the top of the value. */
  function EncodeVarint(v: nat): (bs: seq<u8>)
    requires v < TWO_64
    ensures 1 <= |bs| <= 8
  {
    if v < 0x40 then [v]
    else if v < 0x4000 then ToBigEndian(v + 0x4000, 2)
    else if v < 0x4000_0000 then ToBigEndian(v + 0x8000_0000, 4)
    else ToBigEndian(v % TWO_62 + 3 * TWO_62, 8)
  }

  function VarintLength(first: u8): (n: nat)
    ensures n == 1 || n == 2 || n == 4 || n == 8
  {
    if first < 0x40 then 1 else if first < 0x80 then 2 else if first < 0xC0 then 4 else 8
  }

  /** Value and length of the integer at the front of `buf`; None while octets are missing. */
  function DecodeVarint(buf: seq<u8>): (r: Option<(nat, nat)>)
    ensures r.Some? ==> 1 <= r.value.1 <= |buf|
  {
    if buf == [] || |buf| < VarintLength(buf[0]) then None
    else Some((BigEndian(buf[0] % 0x40, buf[1..VarintLength(buf[0])]), VarintLength(buf[0])))
  }

  method VarintDecode(buf: seq<u8>) returns (r: Option<(nat, nat)>)
    ensures r == DecodeVarint(buf)
  {
    if buf == [] {
      return None;
    }
    var first := buf[0];
    var len := VarintLength(first);
    if |buf| < len {
      return None;
    }
    var v: nat := first % 0x40;
    for k := 1 to len
      invariant BigEndian(v, buf[k..len]) == BigEndian(first % 0x40, buf[1..len])
    {
      assert buf[k..len][1..] == buf[k + 1..len];
      v := v * 256 + buf[k];
    }
    return Some((v, len));
  }

  /** Octets after the integer do not matter. */
  lemma DecodeVarintExtends(buf: seq<u8>, more: seq<u8>)
    requires DecodeVarint(buf).Some?
    ensures DecodeVarint(buf + more) == DecodeVarint(buf)
  {
    var n := VarintLength(buf[0]);
    assert (buf + more)[1..n] == buf[1..n];
  }

  /** One multi-octet form: `w` is `q * 256^(n-1) + ...` with the length bits `tag` above `q`. */
  lemma TaggedBytes(v: nat, w: nat, n: nat, tag: nat, q: nat, rest: seq<u8>)
    requires n == 2 || n == 4 || n == 8
    requires tag == if n == 2 then 1 else if n == 4 then 2 else 3
    requires q < 0x40 && w / Pow256(n - 1) == q + tag * 0x40
    requires v == q * Pow256(n - 1) + w % Pow256(n - 1)
    ensures var bs := ToBigEndian(w, n);
            VarintLength(bs[0]) == n && DecodeVarint(bs + rest) == Some((v, n))
  {
    var bs := ToBigEndian(w, n);
    assert bs[0] == q + tag * 0x40;
    assert bs[1..] == ToBigEndian(w, n - 1);
    BigEndianInverse(q, w, n - 1);
    hide ToBigEndian, BigEndian, Pow256;
    var buf := bs + rest;
    assert buf[1..n] == bs[1..] && buf[0] == bs[0];
    assert VarintLength(bs[0]) == n && buf[0] % 0x40 == q;
  }

  lemma TopDigit(v: nat, p: nat, tag: nat, q: nat)
    requires p > 0 && v < 0x40 * p && q == v / p
    ensures q < 0x40
    ensures var w := v + tag * 0x40 * p; w / p == q + tag * 0x40 && w % p == v % p
    ensures v == q * p + v % p
  {
    var r := v % p;
    assert v == q * p + r;
    if q >= 0x40 {
      MulOrder(0x3F, q, p);
    }
    assert v + tag * 0x40 * p == (q + tag * 0x40) * p + r;
    DivModUnique(v + tag * 0x40 * p, p, q + tag * 0x40, r);
  }

  lemma RoundTripTagged(v: nat, w: nat, n: nat, p: nat, tag: nat, rest: seq<u8>)
    requires n == 2 || n == 4 || n == 8
    requires tag == if n == 2 then 1 else if n == 4 then 2 else 3
    requires p == Pow256(n - 1) && v < 0x40 * p && w == v + tag * 0x40 * p
    ensures var bs := ToBigEndian(w, n);
            VarintLength(bs[0]) == n && DecodeVarint(bs + rest) == Some((v, n))
  {
    hide DecodeVarint, ToBigEndian, Pow256, VarintLength;
    TopDigit(v, p, tag, v / p);
    TaggedBytes(v, w, n, tag, v / p, rest);
  }

  lemma DecodesShort(v: u8, rest: seq<u8>)
    requires v < 0x40
    ensures DecodeVarint([v] + rest) == Some((v, 1)) && VarintLength(v) == 1
  {
  }

  lemma DecodesModulo(v: nat, rest: seq<u8>)
    requires v < TWO_64
    ensures DecodeVarint(EncodeVarint(v) + rest) == Some((v % TWO_62, |EncodeVarint(v)|))
    ensures VarintLength(EncodeVarint(v)[0]) == |EncodeVarint(v)|
  {
    hide DecodeVarint, ToBigEndian, VarintLength, BigEndian, Pow256;
    if v < 0x40 {
      DecodesShort(v, rest);
    } else {
      DecodesLong(v, rest);
    }
  }

  lemma DecodesLong(v: nat, rest: seq<u8>)
    requires 0x40 <= v < TWO_64
    ensures DecodeVarint(EncodeVarint(v) + rest) == Some((v % TWO_62, |EncodeVarint(v)|))
    ensures VarintLength(EncodeVarint(v)[0]) == |EncodeVarint(v)|
  {
    hide DecodeVarint, ToBigEndian, VarintLength, BigEndian, Pow256;
    PowersOf256();
    if v < 0x4000 {
      RoundTripTagged(v, v + 0x4000, 2, 0x100, 1, rest);
    } else if v < 0x4000_0000 {
      RoundTripTagged(v, v + 0x8000_0000, 4, 0x100_0000, 2, rest);
    } else {
      var u := v % TWO_62;
      RoundTripTagged(u, u + 3 * TWO_62, 8, 0x100_0000_0000_0000, 3, rest);
    }
  }

  lemma PowersOf256()
    ensures Pow256(1) == 0x100 && Pow256(3) == 0x100_0000 && Pow256(7) == 0x100_0000_0000_0000
  {
  }

  /** Decoding inverts encoding exactly below 2^62: above, the top two bits are lost. */
  lemma VarintRoundTrip(v: nat, rest: seq<u8>)
    requires v < TWO_64
    ensures DecodeVarint(EncodeVarint(v) + rest) == Some((v % TWO_62, |EncodeVarint(v)|))
    ensures DecodeVarint(EncodeVarint(v) + rest) == Some((v, |EncodeVarint(v)|)) <==> v < TWO_62
    ensures VarintLength(EncodeVarint(v)[0]) == |EncodeVarint(v)|
  {
    hide EncodeVarint, DecodeVarint;
    DecodesModulo(v, rest);
  }

  /** Every proper prefix of an encoded integer is reported as incomplete. */
  lemma VarintPrefixIncomplete(v: nat, k: nat)
    requires v < TWO_64 && k < |EncodeVarint(v)|
    ensures DecodeVarint(EncodeVarint(v)[..k]) == None
  {
    VarintRoundTrip(v, []);
  }

  method VarintEncode(v: nat, out: seq<u8>) returns (r: seq<u8>)
    requires v < TWO_64
    ensures r == out + EncodeVarint(v)
  {
    if v < 0x40 {
      r := out + [v];
    } else if v < 0x4000 {
      r := out + ToBigEndian(v + 0x4000, 2);
    } else if v < 0x4000_0000 {
      r := out + ToBigEndian(v + 0x8000_0000, 4);
    } else {
      r := out + ToBigEndian(v % TWO_62 + 3 * TWO_62, 8);
    }
  }

  // ----- frames -----

  datatype Frame = Frame(ty: nat, payload: seq<u8>)

  /** The frame at the front of `buf` and its total length; None while octets are missing. */
  function HeadFrame(buf: seq<u8>): (r: Option<(Frame, nat)>)
    ensures r.Some? ==> 2 <= r.value.1 <= |buf|
  {
    match DecodeVarint(buf)
    case None => None
    case Some((ty, n1)) =>
      match DecodeVarint(buf[n1..])
      case None => None
      case Some((len, n2)) =>
        if |buf| < n1 + n2 + len then None
        else Some((Frame(ty, buf[n1 + n2..n1 + n2 + len]), n1 + n2 + len))
  }

  /** One-shot parsing: every complete frame of `buf`, in order. */
  function Frames(buf: seq<u8>): seq<Frame>
    decreases |buf|
  {
    match HeadFrame(buf)
    case None => []
    case Some((f, n)) => [f] + Frames(buf[n..])
  }

  /** The octets one-shot parsing leaves over. */
  function Leftover(buf: seq<u8>): seq<u8>
    decreases |buf|
  {
    match HeadFrame(buf)
    case None => buf
    case Some((_, n)) => Leftover(buf[n..])
  }

  class FrameParser {
    var buf: seq<u8>

    constructor (initial: seq<u8>)
      ensures buf == initial
    {
      buf := initial;
    }

    method Feed(data: seq<u8>)
      modifies this
      ensures buf == old(buf) + data
    {
      buf := buf + data;
    }

    method NextFrame() returns (r: Option<Frame>)
      modifies this
      ensures match HeadFrame(old(buf))
              case None => r == None && buf == old(buf)
              case Some((f, n)) => r == Some(f) && buf == old(buf)[n..]
    {
      var head := VarintDecode(buf);
      if head.None? {
        return None;
      }
      var (ty, n1) := head.value;
      var size := VarintDecode(buf[n1..]);
      if size.None? {
        return None;
      }
      var (len, n2) := size.value;
      var start := n1 + n2;
      if |buf| < start + len {
        return None;
      }
      r := Some(Frame(ty, buf[start..start + len]));
      buf := buf[start + len..];
    }
  }

  lemma HeadFrameExtends(buf: seq<u8>, more: seq<u8>)
    requires HeadFrame(buf).Some?
    ensures HeadFrame(buf + more) == HeadFrame(buf)
  {
    hide DecodeVarint;
    var (ty, n1) := DecodeVarint(buf).value;
    var (len, n2) := DecodeVarint(buf[n1..]).value;
    DecodeVarintExtends(buf, more);
    DecodeVarintExtends(buf[n1..], more);
    assert (buf + more)[n1..] == buf[n1..] + more;
    var a, b := n1 + n2, n1 + n2 + len;
    assert b <= |buf|;
    assert (buf + more)[a..b] == buf[a..b];
  }

  /** Parsing early and continuing on what is left equals parsing everything at the end. */
  lemma {:induction false} FramesExtend(buf: seq<u8>, more: seq<u8>)
    ensures Frames(buf + more) == Frames(buf) + Frames(Leftover(buf) + more)
    ensures Leftover(buf + more) == Leftover(Leftover(buf) + more)
    decreases |buf|
  {
    hide HeadFrame;
    match HeadFrame(buf)
    case None =>
      assert [] + Frames(buf + more) == Frames(buf + more);
    case Some((f, n)) =>
      HeadFrameExtends(buf, more);
      var rest := buf[n..];
      assert (buf + more)[n..] == rest + more;
      FramesExtend(rest, more);
      assert Frames(buf) == [f] + Frames(rest) && Leftover(buf) == Leftover(rest);
      assert Frames(buf + more) == [f] + Frames(rest + more);
  }

  /** A caller's use of the parser: chunks and frame requests in any order. */
  datatype ParserCall = FeedCall(data: seq<u8>) | NextCall

  datatype ParserRun = ParserRun(fed: seq<u8>, consumed: seq<u8>, buf: seq<u8>, got: seq<Frame>)

  function CallParser(p: ParserRun, call: ParserCall): ParserRun {
    match call
    case FeedCall(data) => p.(fed := p.fed + data, buf := p.buf + data)
    case NextCall =>
      match HeadFrame(p.buf)
      case None => p
      case Some((f, n)) =>
        ParserRun(p.fed, p.consumed + p.buf[..n], p.buf[n..], p.got + [f])
  }

  function RunParser(calls: seq<ParserCall>): ParserRun {
    if calls == [] then ParserRun([], [], [], [])
    else CallParser(RunParser(calls[..|calls| - 1]), calls[|calls| - 1])
  }

  ghost predicate Refines(p: ParserRun) {
    && p.consumed + p.buf == p.fed
    && p.got + Frames(p.buf) == Frames(p.fed)
    && Leftover(p.buf) == Leftover(p.fed)
  }

  lemma CallKeepsRefinement(p: ParserRun, call: ParserCall)
    requires Refines(p)
    ensures Refines(CallParser(p, call))
  {
    hide HeadFrame;
    match call
    case FeedCall(data) => FeedKeepsRefinement(p, data);
    case NextCall =>
      if HeadFrame(p.buf).Some? {
        var (f, n) := HeadFrame(p.buf).value;
        assert p.buf[..n] + p.buf[n..] == p.buf;
        assert p.consumed + p.buf[..n] + p.buf[n..] == p.fed;
        assert p.got + [f] + Frames(p.buf[n..]) == p.got + ([f] + Frames(p.buf[n..]));
      }
  }

  lemma FeedKeepsRefinement(p: ParserRun, data: seq<u8>)
    requires Refines(p)
    ensures Refines(CallParser(p, FeedCall(data)))
  {
    hide Frames, Leftover, HeadFrame;
    FramesExtend(p.buf, data);
    FramesExtend(p.fed, data);
    var rest := Frames(Leftover(p.buf) + data);
    assert p.got + (Frames(p.buf) + rest) == (p.got + Frames(p.buf)) + rest;
    assert p.consumed + (p.buf + data) == p.fed + data;
  }

  /** However feeding and polling are interleaved, no octet is lost or invented, the frames
      handed out are a prefix of the one-shot frames of everything fed, and polling until None
      yields exactly the rest. */
  lemma {:induction false} InterleavingRefinesOneShot(calls: seq<ParserCall>)
    ensures Refines(RunParser(calls))
  {
    if calls == [] {
    } else {
      InterleavingRefinesOneShot(calls[..|calls| - 1]);
      CallKeepsRefinement(RunParser(calls[..|calls| - 1]), calls[|calls| - 1]);
    }
  }

  /** Writing a frame the way `encode_request` does and parsing it back. */
  function EncodeFrame(ty: nat, payload: seq<u8>): seq<u8>
    requires ty < TWO_62 && |payload| < TWO_62
  {
    EncodeVarint(ty) + EncodeVarint(|payload|) + payload
  }

  lemma FrameRoundTrip(ty: nat, payload: seq<u8>, rest: seq<u8>)
    requires ty < TWO_62 && |payload| < TWO_62
    ensures Frames(EncodeFrame(ty, payload) + rest) == [Frame(ty, payload)] + Frames(rest)
    ensures Leftover(EncodeFrame(ty, payload) + rest) == Leftover(rest)
  {
    var a, b := EncodeVarint(ty), EncodeVarint(|payload|);
    var buf := EncodeFrame(ty, payload) + rest;
    assert buf == a + (b + payload + rest);
    VarintRoundTrip(ty, b + payload + rest);
    assert buf[|a|..] == b + (payload + rest);
    VarintRoundTrip(|payload|, payload + rest);
    assert buf[|a| + |b|..|a| + |b| + |payload|] == payload;
    assert buf[|a| + |b| + |payload|..] == rest;
  }
}
