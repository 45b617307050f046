/** DNS octet surgery (pkgs/microdoh3/src/dns.rs): validation, question scanning, SERVFAIL
    synthesis and EDNS padding. */
module Dns {
  import opened Bytes

  const HEADER: nat := 12

  datatype DnsError =
    | TooShort(n: nat)
    | NotAQuery
    | NoQuestion(n: nat)
    | TooManyQuestions(n: nat)
    | MalformedQuestion

  function Be16(hi: u8, lo: u8): nat { hi * 256 + lo }

  function ValidateQuery(buf: seq<u8>): (r: Result<(), DnsError>)
    ensures r.Ok? <==> |buf| >= HEADER && buf[2] < 0x80 && buf[4] == 0 && buf[5] == 1
    ensures r.Err? && r.error.TooShort? <==> |buf| < HEADER
    ensures r == Err(NotAQuery) <==> |buf| >= HEADER && buf[2] >= 0x80
    ensures r.Err? && r.error.NoQuestion? <==> |buf| >= HEADER && buf[2] < 0x80 && buf[4] == 0 && buf[5] == 0
  {
    if |buf| < HEADER then Err(TooShort(|buf|))
    else if Be16(buf[2], buf[3]) >= 0x8000 then Err(NotAQuery)
    else
      var n := Be16(buf[4], buf[5]);
      if n == 0 then Err(NoQuestion(n)) else if n > 1 then Err(TooManyQuestions(n)) else Ok(())
  }

  // ----- question scanning -----

  /** The label loop of `question_end` from offset `pos`. */
  function ScanFrom(buf: seq<u8>, pos: nat): (r: Result<nat, DnsError>)
    decreases |buf| - pos
  {
    if pos >= |buf| then Err(MalformedQuestion)
    else if buf[pos] == 0 then Ok(pos + 5)
    else if buf[pos] >= 0x40 || pos + 1 + buf[pos] > |buf| then Err(MalformedQuestion)
    else ScanFrom(buf, pos + 1 + buf[pos])
  }

  method QuestionEnd(buf: seq<u8>) returns (r: Result<nat, DnsError>)
    ensures r == ScanFrom(buf, HEADER)
  {
    var pos := HEADER;
    while true
      invariant ScanFrom(buf, pos) == ScanFrom(buf, HEADER)
      decreases |buf| - pos
    {
      if pos >= |buf| {
        return Err(MalformedQuestion);
      }
      var len := buf[pos];
      if len == 0 {
        return Ok(pos + 1 + 4);
      }
      if len >= 0x40 {
        return Err(MalformedQuestion);
      }
      pos := pos + 1 + len;
      if pos > |buf| {
        return Err(MalformedQuestion);
      }
    }
  }

  predicate IsName(labels: seq<seq<u8>>) {
    forall i :: 0 <= i < |labels| ==> 1 <= |labels[i]| < 0x40
  }

  /** Length-prefixed labels and the root octet (section 4.1.2 of RFC 1035). */
  function NameBytes(labels: seq<seq<u8>>): (r: seq<u8>)
    requires IsName(labels)
    ensures |r| >= 1
  {
    if labels == [] then [0] else [|labels[0]|] + labels[0] + NameBytes(labels[1..])
  }

  lemma {:induction false} ScanFindsName(buf: seq<u8>, pos: nat, labels: seq<seq<u8>>)
    requires pos <= |buf| && IsName(labels) && NameBytes(labels) <= buf[pos..]
    ensures ScanFrom(buf, pos) == Ok(pos + |NameBytes(labels)| + 4)
    decreases |labels|
  {
    var n := NameBytes(labels);
    assert buf[pos] == buf[pos..][0] == n[0];
    if labels != [] {
      var k := 1 + |labels[0]|;
      assert n[k..] == NameBytes(labels[1..]);
      assert buf[pos + k..] == buf[pos..][k..];
      ScanFindsName(buf, pos + k, labels[1..]);
    }
  }

  lemma {:induction false} ScanReadsName(buf: seq<u8>, pos: nat) returns (labels: seq<seq<u8>>)
    requires pos <= |buf| && ScanFrom(buf, pos).Ok?
    ensures IsName(labels) && NameBytes(labels) <= buf[pos..]
    ensures ScanFrom(buf, pos) == Ok(pos + |NameBytes(labels)| + 4)
    decreases |buf| - pos
  {
    if buf[pos] == 0 {
      labels := [];
      assert buf[pos..][0] == 0;
    } else {
      var k := 1 + buf[pos];
      var rest := ScanReadsName(buf, pos + k);
      labels := [buf[pos + 1..pos + k]] + rest;
      assert labels[1..] == rest;
      var n := NameBytes(rest);
      assert buf[pos..] == [buf[pos]] + buf[pos + 1..pos + k] + buf[pos + k..];
    }
  }

  /** Scanning succeeds exactly on an encoded label list, whatever follows it, and returns the
      offset four octets past its root. */
  lemma QuestionEndIff(buf: seq<u8>, end: nat)
    ensures ScanFrom(buf, HEADER) == Ok(end) <==>
            |buf| >= HEADER && exists labels ::
              IsName(labels) && NameBytes(labels) <= buf[HEADER..] && end == HEADER + |NameBytes(labels)| + 4
  {
    if ScanFrom(buf, HEADER) == Ok(end) {
      var labels := ScanReadsName(buf, HEADER);
    }
    if |buf| >= HEADER {
      forall labels | IsName(labels) && NameBytes(labels) <= buf[HEADER..] && end == HEADER + |NameBytes(labels)| + 4
        ensures ScanFrom(buf, HEADER) == Ok(end)
      {
        ScanFindsName(buf, HEADER, labels);
      }
    }
  }

  /** The scan looks only at octets before the end it returns. */
  lemma {:induction false} ScanLocal(a: seq<u8>, b: seq<u8>, pos: nat, end: nat)
    requires ScanFrom(a, pos) == Ok(end) && end - 4 <= |b|
    requires forall i :: pos <= i < end - 4 && i < |a| ==> a[i] == b[i]
    ensures pos < end - 4 <= |a|
    ensures ScanFrom(b, pos) == Ok(end)
    decreases |a| - pos
  {
    if a[pos] != 0 {
      ScanBound(a, pos + 1 + a[pos]);
      assert a[pos] == b[pos];
      ScanLocal(a, b, pos + 1 + a[pos], end);
    }
  }

  lemma {:induction false} ScanBound(a: seq<u8>, pos: nat)
    requires ScanFrom(a, pos).Ok?
    ensures pos + 5 <= ScanFrom(a, pos).value <= |a| + 4
    decreases |a| - pos
  {
    if a[pos] != 0 {
      ScanBound(a, pos + 1 + a[pos]);
    }
  }

  // ----- SERVFAIL -----

  /** How much of the query the failure response echoes. */
  function EchoEnd(query: seq<u8>): nat {
    var e := ScanFrom(query, HEADER);
    if e.Ok? && e.value <= |query| then e.value else HEADER
  }

  function Servfail(query: seq<u8>): (r: seq<u8>)
    requires |query| >= HEADER
    ensures |r| == EchoEnd(query) >= HEADER
  {
    assert EchoEnd(query) >= HEADER by {
      if ScanFrom(query, HEADER).Ok? { ScanBound(query, HEADER); }
    }
    var hi: u8 := if query[2] < 0x80 then query[2] + 0x80 else query[2];
    var lo: u8 := query[3] / 16 % 8 * 16 + 0x82;
    [query[0], query[1], hi, lo, query[4], query[5], 0, 0, 0, 0, 0, 0] + query[HEADER..EchoEnd(query)]
  }

  method BuildServfail(query: seq<u8>, out: seq<u8>) returns (ok: bool, out': seq<u8>)
    ensures ok <==> |query| >= HEADER
    ensures ok ==> out' == Servfail(query)
    ensures !ok ==> out' == out
  {
    var e := QuestionEnd(query);
    if e.Ok? {
      ScanBound(query, HEADER);
    }
    var end := HEADER;
    if e.Ok? && e.value <= |query| {
      end := e.value;
    } else if |query| < HEADER {
      return false, out;
    }
    out' := query[..end];
    if out'[2] < 0x80 {
      out' := out'[2 := out'[2] + 0x80];
    }
    out' := out'[3 := out'[3] / 16 % 8 * 16 + 0x82];
    for i := 6 to 12
      invariant |out'| == end
      invariant forall k :: 0 <= k < end && !(6 <= k < i) ==>
        out'[k] == if k == 2 then (if query[2] < 0x80 then query[2] + 0x80 else query[2])
                   else if k == 3 then query[3] / 16 % 8 * 16 + 0x82 else query[k]
      invariant forall k :: 6 <= k < i ==> out'[k] == 0
    {
      out' := out'[i := 0];
    }
    ok := true;
  }

  /** Every accepted query gets a failure response that keeps its ID and question count, echoes
      the question octet for octet when it is complete, zeroes the other counts, carries QR and
      RCODE 2, keeps the question's end, and is itself refused as a query. */
  lemma ServfailAnswers(query: seq<u8>)
    requires ValidateQuery(query).Ok?
    ensures var r := Servfail(query);
            && r[..2] == query[..2] && r[4..6] == query[4..6] && r[6..12] == [0, 0, 0, 0, 0, 0]
            && r[2] == query[2] + 0x80 && r[3] % 16 == 2 && r[3] >= 0x80 && r[3] / 16 % 8 == query[3] / 16 % 8
            && (var e := ScanFrom(query, HEADER); |r| == if e.Ok? && e.value <= |query| then e.value else 12)
            && r[HEADER..] == query[HEADER..EchoEnd(query)]
            && ValidateQuery(r) == Err(NotAQuery)
            && (ScanFrom(query, HEADER) == Ok(EchoEnd(query)) ==> ScanFrom(r, HEADER) == Ok(|r|))
  {
    var r := Servfail(query);
    assert r[HEADER..] == query[HEADER..EchoEnd(query)];
    if ScanFrom(query, HEADER) == Ok(EchoEnd(query)) {
      forall i | HEADER <= i < |r| ensures r[i] == query[i] {
        assert r[i] == r[HEADER..][i - HEADER];
      }
      ScanLocal(query, r, HEADER, |r|);
    }
  }

  // ----- EDNS padding -----

  const OPT_HEADER: nat := 11
  const OPT_TYPE: nat := 41
  const OPTION_PADDING: nat := 12

  function ToBe16(n: nat): (b: seq<u8>)
    ensures |b| == 2
  {
    [n / 256 % 256, n % 256]
  }

  function Zeros(n: nat): seq<u8> { seq(n, i => 0) }

  /** The test `pad_query` uses for a trailing OPT record: eleven octets from the end. */
  predicate LooksLikeOpt(buf: seq<u8>) {
    && |buf| >= OPT_HEADER + 4
    && buf[|buf| - 11] == 0
    && Be16(buf[|buf| - 10], buf[|buf| - 9]) == OPT_TYPE
  }

  function Overhead(buf: seq<u8>): nat { if LooksLikeOpt(buf) then 4 else 15 }

  predicate Pads(buf: seq<u8>, block: nat) {
    |buf| + Overhead(buf) < block
  }

  function PadLen(buf: seq<u8>, block: nat): nat
    requires Pads(buf, block)
  {
    block - |buf| - Overhead(buf)
  }

  /** The padding option; both length casts keep 16 bits. */
  function PaddingOption(pad: nat): seq<u8> {
    ToBe16(OPTION_PADDING) + ToBe16(pad) + Zeros(pad)
  }

  function Padded(buf: seq<u8>, block: nat): seq<u8>
    requires |buf| >= HEADER && Pads(buf, block)
  {
    var n, pad := |buf|, PadLen(buf, block);
    if LooksLikeOpt(buf) then
      buf[..n - 2] + ToBe16(Be16(buf[n - 2], buf[n - 1]) + 4 + pad) + PaddingOption(pad)
    else
      buf[..10] + ToBe16(Be16(buf[10], buf[11]) + 1) + buf[12..]
      + [0, 0, 41, 16, 0, 0, 0, 0, 0] + ToBe16(4 + pad) + PaddingOption(pad)
  }

  method PadQuery(buf: seq<u8>, block: nat) returns (ok: bool, out: seq<u8>)
    requires |buf| >= HEADER
    ensures ok <==> Pads(buf, block)
    ensures out == if ok then Padded(buf, block) else buf
  {
    hide ToBe16, Be16, Zeros;
    out := buf;
    if block == 0 || |out| >= block {
      return false, out;
    }
    var hasEdns := |out| >= OPT_HEADER + 4 && out[|out| - 11] == 0 && Be16(out[|out| - 10], out[|out| - 9]) == OPT_TYPE;
    var current := |out| + if hasEdns then 4 else 15;
    if current >= block {
      return false, out;
    }
    var pad := block - current;
    if hasEdns {
      var at := |out| - 2;
      var rdlen := ToBe16(Be16(out[at], out[at + 1]) + 4 + pad);
      out := out[at := rdlen[0]];
      out := out[at + 1 := rdlen[1]];
      assert out == buf[..at] + rdlen;
    } else {
      var arcount := ToBe16(Be16(out[10], out[11]) + 1);
      out := out[10 := arcount[0]];
      out := out[11 := arcount[1]];
      assert out == buf[..10] + arcount + buf[12..];
      out := out + [0, 0, 41, 16, 0, 0, 0, 0, 0];
      out := out + ToBe16(4 + pad);
    }
    ghost var front := out;
    out := out + ToBe16(OPTION_PADDING);
    out := out + ToBe16(pad);
    out := out + Zeros(pad);
    assert out == front + PaddingOption(pad);
    ok := true;
  }

  /** A well-formed OPT record holding only padding runs from `at` to the end of `msg`. */
  ghost predicate PaddingOptAt(msg: seq<u8>, at: nat) {
    && at + 15 <= |msg|
    && msg[at] == 0 && Be16(msg[at + 1], msg[at + 2]) == OPT_TYPE
    && Be16(msg[at + 9], msg[at + 10]) == |msg| - at - OPT_HEADER
    && Be16(msg[at + 11], msg[at + 12]) == OPTION_PADDING
    && Be16(msg[at + 13], msg[at + 14]) == |msg| - at - OPT_HEADER - 4
    && forall i :: at + 15 <= i < |msg| ==> msg[i] == 0
  }

  lemma Be16Of(n: nat)
    ensures var b := ToBe16(n); Be16(b[0], b[1]) == n % 0x1_0000
  {
    DivDiv(n, 256, 256);
  }

  lemma TailOctets(pre: seq<u8>, rd: nat, pad: nat)
    ensures var m, k := pre + ToBe16(rd) + PaddingOption(pad), |pre|;
            && |m| == k + 6 + pad && m[..k] == pre
            && Be16(m[k], m[k + 1]) == rd % 0x1_0000
            && Be16(m[k + 2], m[k + 3]) == OPTION_PADDING
            && Be16(m[k + 4], m[k + 5]) == pad % 0x1_0000
            && forall i :: k + 6 <= i < |m| ==> m[i] == 0
  {
    var m, k := pre + ToBe16(rd) + PaddingOption(pad), |pre|;
    Be16Of(rd);
    Be16Of(pad);
    assert m == pre + (ToBe16(rd) + ToBe16(OPTION_PADDING) + ToBe16(pad)) + Zeros(pad);
  }

  lemma TailIsOpt(pre: seq<u8>, pad: nat)
    requires |pre| >= 9 && pre[|pre| - 9] == 0 && Be16(pre[|pre| - 8], pre[|pre| - 7]) == OPT_TYPE
    ensures PaddingOptAt(pre + ToBe16(4 + pad) + PaddingOption(pad), |pre| - 9) <==> pad + 4 < 0x1_0000
  {
    hide ToBe16, PaddingOption, Be16;
    TailOctets(pre, 4 + pad, pad);
    var m, k := pre + ToBe16(4 + pad) + PaddingOption(pad), |pre|;
    assert forall i :: 0 <= i < k ==> m[i] == m[..k][i];
  }

  /** A message with no trailing OPT gains one whose two lengths match what follows (exactly when
      they fit 16 bits); the header keeps everything but ARCOUNT, the body is untouched, and the
      total is exactly the block. */
  lemma PaddingAddsOpt(buf: seq<u8>, block: nat)
    requires |buf| >= HEADER && Pads(buf, block) && !LooksLikeOpt(buf)
    ensures var out, n := Padded(buf, block), |buf|;
            && |out| == block
            && out[..10] == buf[..10] && out[12..n] == buf[12..] && out[n..n + 9] == [0, 0, 41, 16, 0, 0, 0, 0, 0]
            && Be16(out[10], out[11]) == (Be16(buf[10], buf[11]) + 1) % 0x1_0000
            && (PaddingOptAt(out, n) <==> PadLen(buf, block) + 4 < 0x1_0000)
  {
    var n, pad, count := |buf|, PadLen(buf, block), Be16(buf[10], buf[11]) + 1;
    Be16Of(count);
    var front := buf[..10] + ToBe16(count) + buf[12..];
    var pre := front + [0, 0, 41, 16, 0, 0, 0, 0, 0];
    assert pre[n] == 0 && pre[n + 1] == 0 && pre[n + 2] == 41;
    assert Be16(pre[n + 1], pre[n + 2]) == OPT_TYPE;
    hide Be16, ToBe16;
    assert front[..10] == buf[..10] && front[12..] == buf[12..] && front[10..12] == ToBe16(count);
    hide PaddingOption, PaddingOptAt;
    TailOctets(pre, 4 + pad, pad);
    TailIsOpt(pre, pad);
    var out := Padded(buf, block);
    assert out == pre + ToBe16(4 + pad) + PaddingOption(pad);
    assert out[..n] == out[..n + 9][..n] == front;
    assert out[n..n + 9] == out[..n + 9][n..] == pre[n..] == [0, 0, 41, 16, 0, 0, 0, 0, 0];
    assert out[..10] == out[..n][..10] && out[12..n] == out[..n][12..] && out[10..12] == out[..n][10..12];
    assert out[10] == out[10..12][0] && out[11] == out[10..12][1];
  }

  /** A trailing OPT with empty data is extended in place; nothing before its RDLENGTH changes, and the
      end of a question before it is found where it was. */
  lemma PaddingExtendsOpt(buf: seq<u8>, block: nat)
    requires |buf| >= HEADER && Pads(buf, block) && LooksLikeOpt(buf)
    requires buf[|buf| - 2] == 0 && buf[|buf| - 1] == 0
    ensures var out, n := Padded(buf, block), |buf|;
            && |out| == block && out[..n - 2] == buf[..n - 2]
            && (PaddingOptAt(out, n - OPT_HEADER) <==> PadLen(buf, block) + 4 < 0x1_0000)
            && (ScanFrom(buf, HEADER).Ok? && ScanFrom(buf, HEADER).value <= n - OPT_HEADER ==>
                  ScanFrom(out, HEADER) == ScanFrom(buf, HEADER))
  {
    hide PaddingOption, PaddingOptAt, ToBe16, ScanFrom;
    var pad, pre, out := PadLen(buf, block), buf[..|buf| - 2], Padded(buf, block);
    TailOctets(pre, 4 + pad, pad);
    TailIsOpt(pre, pad);
    if ScanFrom(buf, HEADER).Ok? && ScanFrom(buf, HEADER).value <= |buf| - OPT_HEADER {
      ScanBound(buf, HEADER);
      var end := ScanFrom(buf, HEADER).value;
      forall i | HEADER <= i < end - 4 ensures buf[i] == out[i] {
        assert out[i] == out[..|buf| - 2][i];
      }
      ScanLocal(buf, out, HEADER, end);
    }
  }

  /** Padding a second time changes nothing. */
  lemma PaddingOnce(buf: seq<u8>, block: nat)
    requires |buf| >= HEADER && Pads(buf, block)
    ensures |Padded(buf, block)| == block && !Pads(Padded(buf, block), block)
  {
  }

  /** On a bare question the scan end and the question survive padding exactly when the
      question's own tail is not mistaken for an OPT record. */
  lemma QuestionSurvivesIff(buf: seq<u8>, block: nat)
    requires ScanFrom(buf, HEADER) == Ok(|buf|)
    requires Pads(buf, block) && PadLen(buf, block) + 4 < 0x1_0000
    ensures |buf| >= HEADER && (Padded(buf, block)[HEADER..|buf|] == buf[HEADER..] <==> !LooksLikeOpt(buf))
    ensures ScanFrom(Padded(buf, block), HEADER) == Ok(|buf|)
  {
    hide ScanFrom, PaddingOption, PaddingOptAt, ToBe16;
    var n := |buf|;
    ScanBound(buf, HEADER);
    var out := Padded(buf, block);
    if LooksLikeOpt(buf) {
      ClassOverwritten(buf, block);
    } else {
      PaddingAddsOpt(buf, block);
      forall i | HEADER <= i < n ensures out[i] == buf[i] {
        assert out[i] == out[12..n][i - 12] && buf[i] == buf[12..][i - 12];
      }
    }
    ScanLocal(buf, out, HEADER, n);
  }

  /** Taken for an OPT record, a question loses its class: the last two octets become a length. */
  lemma ClassOverwritten(buf: seq<u8>, block: nat)
    requires |buf| >= HEADER + 2 && Pads(buf, block) && LooksLikeOpt(buf) && PadLen(buf, block) + 4 < 0x1_0000
    ensures var out, n := Padded(buf, block), |buf|;
            && |out| == block && out[HEADER..n] != buf[HEADER..]
            && forall i :: 0 <= i < n - 2 ==> out[i] == buf[i]
  {
    hide PaddingOption, ToBe16, Be16;
    var out, n, pad := Padded(buf, block), |buf|, PadLen(buf, block);
    var rd, pre := Be16(buf[n - 2], buf[n - 1]), buf[..n - 2];
    TailOctets(pre, rd + 4 + pad, pad);
    assert forall i :: 0 <= i < n - 2 ==> out[i] == out[..n - 2][i];
    Be16Small(buf[n - 2], buf[n - 1]);
    assert Be16(out[n - 2], out[n - 1]) != rd;
    assert out[HEADER..n][n - 2 - HEADER] == out[n - 2] && out[HEADER..n][n - 1 - HEADER] == out[n - 1];
    assert buf[HEADER..][n - 2 - HEADER] == buf[n - 2] && buf[HEADER..][n - 1 - HEADER] == buf[n - 1];
  }

  lemma Be16Small(hi: u8, lo: u8)
    ensures Be16(hi, lo) < 0x1_0000
  {
  }

  /** Such questions exist: one label ending in 00 00 29 and three more octets. */
  lemma MistakenQuestion() returns (buf: seq<u8>)
    ensures ValidateQuery(buf).Ok? && ScanFrom(buf, HEADER) == Ok(|buf|) && LooksLikeOpt(buf) && Pads(buf, 128)
  {
    buf := [0, 0, 1, 0, 0, 1, 0, 0, 0, 0, 0, 0] + [6, 0, 0, 41, 65, 66, 67] + [0, 0, 1, 0, 1];
    assert buf[12] == 6 && buf[19] == 0;
    assert ScanFrom(buf, 19) == Ok(24);
  }

  // ----- how many OPT records -----

  /** The number of records from `pos` to the end when all of them are OPT records. */
  function OptsFrom(msg: seq<u8>, pos: nat): Option<nat>
    decreases |msg| - pos
  {
    if pos == |msg| then Some(0)
    else if pos + OPT_HEADER > |msg| || msg[pos] != 0 || Be16(msg[pos + 1], msg[pos + 2]) != OPT_TYPE then None
    else
      var next := pos + OPT_HEADER + Be16(msg[pos + 9], msg[pos + 10]);
      if next > |msg| then None
      else
        match OptsFrom(msg, next)
        case None => None
        case Some(n) => Some(n + 1)
  }

  lemma PaddingOptCounts(msg: seq<u8>, at: nat)
    requires PaddingOptAt(msg, at)
    ensures OptsFrom(msg, at) == Some(1)
  {
    hide Be16;
    assert OptsFrom(msg, |msg|) == Some(0);
  }

  /** The tail `pad_query` writes is not itself an OPT record. */
  lemma OptionIsNoOpt(msg: seq<u8>, at: nat)
    requires at + 4 <= |msg| && msg[at..at + 2] == ToBe16(OPTION_PADDING)
    ensures OptsFrom(msg, at) == None
  {
    assert msg[at] == msg[at..at + 2][0] && msg[at + 1] == msg[at..at + 2][1];
    assert msg[at + 1] == 12;
    assert Be16(msg[at + 1], msg[at + 2]) >= 12 * 256;
  }

  /** One OPT record of `rdlen` data octets follows the question. */
  ghost predicate SoleOpt(buf: seq<u8>, end: nat) {
    && end + OPT_HEADER <= |buf| && buf[end] == 0 && Be16(buf[end + 1], buf[end + 2]) == OPT_TYPE
    && end + OPT_HEADER + Be16(buf[end + 9], buf[end + 10]) == |buf|
  }

  lemma SoleOptIff(buf: seq<u8>, end: nat)
    requires end <= |buf|
    ensures OptsFrom(buf, end) == Some(1) <==> SoleOpt(buf, end)
    ensures OptsFrom(buf, end) == Some(0) <==> end == |buf|
  {
    hide Be16;
    assert OptsFrom(buf, |buf|) == Some(0);
    if end + OPT_HEADER <= |buf| {
      Be16Small(buf[end + 9], buf[end + 10]);
      var next := end + OPT_HEADER + Be16(buf[end + 9], buf[end + 10]);
      if next <= |buf| && OptsFrom(buf, next) == Some(0) {
        assert next == |buf|;
      }
    }
  }

  /** Before the last two octets nothing in the body changes, so the question ends where it did. */
  lemma BodyKept(buf: seq<u8>, block: nat, end: nat)
    requires ScanFrom(buf, HEADER) == Ok(end) && end <= |buf| && Pads(buf, block)
    ensures |buf| >= HEADER && |Padded(buf, block)| == block
    ensures forall i :: HEADER <= i < |buf| - 2 ==> Padded(buf, block)[i] == buf[i]
    ensures !LooksLikeOpt(buf) ==> forall i :: HEADER <= i < |buf| ==> Padded(buf, block)[i] == buf[i]
    ensures ScanFrom(Padded(buf, block), HEADER) == Ok(end)
  {
    hide ScanFrom, ToBe16, Be16, PaddingOption;
    ScanBound(buf, HEADER);
    var out, n := Padded(buf, block), |buf|;
    PaddingOnce(buf, block);
    if LooksLikeOpt(buf) {
      assert out[..n - 2] == buf[..n - 2];
      assert forall i :: 0 <= i < n - 2 ==> out[i] == out[..n - 2][i];
    } else {
      PaddingAddsOpt(buf, block);
      forall i | HEADER <= i < n ensures out[i] == buf[i] {
        assert out[i] == out[12..n][i - 12] && buf[i] == buf[12..][i - 12];
      }
    }
    ScanLocal(buf, out, HEADER, end);
  }

  lemma OptionFollows(buf: seq<u8>, block: nat)
    requires |buf| >= HEADER && Pads(buf, block) && LooksLikeOpt(buf)
    ensures |Padded(buf, block)| == block && OptsFrom(Padded(buf, block), |buf|) == None
  {
    hide OptsFrom, Be16;
    var out, n := Padded(buf, block), |buf|;
    var pad := PadLen(buf, block);
    var front := buf[..n - 2] + ToBe16(Be16(buf[n - 2], buf[n - 1]) + 4 + pad);
    assert out == front + PaddingOption(pad) && |front| == n;
    assert out[n..] == PaddingOption(pad);
    assert out[n..n + 2] == out[n..][..2] == ToBe16(OPTION_PADDING);
    OptionIsNoOpt(out, n);
  }

  /** An OPT record kept as it was is counted before whatever follows it. */
  lemma KeptOptCounts(buf: seq<u8>, out: seq<u8>, end: nat)
    requires SoleOpt(buf, end) && |buf| <= |out|
    requires forall i :: end <= i < end + OPT_HEADER ==> out[i] == buf[i]
    ensures OptsFrom(out, end)
            == match OptsFrom(out, |buf|) case None => None case Some(n) => Some(n + 1)
  {
    hide Be16;
    assert out[end] == buf[end] && out[end + 1] == buf[end + 1] && out[end + 2] == buf[end + 2];
    assert out[end + 9] == buf[end + 9] && out[end + 10] == buf[end + 10];
  }

  lemma EmptyOptLooks(buf: seq<u8>, end: nat)
    requires SoleOpt(buf, end) && end >= HEADER
    ensures end + OPT_HEADER == |buf| ==> LooksLikeOpt(buf) && buf[|buf| - 2] == 0 && buf[|buf| - 1] == 0
    ensures LooksLikeOpt(buf) ==> end + OPT_HEADER == |buf| || end + OPT_HEADER + 2 <= |buf|
  {
  }

  /** A query whose additional section holds at most an OPT record has exactly one after padding, if and
      only if it had none and does not end like one, or had one without data. */
  lemma OneOptIff(buf: seq<u8>, block: nat, end: nat)
    requires ScanFrom(buf, HEADER) == Ok(end) && end <= |buf|
    requires OptsFrom(buf, end) == Some(0) || OptsFrom(buf, end) == Some(1)
    requires Pads(buf, block) && PadLen(buf, block) + 4 < 0x1_0000
    ensures |buf| >= HEADER && ScanFrom(Padded(buf, block), HEADER) == Ok(end)
    ensures end <= |Padded(buf, block)|
    ensures OptsFrom(Padded(buf, block), end) == Some(1) <==>
            if OptsFrom(buf, end) == Some(0) then !LooksLikeOpt(buf) else end + OPT_HEADER == |buf|
    ensures OptsFrom(buf, end) == Some(1) && !LooksLikeOpt(buf) ==> OptsFrom(Padded(buf, block), end) == Some(2)
  {
    hide ScanFrom, OptsFrom, Padded, LooksLikeOpt, Be16, PaddingOptAt, SoleOpt;
    ScanBound(buf, HEADER);
    BodyKept(buf, block, end);
    SoleOptIff(buf, end);
    var out, n := Padded(buf, block), |buf|;
    if LooksLikeOpt(buf) {
      OptionFollows(buf, block);
    } else {
      PaddingAddsOpt(buf, block);
      PaddingOptCounts(out, n);
    }
    if OptsFrom(buf, end) == Some(1) {
      OptFits(buf, end);
      EmptyOptLooks(buf, end);
      if end + OPT_HEADER == n {
        PaddingExtendsOpt(buf, block);
        PaddingOptCounts(out, end);
      } else {
        KeptOptCounts(buf, out, end);
      }
    }
  }

  lemma OptFits(buf: seq<u8>, end: nat)
    requires SoleOpt(buf, end)
    ensures end + OPT_HEADER <= |buf|
  {
  }

  /** A query with a cookie in its OPT record gets a second OPT record, against section 6.1.1 of
      RFC 6891. */
  lemma CookieGetsSecondOpt() returns (buf: seq<u8>)
    ensures ValidateQuery(buf).Ok? && ScanFrom(buf, HEADER) == Ok(17) && OptsFrom(buf, 17) == Some(1)
    ensures Pads(buf, 128) && OptsFrom(Padded(buf, 128), 17) == Some(2)
  {
    buf := [0, 0, 1, 0, 0, 1, 0, 0, 0, 0, 0, 1] + [0, 0, 1, 0, 1]
           + [0, 0, 41, 16, 0, 0, 0, 0, 0, 0, 12] + [0, 10, 0, 8, 1, 2, 3, 4, 5, 6, 7, 8];
    assert |buf| == 40;
    assert SoleOpt(buf, 17);
    SoleOptIff(buf, 17);
    OneOptIff(buf, 128, 17);
  }
}
