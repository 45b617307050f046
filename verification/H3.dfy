/** The HTTP/3 client layer (pkgs/microdoh3/src/h3.rs): per-stream state, chunked feeding and
    the events a run of the layer emits. */
module H3 {
  import opened Bytes
  import opened Frames
  import opened Qpack

  const FRAME_DATA: nat := 0
  const FRAME_HEADERS: nat := 1
  const FRAME_GOAWAY: nat := 7
  const STREAM_TYPE_CONTROL: nat := 0

  datatype StreamState =
    | ServerUni(ty: Option<nat>, buf: seq<u8>)
    | Sink
    | Response(pending: seq<u8>, reply: Reply)

  /** What the complete frames of a response stream add up to. */
  datatype Reply = Reply(status: Option<nat>, body: seq<u8>, gotData: bool, failed: bool)

  datatype Event = ResponseEvent(stream: nat, body: seq<u8>) | FailedEvent(stream: nat) | GoawayEvent

  const NO_REPLY := Reply(None, [], false, false)

  // ----- status -----

  /** ":status" */
  const STATUS_NAME: seq<u8> := [58, 115, 116, 97, 116, 117, 115]

  predicate IsDigit(b: u8) { 48 <= b <= 57 }

  function Digits(acc: nat, v: seq<u8>): nat
    decreases |v|
  {
    if v == [] then acc else Digits(acc * 10 + (v[0] as int - 48) % 10, v[1..])
  }

  /** `str::parse::<u16>` with 0 on failure: optional plus sign, digits only, below 65536. */
  function ParseU16(v: seq<u8>): (n: nat)
    ensures n < 0x1_0000
  {
    var d := Unsigned(v);
    if d == [] || !AllDigits(d) then 0
    else if Digits(0, d) < 0x1_0000 then Digits(0, d) else 0
  }

  function Unsigned(v: seq<u8>): seq<u8> { if v != [] && v[0] == 43 then v[1..] else v }

  predicate AllDigits(v: seq<u8>) { forall i :: 0 <= i < |v| ==> IsDigit(v[i]) }

  ghost function FindStatus(lines: seq<Result<FieldLine, QpackError>>): Result<nat, QpackError> {
    if lines == [] then Ok(0)
    else
      match lines[0]
      case Err(e) => Err(e)
      case Ok(line) =>
        if line.name != STATUS_NAME then FindStatus(lines[1..])
        else
          match ValueBytes(line.value)
          case Err(e) => Err(e)
          case Ok(v) => Ok(ParseU16(v))
  }

  ghost function StatusOf(table: StaticTable, section: seq<u8>): Result<nat, QpackError> {
    match SectionStart(section)
    case Err(e) => Err(e)
    case Ok(pos) => FindStatus(Lines(table, section, pos))
  }

  /** The decimal rendering of a number. */
  function Decimal(n: nat): (v: seq<u8>)
    ensures v != [] && AllDigits(v)
  {
    if n < 10 then [48 + n] else Decimal(n / 10) + [48 + n % 10]
  }

  /** The number a string of digits writes: ten times the number before the last digit, plus that digit. */
  function Number(v: seq<u8>): nat
    requires AllDigits(v)
  {
    if v == [] then 0
    else
      assert IsDigit(v[|v| - 1]);
      10 * Number(v[..|v| - 1]) + (v[|v| - 1] as int - 48)
  }

  lemma {:induction false} DigitsSnoc(acc: nat, v: seq<u8>, d: u8)
    ensures Digits(acc, v + [d]) == 10 * Digits(acc, v) + (d as int - 48) % 10
    decreases |v|
  {
    if v == [] {
      assert ([] + [d])[1..] == [];
    } else {
      assert (v + [d])[1..] == v[1..] + [d];
      DigitsSnoc(acc * 10 + (v[0] as int - 48) % 10, v[1..], d);
    }
  }

  lemma {:induction false} DigitsAreNumber(v: seq<u8>)
    requires AllDigits(v)
    ensures Digits(0, v) == Number(v)
  {
    if v != [] {
      var init, d := v[..|v| - 1], v[|v| - 1];
      DigitsAreNumber(init);
      assert v == init + [d];
      DigitsSnoc(0, init, d);
    }
  }

  /** A status text is read as the number it writes, after an optional plus sign; anything else, and
      anything from 65536 on, is read as 0. */
  lemma ParseU16Is(v: seq<u8>)
    ensures v != [] && AllDigits(v) ==> ParseU16(v) == if Number(v) < 0x1_0000 then Number(v) else 0
    ensures (v == [] || v == [43] || exists i :: 0 < i < |v| && !IsDigit(v[i])) ==> ParseU16(v) == 0
    ensures v != [] && !IsDigit(v[0]) && v[0] != 43 ==> ParseU16(v) == 0
    ensures |v| > 1 && v[0] == 43 && AllDigits(v[1..]) ==> ParseU16(v) == ParseU16(v[1..])
  {
    hide ParseU16, Number;
    if v != [] && AllDigits(v) {
      ParseDigits(v);
    }
    if exists i :: 0 < i < |v| && !IsDigit(v[i]) {
      var i :| 0 < i < |v| && !IsDigit(v[i]);
      ParseBad(v, i);
    } else if v == [] || v == [43] {
      ParseNothing();
    }
    if v != [] && !IsDigit(v[0]) && v[0] != 43 {
      ParseBad(v, 0);
    }
    if |v| > 1 && v[0] == 43 && AllDigits(v[1..]) {
      ParseSigned(v[1..]);
      assert v == [43] + v[1..];
    }
  }

  lemma ParseDigits(v: seq<u8>)
    requires v != [] && AllDigits(v)
    ensures ParseU16(v) == if Number(v) < 0x1_0000 then Number(v) else 0
  {
    hide Number, Digits;
    assert IsDigit(v[0]);
    DigitsAreNumber(v);
  }

  lemma ParseBad(v: seq<u8>, i: nat)
    requires i < |v| && !IsDigit(v[i]) && (i == 0 ==> v[0] != 43)
    ensures ParseU16(v) == 0
  {
    var d := Unsigned(v);
    var k := if v[0] == 43 then i - 1 else i;
    assert d[k] == v[i];
    assert !AllDigits(d);
  }

  lemma ParseNothing()
    ensures ParseU16([]) == 0 && ParseU16([43]) == 0
  {
    assert [43][1..] == [];
  }

  lemma ParseSigned(v: seq<u8>)
    requires v != [] && AllDigits(v)
    ensures ParseU16([43] + v) == ParseU16(v)
  {
    hide Digits;
    assert ([43] + v)[1..] == v && IsDigit(v[0]);
  }

  lemma {:induction false} NumberOfDecimal(n: nat)
    ensures Number(Decimal(n)) == n
  {
    if n < 10 {
      assert Number([]) == 0;
      assert [48 + n][..0] == [];
    } else {
      NumberOfDecimal(n / 10);
      var init := Decimal(n / 10);
      assert Decimal(n)[..|init|] == init;
    }
  }

  /** Every 16-bit number in decimal is read back. */
  lemma DecimalRoundTrip(n: nat)
    requires n < 0x1_0000
    ensures ParseU16(Decimal(n)) == n
  {
    hide ParseU16, Number;
    NumberOfDecimal(n);
    ParseU16Is(Decimal(n));
  }

  lemma {:induction false} StatusAt(lines: seq<Result<FieldLine, QpackError>>, k: nat, v: seq<u8>)
    requires k < |lines| && lines[k].Ok? && lines[k].value.name == STATUS_NAME
    requires ValueBytes(lines[k].value.value) == Ok(v)
    requires forall i :: 0 <= i < k ==> lines[i].Ok? && lines[i].value.name != STATUS_NAME
    ensures FindStatus(lines) == Ok(ParseU16(v))
    decreases k
  {
    hide ParseU16, ValueBytes;
    if k > 0 {
      assert forall i :: 0 <= i < k - 1 ==> lines[1..][i] == lines[i + 1];
      StatusAt(lines[1..], k - 1, v);
    }
  }

  /** However a section is written, with indexed, named and literal lines in any mixture: the first
      `:status` line decides, and one that writes `n` in decimal gives `n`. */
  lemma StatusReadBack(table: StaticTable, ls: seq<WireLine>, k: nat, n: nat)
    requires AllWritable(table, ls) && k < |ls| && n < 0x1_0000
    requires Meanings(table, ls)[k].value.name == STATUS_NAME
    requires ValueBytes(Meanings(table, ls)[k].value.value) == Ok(Decimal(n))
    requires forall i :: 0 <= i < k ==> Meanings(table, ls)[i].value.name != STATUS_NAME
    ensures StatusOf(table, [0, 0] + WireSection(ls)) == Ok(n)
  {
    hide ValueBytes, ParseU16, Decimal, FindStatus, SectionStart, Lines, WireSection;
    EmptyInsertCount(WireSection(ls));
    WireLinesReadBack(table, [0, 0], ls);
    StatusAt(Meanings(table, ls), k, Decimal(n));
    DecimalRoundTrip(n);
  }

  /** The usual answer: one indexed line, entry 25 of the static table of RFC 9204. */
  lemma UsualStatus(table: StaticTable)
    requires |table| > 25 && table[25] == (STATUS_NAME, [50, 48, 48])
    ensures StatusOf(table, [0, 0, 0xD9]) == Ok(200)
  {
    var ls := [Entry(25)];
    assert ls[1..] == [];
    assert WireSection(ls) == [0xD9] by {
      assert Pow2(6) == 64 by { EightAndSeven(); }
      assert WireSection([]) == [];
      assert WireBytes(Entry(25)) == [0xD9];
    }
    assert [0, 0] + [0xD9] == [0, 0, 0xD9];
    assert Decimal(200) == [50, 48, 48] by { assert Decimal(2) == [50] && Decimal(20) == [50, 48]; }
    StatusReadBack(table, ls, 0, 200);
  }

  method ParseStatus(table: StaticTable, section: seq<u8>) returns (r: Result<nat, QpackError>)
    ensures r == StatusOf(table, section)
  {
    hide SectionStart, DecodeLine, ValueBytes, ParseU16;
    var dec := Decoder.New(table, section);
    if dec.Err? {
      return Err(dec.error);
    }
    var d := dec.value;
    while true
      invariant d.Valid() && fresh(d) && d.buf == section && d.table == table
      invariant FindStatus(Lines(table, section, d.pos)) == StatusOf(table, section)
      decreases |section| - d.pos
    {
      ghost var at := d.pos;
      var line := d.Next();
      if line.None? {
        return Ok(0);
      }
      assert Lines(table, section, at)[1..] == Lines(table, section, d.pos);
      if line.value.Err? {
        return Err(line.value.error);
      }
      if line.value.value.name == STATUS_NAME {
        var v := DecodeValue(line.value.value.value);
        if v.Err? {
          return Err(v.error);
        }
        return Ok(ParseU16(v.value));
      }
    }
  }

  // ----- response streams -----

  /** Effect of one complete frame on a response. */
  ghost function Absorb(table: StaticTable, r: Reply, f: Frame): Reply {
    if f.ty == FRAME_HEADERS then
      match StatusOf(table, f.payload)
      case Ok(code) => r.(status := Some(code))
      case Err(_) => r.(failed := true)
    else if f.ty == FRAME_DATA then r.(body := r.body + f.payload, gotData := true)
    else r
  }

  ghost function AbsorbAll(table: StaticTable, r: Reply, fs: seq<Frame>): Reply
    decreases |fs|
  {
    if fs == [] then r else AbsorbAll(table, Absorb(table, r, fs[0]), fs[1..])
  }

  ghost function FeedResponse(table: StaticTable, pending: seq<u8>, r: Reply, data: seq<u8>): StreamState {
    Response(Leftover(pending + data), AbsorbAll(table, r, Frames.Frames(pending + data)))
  }

  // ----- server streams -----

  datatype Fed = Fed(state: StreamState, goaways: nat)

  function GoawayCount(fs: seq<Frame>): nat {
    if fs == [] then 0 else (if fs[0].ty == FRAME_GOAWAY then 1 else 0) + GoawayCount(fs[1..])
  }

  /** `process_server_uni`: only a control stream is parsed. */
  function ProcessUni(ty: Option<nat>, buf: seq<u8>): Fed {
    if ty != Some(STREAM_TYPE_CONTROL) then Fed(ServerUni(ty, buf), 0)
    else Fed(ServerUni(ty, Leftover(buf)), GoawayCount(Frames.Frames(buf)))
  }

  /** A server stream chunk. While the type is unknown it is looked for at the front of the new
      chunk first, and only then at the front of everything buffered. */
  function FeedUni(ty: Option<nat>, buf: seq<u8>, data: seq<u8>): Fed {
    if ty.Some? then ProcessUni(ty, buf + data)
    else
      match DecodeVarint(data)
      case Some((t, n)) =>
        if t == STREAM_TYPE_CONTROL then ProcessUni(Some(t), buf + data[n..]) else Fed(Sink, 0)
      case None =>
        if data == [] then Fed(ServerUni(None, buf), 0)
        else
          match DecodeVarint(buf + data)
          case None => Fed(ServerUni(None, buf + data), 0)
          case Some((t, n)) =>
            if t == STREAM_TYPE_CONTROL then ProcessUni(Some(t), (buf + data)[n..]) else Fed(Sink, 0)
  }

  ghost function FeedStream(table: StaticTable, st: StreamState, data: seq<u8>): Fed {
    match st
    case Sink => Fed(Sink, 0)
    case ServerUni(ty, buf) => FeedUni(ty, buf, data)
    case Response(pending, r) => Fed(FeedResponse(table, pending, r, data), 0)
  }

  // ----- calls on the layer -----

  type Streams = map<nat, StreamState>

  datatype Call = Register(stream: nat) | Feed(stream: nat, data: seq<u8>) | Finish(stream: nat) | Reset(stream: nat)

  function StateOf(streams: Streams, stream: nat): StreamState {
    if stream in streams then streams[stream] else ServerUni(None, [])
  }

  ghost function CallStreams(table: StaticTable, streams: Streams, call: Call): Streams {
    match call
    case Register(s) => streams[s := Response([], NO_REPLY)]
    case Feed(s, data) => streams[s := FeedStream(table, StateOf(streams, s), data).state]
    case Finish(s) => streams - {s}
    case Reset(s) => streams - {s}
  }

  function Goaways(n: nat): (r: seq<Event>)
    ensures forall e :: e in r ==> e == GoawayEvent
    ensures |r| == n
  {
    if n == 0 then [] else Goaways(n - 1) + [GoawayEvent]
  }

  /** The event when a response stream ends. */
  function Verdict(stream: nat, r: Reply): Event {
    if !r.failed && r.gotData && r.status == Some(200) then ResponseEvent(stream, r.body)
    else FailedEvent(stream)
  }

  ghost function CallEvents(table: StaticTable, streams: Streams, call: Call): seq<Event> {
    match call
    case Register(_) => []
    case Feed(s, data) => Goaways(FeedStream(table, StateOf(streams, s), data).goaways)
    case Finish(s) =>
      if s in streams && streams[s].Response? then [Verdict(s, streams[s].reply)] else []
    case Reset(s) =>
      if s in streams && streams[s].Response? && !streams[s].reply.failed then [FailedEvent(s)] else []
  }

  class Layer {
    const table: StaticTable
    var streams: Streams
    var goaway: bool

    constructor (table: StaticTable)
      ensures streams == map[] && !goaway && this.table == table
    {
      this.table, streams, goaway := table, map[], false;
    }

    method RegisterRequest(stream: nat)
      modifies this
      ensures streams == CallStreams(table, old(streams), Register(stream)) && goaway == old(goaway)
    {
      streams := streams[stream := Response([], Reply(None, [], false, false))];
    }

    method FeedData(stream: nat, data: seq<u8>, events: seq<Event>) returns (events': seq<Event>)
      modifies this
      ensures streams == CallStreams(table, old(streams), Feed(stream, data))
      ensures events' == events + CallEvents(table, old(streams), Feed(stream, data))
      ensures goaway == (old(goaway) || FeedStream(table, StateOf(old(streams), stream), data).goaways > 0)
    {
      hide FeedUni, FeedResponse;
      var st := StateOf(streams, stream);
      var n := 0;
      match st {
        case Sink =>
        case ServerUni(ty, buf) => st, n := FeedServer(ty, buf, data);
        case Response(pending, r) => st := FeedBody(pending, r, data);
      }
      streams := streams[stream := st];
      events' := events;
      for i := 0 to n
        invariant events' == events + Goaways(i)
      {
        events' := events' + [GoawayEvent];
      }
      goaway := goaway || n > 0;
    }

    method FeedServer(ty: Option<nat>, buf: seq<u8>, data: seq<u8>) returns (st: StreamState, n: nat)
      ensures Fed(st, n) == FeedUni(ty, buf, data)
    {
      hide ProcessUni, DecodeVarint;
      if ty.Some? {
        st, n := ProcessServerUni(ty, buf + data);
        return;
      }
      var head := VarintDecode(data);
      if head.Some? {
        var (t, k) := head.value;
        if t == STREAM_TYPE_CONTROL {
          st, n := ProcessServerUni(Some(t), buf + data[k..]);
        } else {
          st, n := Sink, 0;
        }
      } else if data == [] {
        st, n := ServerUni(None, buf), 0;
      } else {
        var all := buf + data;
        var buffered := VarintDecode(all);
        if buffered.None? {
          st, n := ServerUni(None, all), 0;
        } else {
          var (t, k) := buffered.value;
          if t == STREAM_TYPE_CONTROL {
            st, n := ProcessServerUni(Some(t), all[k..]);
          } else {
            st, n := Sink, 0;
          }
        }
      }
    }

    method ProcessServerUni(ty: Option<nat>, buf: seq<u8>) returns (st: StreamState, n: nat)
      ensures Fed(st, n) == ProcessUni(ty, buf)
    {
      hide HeadFrame;
      n := 0;
      if ty != Some(STREAM_TYPE_CONTROL) {
        st := ServerUni(ty, buf);
        return;
      }
      var parser := new FrameParser(buf);
      var f := parser.NextFrame();
      while f.Some?
        invariant fresh(parser)
        invariant f.None? ==> HeadFrame(parser.buf).None?
        invariant n + GoawayCount((if f.Some? then [f.value] else []) + Frames.Frames(parser.buf))
                  == GoawayCount(Frames.Frames(buf))
        invariant Leftover(parser.buf) == Leftover(buf)
        decreases |parser.buf|, f.Some?
      {
        if f.value.ty == FRAME_GOAWAY {
          n := n + 1;
        }
        assert ([f.value] + Frames.Frames(parser.buf))[1..] == Frames.Frames(parser.buf);
        ghost var rest := parser.buf;
        f := parser.NextFrame();
        assert Frames.Frames(rest) == (if f.Some? then [f.value] else []) + Frames.Frames(parser.buf);
      }
      st := ServerUni(ty, parser.buf);
    }

    method FeedBody(pending: seq<u8>, r: Reply, data: seq<u8>) returns (st: StreamState)
      ensures st == FeedResponse(table, pending, r, data)
    {
      hide HeadFrame, StatusOf;
      var parser := new FrameParser(pending);
      parser.Feed(data);
      var cur := r;
      var f := parser.NextFrame();
      ghost var all := pending + data;
      while f.Some?
        invariant fresh(parser)
        invariant f.None? ==> HeadFrame(parser.buf).None?
        invariant AbsorbAll(table, cur, (if f.Some? then [f.value] else []) + Frames.Frames(parser.buf))
               == AbsorbAll(table, r, Frames.Frames(all))
        invariant Leftover(parser.buf) == Leftover(all)
        decreases |parser.buf|, f.Some?
      {
        ghost var was := cur;
        if f.value.ty == FRAME_HEADERS {
          var code := ParseStatus(table, f.value.payload);
          match code {
            case Ok(c) => cur := cur.(status := Some(c));
            case Err(_) => cur := cur.(failed := true);
          }
        } else if f.value.ty == FRAME_DATA {
          cur := cur.(body := cur.body + f.value.payload, gotData := true);
        }
        assert cur == Absorb(table, was, f.value);
        assert ([f.value] + Frames.Frames(parser.buf))[1..] == Frames.Frames(parser.buf);
        ghost var rest := parser.buf;
        f := parser.NextFrame();
        assert Frames.Frames(rest) == (if f.Some? then [f.value] else []) + Frames.Frames(parser.buf);
      }
      st := Response(parser.buf, cur);
    }

    method FinishStream(stream: nat, events: seq<Event>) returns (events': seq<Event>)
      modifies this
      ensures streams == CallStreams(table, old(streams), Finish(stream)) && goaway == old(goaway)
      ensures events' == events + CallEvents(table, old(streams), Finish(stream))
    {
      events' := events;
      if stream in streams {
        match streams[stream] {
          case Response(_, Reply(status, body, gotData, failed)) =>
            if failed {
              events' := events + [FailedEvent(stream)];
            } else if gotData && status == Some(200) {
              events' := events + [ResponseEvent(stream, body)];
            } else {
              events' := events + [FailedEvent(stream)];
            }
          case _ =>
        }
      }
      streams := streams - {stream};
    }

    method ResetStream(stream: nat, events: seq<Event>) returns (events': seq<Event>)
      modifies this
      ensures streams == CallStreams(table, old(streams), Reset(stream)) && goaway == old(goaway)
      ensures events' == events + CallEvents(table, old(streams), Reset(stream))
    {
      events' := events;
      if stream in streams && streams[stream].Response? && !streams[stream].reply.failed {
        events' := events + [FailedEvent(stream)];
      }
      streams := streams - {stream};
    }
  }

  // ----- chunking independence of responses -----

  ghost function FeedChunks(table: StaticTable, st: StreamState, chunks: seq<seq<u8>>): StreamState
    decreases |chunks|
  {
    if chunks == [] then st else FeedChunks(table, FeedStream(table, st, chunks[0]).state, chunks[1..])
  }

  lemma {:induction false} AbsorbAppend(table: StaticTable, r: Reply, fs: seq<Frame>, gs: seq<Frame>)
    ensures AbsorbAll(table, r, fs + gs) == AbsorbAll(table, AbsorbAll(table, r, fs), gs)
    decreases |fs|
  {
    hide Absorb;
    if fs == [] {
      assert fs + gs == gs;
    } else {
      assert (fs + gs)[1..] == fs[1..] + gs;
      AbsorbAppend(table, Absorb(table, r, fs[0]), fs[1..], gs);
    }
  }

  lemma FeedTwice(table: StaticTable, pending: seq<u8>, r: Reply, a: seq<u8>, b: seq<u8>)
    ensures FeedStream(table, FeedResponse(table, pending, r, a), b).state == FeedResponse(table, pending, r, a + b)
  {
    hide Frames.Frames, Leftover, AbsorbAll;
    var all := pending + a;
    FramesExtend(all, b);
    AbsorbAppend(table, r, Frames.Frames(all), Frames.Frames(Leftover(all) + b));
    assert pending + (a + b) == all + b;
  }

  lemma {:induction false} ChunksJoin(table: StaticTable, pending: seq<u8>, r: Reply, chunks: seq<seq<u8>>)
    requires HeadFrame(pending).None?
    ensures FeedChunks(table, Response(pending, r), chunks) == FeedResponse(table, pending, r, Join(chunks))
    decreases |chunks|
  {
    hide HeadFrame, FeedStream, AbsorbAll;
    if chunks == [] {
      assert pending + [] == pending;
      NothingToAbsorb(table, r);
    } else {
      OneFeed(table, pending, r, chunks[0]);
      var st := FeedResponse(table, pending, r, chunks[0]);
      LeftoverStuck(pending + chunks[0]);
      ChunksJoin(table, st.pending, st.reply, chunks[1..]);
      FeedTwice(table, pending, r, chunks[0], Join(chunks[1..]));
      OneFeed(table, st.pending, st.reply, Join(chunks[1..]));
    }
  }

  lemma OneFeed(table: StaticTable, pending: seq<u8>, r: Reply, data: seq<u8>)
    ensures FeedStream(table, Response(pending, r), data).state == FeedResponse(table, pending, r, data)
  {
    hide FeedResponse;
  }

  lemma NothingToAbsorb(table: StaticTable, r: Reply)
    ensures AbsorbAll(table, r, []) == r
  {
  }

  lemma {:induction false} LeftoverStuck(buf: seq<u8>)
    ensures HeadFrame(Leftover(buf)).None?
    decreases |buf|
  {
    hide HeadFrame;
    match HeadFrame(buf)
    case None =>
    case Some((_, n)) => LeftoverStuck(buf[n..]);
  }

  // ----- what a response amounts to -----

  function Bodies(fs: seq<Frame>): seq<u8> {
    if fs == [] then []
    else Bodies(fs[..|fs| - 1]) + if fs[|fs| - 1].ty == FRAME_DATA then fs[|fs| - 1].payload else []
  }

  ghost predicate HasData(fs: seq<Frame>) {
    exists i :: 0 <= i < |fs| && fs[i].ty == FRAME_DATA
  }

  ghost predicate HeadersDecode(table: StaticTable, fs: seq<Frame>) {
    forall i :: 0 <= i < |fs| && fs[i].ty == FRAME_HEADERS ==> StatusOf(table, fs[i].payload).Ok?
  }

  /** The last HEADERS frame is at `k`. */
  ghost predicate LastHeaders(fs: seq<Frame>, k: int) {
    && 0 <= k < |fs| && fs[k].ty == FRAME_HEADERS
    && forall i :: k < i < |fs| ==> fs[i].ty != FRAME_HEADERS
  }

  /** At least one DATA frame, every HEADERS frame decodes, and the last one says 200. */
  ghost predicate Good(table: StaticTable, fs: seq<Frame>) {
    && HasData(fs)
    && HeadersDecode(table, fs)
    && exists k :: LastHeaders(fs, k) && StatusOf(table, fs[k].payload) == Ok(200)
  }

  ghost predicate Tracks(table: StaticTable, fs: seq<Frame>, r: Reply) {
    && r.body == Bodies(fs)
    && (r.gotData <==> HasData(fs))
    && (!r.failed <==> HeadersDecode(table, fs))
    && (r.status == None ==> forall i :: 0 <= i < |fs| && fs[i].ty == FRAME_HEADERS ==>
        StatusOf(table, fs[i].payload).Err?)
    && (!r.failed && r.status.Some? ==>
        exists k :: LastHeaders(fs, k) && StatusOf(table, fs[k].payload) == Ok(r.status.value))
  }

  lemma TrackOne(table: StaticTable, fs: seq<Frame>, f: Frame, r: Reply)
    requires Tracks(table, fs, r)
    ensures Tracks(table, fs + [f], Absorb(table, r, f))
  {
    hide StatusOf;
    var gs, r' := fs + [f], Absorb(table, r, f);
    assert gs[..|fs|] == fs && gs[|fs|] == f;
    assert forall i :: 0 <= i < |fs| ==> gs[i] == fs[i];
    if f.ty == FRAME_DATA {
      assert HasData(gs);
    }
    if f.ty == FRAME_HEADERS {
      assert LastHeaders(gs, |fs|);
    } else if !r.failed && r.status.Some? {
      var k :| LastHeaders(fs, k) && StatusOf(table, fs[k].payload) == Ok(r.status.value);
      assert LastHeaders(gs, k);
    }
  }

  lemma {:induction false} TrackAll(table: StaticTable, fs: seq<Frame>)
    ensures Tracks(table, fs, AbsorbAll(table, NO_REPLY, fs))
  {
    hide Tracks, Absorb;
    if fs == [] {
      TrackNone(table);
    } else {
      var init, last := fs[..|fs| - 1], fs[|fs| - 1];
      TrackAll(table, init);
      assert fs == init + [last];
      AbsorbAppend(table, NO_REPLY, init, [last]);
      TrackOne(table, init, last, AbsorbAll(table, NO_REPLY, init));
    }
  }

  lemma TrackNone(table: StaticTable)
    ensures Tracks(table, [], NO_REPLY)
  {
  }

  lemma GoodIffVerdict(table: StaticTable, fs: seq<Frame>, r: Reply)
    requires Tracks(table, fs, r)
    ensures !r.failed && r.gotData && r.status == Some(200) <==> Good(table, fs)
  {
    hide StatusOf, Bodies;
    if Good(table, fs) {
      var k :| LastHeaders(fs, k) && StatusOf(table, fs[k].payload) == Ok(200);
      if r.status.Some? {
        var j :| LastHeaders(fs, j) && StatusOf(table, fs[j].payload) == Ok(r.status.value);
        assert j == k;
      }
    }
  }

  /** A stream fed its chunks one after the other. */
  lemma OutcomeOfChunks(table: StaticTable, stream: nat, chunks: seq<seq<u8>>)
    ensures var fs := Frames.Frames(Join(chunks));
            var st := FeedChunks(table, Response([], NO_REPLY), chunks);
            && st.Response?
            && Verdict(stream, st.reply)
               == if Good(table, fs) then ResponseEvent(stream, Bodies(fs)) else FailedEvent(stream)
  {
    hide Good, Frames.Frames, HeadFrame;
    ChunksJoin(table, [], NO_REPLY, chunks) by { EmptyHead(); }
    assert [] + Join(chunks) == Join(chunks);
    var fs := Frames.Frames(Join(chunks));
    TrackAll(table, fs);
    GoodIffVerdict(table, fs, AbsorbAll(table, NO_REPLY, fs));
  }

  ghost function RunCalls(table: StaticTable, streams: Streams, calls: seq<Call>): Streams
    decreases |calls|
  {
    if calls == [] then streams else RunCalls(table, CallStreams(table, streams, calls[0]), calls[1..])
  }

  /** The data of the calls that feed stream `s`. */
  function FedTo(calls: seq<Call>, s: nat): seq<seq<u8>> {
    if calls == [] then []
    else (if calls[0].Feed? && calls[0].stream == s then [calls[0].data] else []) + FedTo(calls[1..], s)
  }

  /** Stream `s` is only fed; other streams are used in any way. */
  ghost predicate OnlyFed(calls: seq<Call>, s: nat) {
    forall i :: 0 <= i < |calls| ==> calls[i].stream != s || calls[i].Feed?
  }

  lemma {:induction false} OthersDoNotMatter(table: StaticTable, streams: Streams, calls: seq<Call>, s: nat)
    requires s in streams && OnlyFed(calls, s)
    ensures var end := RunCalls(table, streams, calls);
            s in end && end[s] == FeedChunks(table, streams[s], FedTo(calls, s))
    decreases |calls|
  {
    hide FeedStream;
    if calls != [] {
      var next, rest := CallStreams(table, streams, calls[0]), calls[1..];
      assert forall i :: 0 <= i < |rest| ==> rest[i] == calls[i + 1];
      OthersDoNotMatter(table, next, rest, s);
      if calls[0].stream == s {
        assert FedTo(calls, s) == [calls[0].data] + FedTo(rest, s);
        assert FedTo(calls, s)[1..] == FedTo(rest, s);
      } else {
        assert FedTo(calls, s) == FedTo(rest, s);
      }
    }
  }

  /** However a registered stream's bytes are cut into chunks, and whatever happens on other streams in
      between, ending it reports the same thing: the concatenated DATA payloads exactly when the frames
      are good, failure otherwise; and the stream is forgotten. */
  lemma ResponseOutcome(table: StaticTable, streams: Streams, calls: seq<Call>, s: nat)
    requires OnlyFed(calls, s)
    ensures var end := RunCalls(table, CallStreams(table, streams, Register(s)), calls);
            var fs := Frames.Frames(Join(FedTo(calls, s)));
            && CallEvents(table, end, Finish(s))
               == [if Good(table, fs) then ResponseEvent(s, Bodies(fs)) else FailedEvent(s)]
            && s !in CallStreams(table, end, Finish(s))
  {
    hide Good, Frames.Frames, FeedChunks, RunCalls, FedTo, OnlyFed;
    OthersDoNotMatter(table, CallStreams(table, streams, Register(s)), calls, s);
    OutcomeOfChunks(table, s, FedTo(calls, s));
  }

  lemma EmptyHead()
    ensures HeadFrame([]).None?
  {
  }

  // ----- terminal events over whole runs -----

  /** Books kept for one stream id over a run of calls. */
  datatype Books = Books(streams: Streams, registered: nat, terminal: nat, replaced: nat, silent: nat)

  predicate Live(streams: Streams, s: nat) {
    s in streams && streams[s].Response?
  }

  predicate Terminal(e: Event, s: nat) {
    (e.ResponseEvent? || e.FailedEvent?) && e.stream == s
  }

  function Terminals(es: seq<Event>, s: nat): nat {
    if es == [] then 0 else Terminals(es[..|es| - 1], s) + if Terminal(es[|es| - 1], s) then 1 else 0
  }

  /** `replaced` counts registrations of an id whose stream is still open, `silent` counts resets
      of a stream already marked failed. */
  ghost function Post(table: StaticTable, b: Books, call: Call, s: nat): Books {
    Books(
      CallStreams(table, b.streams, call),
      b.registered + (if call == Register(s) then 1 else 0),
      b.terminal + Terminals(CallEvents(table, b.streams, call), s),
      b.replaced + (if call == Register(s) && Live(b.streams, s) then 1 else 0),
      b.silent + if call == Reset(s) && Live(b.streams, s) && b.streams[s].reply.failed then 1 else 0)
  }

  ghost function RunBooks(table: StaticTable, calls: seq<Call>, s: nat): Books {
    if calls == [] then Books(map[], 0, 0, 0, 0)
    else Post(table, RunBooks(table, calls[..|calls| - 1], s), calls[|calls| - 1], s)
  }

  lemma {:induction false} GoawaysNotTerminal(n: nat, s: nat)
    ensures Terminals(Goaways(n), s) == 0
  {
    if n == 0 {
    } else {
      GoawaysNotTerminal(n - 1, s);
      assert Goaways(n)[..n - 1] == Goaways(n - 1);
    }
  }

  lemma FeedKeepsLive(table: StaticTable, st: StreamState, data: seq<u8>)
    ensures FeedStream(table, st, data).state.Response? <==> st.Response?
  {
    hide AbsorbAll, Leftover, DecodeVarint;
  }

  /** Every registration of an id is accounted for exactly once: it ended in one terminal event,
      is still open, was replaced while open, or was reset after failing. */
  lemma {:induction false} RegistrationsBalance(table: StaticTable, calls: seq<Call>, s: nat)
    ensures var b := RunBooks(table, calls, s);
            b.registered == b.terminal + b.replaced + b.silent + if Live(b.streams, s) then 1 else 0
  {
    if calls == [] {
    } else {
      var b, call := RunBooks(table, calls[..|calls| - 1], s), calls[|calls| - 1];
      RegistrationsBalance(table, calls[..|calls| - 1], s);
      PostBalances(table, b, call, s);
    }
  }

  lemma PostBalances(table: StaticTable, b: Books, call: Call, s: nat)
    requires b.registered == b.terminal + b.replaced + b.silent + if Live(b.streams, s) then 1 else 0
    ensures var c := Post(table, b, call, s);
            c.registered == c.terminal + c.replaced + c.silent + if Live(c.streams, s) then 1 else 0
  {
    hide FeedStream;
    if call.Feed? {
      var st := StateOf(b.streams, call.stream);
      FeedKeepsLive(table, st, call.data);
      GoawaysNotTerminal(FeedStream(table, st, call.data).goaways, s);
    }
    SingleTerminal(s);
  }

  lemma SingleTerminal(s: nat)
    ensures Terminals([], s) == 0
    ensures forall e :: Terminals([e], s) == if Terminal(e, s) then 1 else 0
  {
    forall e ensures Terminals([e], s) == if Terminal(e, s) then 1 else 0 {
      assert [e][..0] == [];
    }
  }

  /** So no registration is ever reported twice, whatever the order of calls. */
  lemma AtMostOneTerminal(table: StaticTable, calls: seq<Call>, s: nat)
    ensures RunBooks(table, calls, s).terminal <= RunBooks(table, calls, s).registered
  {
    RegistrationsBalance(table, calls, s);
  }

  // ----- control streams -----

  /** GOAWAY events of a server stream fed chunk by chunk. */
  function UniGoaways(st: StreamState, chunks: seq<seq<u8>>): nat
    requires !st.Response?
    decreases |chunks|
  {
    if chunks == [] || st.Sink? then 0
    else
      var fed := FeedUni(st.ty, st.buf, chunks[0]);
      fed.goaways + UniGoaways(fed.state, chunks[1..])
  }

  const OPENED := ServerUni(None, [])

  lemma {:induction false} CountAppend(fs: seq<Frame>, gs: seq<Frame>)
    ensures GoawayCount(fs + gs) == GoawayCount(fs) + GoawayCount(gs)
    decreases |fs|
  {
    if fs == [] {
      assert fs + gs == gs;
    } else {
      assert (fs + gs)[1..] == fs[1..] + gs;
      CountAppend(fs[1..], gs);
    }
  }

  /** Once the type is known to be control, chunk borders do not matter. */
  lemma {:induction false} ControlChunks(buf: seq<u8>, chunks: seq<seq<u8>>)
    requires HeadFrame(buf).None?
    ensures UniGoaways(ServerUni(Some(STREAM_TYPE_CONTROL), buf), chunks)
              == GoawayCount(Frames.Frames(buf + Join(chunks)))
    decreases |chunks|
  {
    hide HeadFrame, Leftover;
    if chunks == [] {
      assert buf + [] == buf;
      assert Frames.Frames(buf) == [];
    } else {
      var all, rest := buf + chunks[0], Join(chunks[1..]);
      LeftoverStuck(all);
      ControlChunks(Leftover(all), chunks[1..]);
      FramesExtend(all, rest);
      CountAppend(Frames.Frames(all), Frames.Frames(Leftover(all) + rest));
      assert all + rest == buf + Join(chunks);
    }
  }

  /** A one-octet stream type: every chunking emits one event per complete GOAWAY frame of a
      control stream, and none on any other stream. */
  lemma {:induction false} OneOctetType(chunks: seq<seq<u8>>)
    requires Join(chunks) != [] && Join(chunks)[0] < 0x40
    ensures UniGoaways(OPENED, chunks)
         == if Join(chunks)[0] == STREAM_TYPE_CONTROL then GoawayCount(Frames.Frames(Join(chunks)[1..])) else 0
    decreases |chunks|
  {
    hide Frames.Frames, Leftover, GoawayCount;
    var c, rest := chunks[0], Join(chunks[1..]);
    if c == [] {
      assert Join(chunks) == rest;
      OneOctetType(chunks[1..]);
    } else {
      assert Join(chunks)[0] == c[0];
      assert DecodeVarint(c) == Some((c[0], 1));
      if c[0] == STREAM_TYPE_CONTROL {
        assert [] + c[1..] == c[1..];
        LeftoverStuck(c[1..]);
        ControlChunks(Leftover(c[1..]), chunks[1..]);
        FramesExtend(c[1..], rest);
        CountAppend(Frames.Frames(c[1..]), Frames.Frames(Leftover(c[1..]) + rest));
        assert c[1..] + rest == Join(chunks)[1..];
      }
    }
  }

  /** A second chunk that exposes a cut right after the first octet. */
  function Splinter(first: u8): seq<u8> {
    if first == 0x40 then [0, 0x40, 7, 0]
    else if first < 0x80 then [0, 0, 0, 7, 0]
    else if first < 0xC0 then [0, 8, 0, 0, 0, 7, 0]
    else [0, 8, 0, 0, 0, 0, 0, 0, 0, 7, 0]
  }

  lemma Unroll1(a: nat, x: u8) ensures BigEndian(a, [x]) == a * 256 + x {}

  lemma TwoOctets(f: u8, x: u8, rest: seq<u8>)
    requires 0x40 <= f < 0x80
    ensures DecodeVarint([f, x] + rest) == Some(((f - 0x40) * 256 + x, 2))
  {
    assert ([f, x] + rest)[1..2] == [x];
    Unroll1(f % 0x40, x);
  }

  /** More octets only scale the value up. */
  lemma {:induction false} BigEndianAtLeast(acc: nat, bs: seq<u8>)
    ensures BigEndian(acc, bs) >= acc
    decreases |bs|
  {
    if bs == [] {
    } else {
      BigEndianAtLeast(acc * 256 + bs[0], bs[1..]);
    }
  }

  lemma WideType(f: u8, bs: seq<u8>, k: nat, rest: seq<u8>)
    requires f >= 0x80 && |bs| == VarintLength(f) - 1 && k < |bs| && bs[k] > 7
    ensures DecodeVarint([f] + bs + rest).Some?
    ensures DecodeVarint([f] + bs + rest).value.0 > 7 && DecodeVarint([f] + bs + rest).value.1 == VarintLength(f)
  {
    assert ([f] + bs + rest)[1..VarintLength(f)] == bs;
    BigEndianSome(f % 0x40, bs, k);
  }

  lemma {:induction false} BigEndianSome(acc: nat, bs: seq<u8>, k: nat)
    requires k < |bs|
    ensures BigEndian(acc, bs) >= bs[k]
    decreases |bs|
  {
    if k == 0 {
      BigEndianAtLeast(acc * 256 + bs[0], bs[1..]);
    } else {
      BigEndianSome(acc * 256 + bs[0], bs[1..], k - 1);
    }
  }

  lemma EmptyFrameHead(buf: seq<u8>, t: nat, n: nat)
    requires DecodeVarint(buf) == Some((t, n)) && n < |buf| && buf[n] == 0
    ensures HeadFrame(buf) == Some((Frame(t, []), n + 1))
  {
    var rest := buf[n..];
    assert DecodeVarint(rest) == Some((0, 1)) by {
      hide HeadFrame;
      assert rest[0] == 0 && rest[1..1] == [];
    }
    hide DecodeVarint;
    assert buf[n + 1..n + 1] == [];
  }

  lemma EmptyFrameFirst(buf: seq<u8>, t: nat, n: nat)
    requires DecodeVarint(buf) == Some((t, n)) && n < |buf| && buf[n] == 0
    ensures Frames.Frames(buf) == [Frame(t, [])] + Frames.Frames(buf[n + 1..])
  {
    hide DecodeVarint, HeadFrame;
    EmptyFrameHead(buf, t, n);
  }

  /** An empty frame of another type, then an empty GOAWAY frame. */
  lemma ForeignThenGoaway(buf: seq<u8>, n: nat)
    requires DecodeVarint(buf).Some? && DecodeVarint(buf).value.0 != FRAME_GOAWAY && DecodeVarint(buf).value.1 == n
    requires buf[n..] == [0, 7, 0]
    ensures GoawayCount(Frames.Frames(buf)) == 1
  {
    hide DecodeVarint, HeadFrame, Frames.Frames;
    var t := DecodeVarint(buf).value.0;
    assert buf[n] == buf[n..][0];
    EmptyFrameFirst(buf, t, n);
    assert buf[n + 1..] == buf[n..][1..] == [7, 0];
    LoneGoaway();
    CountAppend([Frame(t, [])], [Frame(7, [])]);
  }

  lemma LoneGoaway()
    ensures Frames.Frames([7, 0]) == [Frame(7, [])]
  {
    assert DecodeVarint([7, 0]) == Some((7, 1));
    EmptyHead();
    hide DecodeVarint, HeadFrame;
    EmptyFrameFirst([7, 0], 7, 1);
    assert [7, 0][2..] == [];
  }

  /** Cut after the first octet, the type is read from the second chunk alone. */
  lemma CutAfterFirst(first: u8, w: seq<u8>)
    requires first >= 0x40 && w != [] && w[0] == 0
    ensures UniGoaways(OPENED, [[first], w]) == GoawayCount(Frames.Frames([first] + w[1..]))
  {
    var chunks := [[first], w];
    assert chunks[1..] == [w];
    assert [] + [first] == [first];
    assert FeedUni(None, [], [first]) == Fed(ServerUni(None, [first]), 0);
    assert DecodeVarint(w) == Some((0, 1));
    hide Frames.Frames, GoawayCount, Leftover, DecodeVarint;
    assert [w][1..] == [];
    assert UniGoaways(ServerUni(None, [first]), [w]) == FeedUni(None, [first], w).goaways;
  }

  lemma WholeStream(b: seq<u8>)
    requires DecodeVarint(b).Some?
    ensures var (t, n) := DecodeVarint(b).value;
            UniGoaways(OPENED, [b]) == if t == STREAM_TYPE_CONTROL then GoawayCount(Frames.Frames(b[n..])) else 0
  {
    hide Frames.Frames, GoawayCount, Leftover, DecodeVarint;
    var (t, n) := DecodeVarint(b).value;
    assert [b][1..] == [];
    assert [] + b[n..] == b[n..];
  }

  /** Both readings of a splintered stream start with a type that is neither control nor GOAWAY. */
  lemma SplinterTypes(first: u8)
    requires first > 0x40
    ensures var w, n := Splinter(first), VarintLength(first);
            var cut, whole := DecodeVarint([first] + w[1..]), DecodeVarint([first] + w);
            && cut.Some? && cut.value.0 != FRAME_GOAWAY && cut.value.1 == n
            && whole.Some? && whole.value.0 != STREAM_TYPE_CONTROL
  {
    var w, n := Splinter(first), VarintLength(first);
    var cut, whole := [first] + w[1..], [first] + w;
    if first < 0x80 {
      assert cut == [first, 0] + [0, 7, 0] && whole == [first, 0] + [0, 0, 7, 0];
      hide DecodeVarint, Splinter;
      TwoOctets(first, 0, [0, 7, 0]);
      TwoOctets(first, 0, [0, 0, 7, 0]);
    } else {
      assert w[1] == 8 && |w| > n;
      hide DecodeVarint, Splinter;
      assert w[1..n][0] == w[1] && w[..n - 1][1] == w[1];
      assert cut == [first] + w[1..n] + w[n..];
      WideType(first, w[1..n], 0, w[n..]);
      assert whole == [first] + w[..n - 1] + w[n - 1..];
      WideType(first, w[..n - 1], 1, w[n - 1..]);
    }
  }

  lemma SplinterDiffers(first: u8)
    requires first >= 0x40
    ensures UniGoaways(OPENED, [[first], Splinter(first)]) != UniGoaways(OPENED, [[first] + Splinter(first)])
  {
    CutAfterFirst(first, Splinter(first));
    if first == 0x40 {
      ZeroInTwoOctets();
    } else {
      SplinterTypes(first);
      SplinterTail(first);
      hide Frames.Frames, GoawayCount, UniGoaways, DecodeVarint, Splinter;
      var w := Splinter(first);
      ForeignThenGoaway([first] + w[1..], VarintLength(first));
      WholeStream([first] + w);
    }
  }

  lemma SplinterTail(first: u8)
    requires first > 0x40
    ensures var w, n := Splinter(first), VarintLength(first);
            n <= |w| && w[n..] == [0, 7, 0] && ([first] + w[1..])[n..] == [0, 7, 0]
  {
  }

  lemma ZeroInTwoOctets()
    ensures UniGoaways(OPENED, [[0x40] + [0, 0x40, 7, 0]]) == 1
    ensures GoawayCount(Frames.Frames([0x40] + [0, 0x40, 7, 0][1..])) == 0
  {
    hide DecodeVarint, UniGoaways, HeadFrame, Frames.Frames;
    var whole, cut := [0x40] + [0, 0x40, 7, 0], [0x40] + [0, 0x40, 7, 0][1..];
    assert whole == [0x40, 0] + [0x40, 7, 0];
    TwoOctets(0x40, 0, [0x40, 7, 0]);
    WholeStream(whole);
    assert whole[2..] == [0x40, 7] + [0];
    WideGoaway();
    assert cut == [0x40, 0x40] + [7, 0];
    Unfinished();
  }

  lemma WideGoaway()
    ensures GoawayCount(Frames.Frames([0x40, 7] + [0])) == 1
  {
    var rest := [0x40, 7] + [0];
    EmptyHead();
    hide DecodeVarint, HeadFrame;
    TwoOctets(0x40, 7, [0]);
    EmptyFrameFirst(rest, 7, 2);
    assert rest[3..] == [];
    CountAppend([Frame(7, [])], []);
  }

  lemma Unfinished()
    ensures GoawayCount(Frames.Frames([0x40, 0x40] + [7, 0])) == 0
  {
    var cut := [0x40, 0x40] + [7, 0];
    assert DecodeVarint([7, 0]) == Some((7, 1));
    hide DecodeVarint;
    TwoOctets(0x40, 0x40, [7, 0]);
    assert cut[2..] == [7, 0];
    assert HeadFrame(cut).None?;
  }

  /** Chunk borders cannot change the GOAWAY events of streams that start with `first` exactly
      when the stream type fits that one octet. */
  lemma ControlChunkingIff(first: u8)
    ensures (forall chunks: seq<seq<u8>> :: Join(chunks) != [] && Join(chunks)[0] == first ==>
              UniGoaways(OPENED, chunks) == UniGoaways(OPENED, [Join(chunks)]))
            <==> first < 0x40
  {
    hide UniGoaways;
    if first < 0x40 {
      forall chunks: seq<seq<u8>> | Join(chunks) != [] && Join(chunks)[0] == first
        ensures UniGoaways(OPENED, chunks) == UniGoaways(OPENED, [Join(chunks)])
      {
        OneOctetType(chunks);
        JoinOne(Join(chunks));
        OneOctetType([Join(chunks)]);
      }
    } else {
      var w := Splinter(first);
      SplinterDiffers(first);
      var chunks := [[first], w];
      assert Join(chunks) == [first] + w by { JoinTwo([first], w); }
      assert Join(chunks)[0] == first;
      assert UniGoaways(OPENED, chunks) != UniGoaways(OPENED, [Join(chunks)]);
    }
  }

  lemma JoinOne(a: seq<u8>)
    ensures Join([a]) == a
  {
    assert [a][1..] == [];
  }

  lemma JoinTwo(a: seq<u8>, b: seq<u8>)
    ensures Join([a, b]) == a + b
  {
    assert [a, b][1..] == [b];
    JoinOne(b);
  }
}
