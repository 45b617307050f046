/** From a DNS query to the octets of an HTTP/3 request and back
    (pkgs/microdoh3/src/worker.rs `dispatch_query`, pkgs/microdoh3/src/h3.rs `encode_request`). */
module Request {
  import opened Bytes
  import opened Frames
  import opened Qpack
  import Base64Url
  import Dns
  import H3

  const GET_MAX: nat := 1400
  const MAX_DNS_LEN: nat := 4096
  const PAD_BLOCK: nat := 128

  datatype Config = Config(path: seq<u8>, authority: seq<u8>, token: Option<seq<u8>>, pad: bool)

  function Ascii(s: string): (r: seq<u8>)
    ensures |r| == |s|
  {
    seq(|s|, i requires 0 <= i < |s| => s[i] as int % 256)
  }

  function Fields(verb: seq<u8>, authority: seq<u8>, path: seq<u8>, token: Option<seq<u8>>): seq<Field> {
    [(Ascii(":method"), verb), (Ascii(":scheme"), Ascii("https")), (Ascii(":authority"), authority),
     (Ascii(":path"), path), (Ascii("accept"), Ascii("application/dns-message"))]
    + if token.Some? then [(Ascii("authorization"), Ascii("Bearer ") + token.value)] else []
  }

  method EncodeRequest(out: seq<u8>, fields: seq<Field>, body: Option<seq<u8>>) returns (r: seq<u8>)
    requires |FieldSection(fields)| < TWO_62 && (body.Some? ==> |body.value| < TWO_62)
    ensures r == out + EncodeFrame(H3.FRAME_HEADERS, FieldSection(fields))
              + if body.Some? then EncodeFrame(H3.FRAME_DATA, body.value) else []
  {
    hide FieldSection, EncodeVarint;
    var block := EncodeFieldSection(fields, []);
    assert block == FieldSection(fields);
    r := VarintEncode(H3.FRAME_HEADERS, out);
    r := VarintEncode(|block|, r);
    r := r + block;
    assert r == out + EncodeFrame(H3.FRAME_HEADERS, block);
    ghost var head := r;
    if body.Some? {
      r := VarintEncode(H3.FRAME_DATA, r);
      r := VarintEncode(|body.value|, r);
      r := r + body.value;
      assert r == head + EncodeFrame(H3.FRAME_DATA, body.value);
    } else {
      assert head + [] == head;
    }
  }

  /** What goes to the upstream: padded if asked, ID zeroed for GET. */
  function Outgoing(pad: bool, query: seq<u8>): (r: seq<u8>)
    requires |query| >= Dns.HEADER
    ensures |r| >= Dns.HEADER
  {
    var q := if pad && Dns.Pads(query, PAD_BLOCK) then Dns.Padded(query, PAD_BLOCK) else query;
    assert |q| >= Dns.HEADER by {
      if Dns.Pads(query, PAD_BLOCK) { Dns.PaddingOnce(query, PAD_BLOCK); }
    }
    if |query| <= GET_MAX then [0, 0] + q[2..] else q
  }

  function Separator(path: seq<u8>): u8 { if 63 in path then 38 else 63 }

  function GetPath(path: seq<u8>, dns: seq<u8>): seq<u8> {
    path + [Separator(path)] + Ascii("dns=") + Base64Url.Encode(dns)
  }

  /** The header fields `dispatch_query` asks for. */
  function RequestFields(cfg: Config, query: seq<u8>): seq<Field>
    requires |query| >= Dns.HEADER
  {
    if |query| <= GET_MAX then
      Fields(Ascii("GET"), cfg.authority, GetPath(cfg.path, Outgoing(cfg.pad, query)), cfg.token)
    else Fields(Ascii("POST"), cfg.authority, cfg.path, cfg.token)
  }

  function RequestBytes(cfg: Config, query: seq<u8>): seq<u8>
    requires Dns.HEADER <= |query| <= MAX_DNS_LEN && |FieldSection(RequestFields(cfg, query))| < TWO_62
  {
    EncodeFrame(H3.FRAME_HEADERS, FieldSection(RequestFields(cfg, query)))
    + if |query| <= GET_MAX then [] else EncodeFrame(H3.FRAME_DATA, query)
  }

  /** The request-building part of `dispatch_query`. */
  method BuildRequest(cfg: Config, query: seq<u8>) returns (req: seq<u8>)
    requires Dns.HEADER <= |query| <= MAX_DNS_LEN
    requires |FieldSection(RequestFields(cfg, query))| < TWO_62
    ensures req == RequestBytes(cfg, query)
  {
    hide FieldSection, EncodeFrame, Base64Url.Encode, Dns.Padded;
    var useGet := |query| <= GET_MAX;
    var q := query;
    if cfg.pad {
      var padded;
      padded, q := Dns.PadQuery(query, PAD_BLOCK);
      if padded { Dns.PaddingOnce(query, PAD_BLOCK); }
    }
    if useGet {
      q := q[0 := 0][1 := 0];
      assert q == Outgoing(cfg.pad, query);
      var len := Base64Url.EncodedLen(|q|);
      var b64 := new u8[len](i => 0);
      var n := Base64Url.EncodeInto(q, b64);
      assert b64[..] == b64[..n];
      var path := cfg.path + [Separator(cfg.path)] + Ascii("dns=") + b64[..];
      req := EncodeRequest([], Fields(Ascii("GET"), cfg.authority, path, cfg.token), None);
    } else {
      assert q == query;
      req := EncodeRequest([], Fields(Ascii("POST"), cfg.authority, cfg.path, cfg.token), Some(q));
    }
  }

  lemma {:induction false} SectionCoversFields(fields: seq<Field>)
    ensures |FieldLinesBytes(fields)| < TWO_62 ==> Encodable(fields)
  {
    hide EncodePrefixInt;
    if fields == [] {
    } else {
      SectionCoversFields(fields[1..]);
      forall i | 0 <= i < |fields| && |FieldLinesBytes(fields)| < TWO_62
        ensures |fields[i].0| < TWO_63 && |fields[i].1| < TWO_63
      {
        if i > 0 { assert fields[i] == fields[1..][i - 1]; }
      }
    }
  }

  /** The octets after the last `c`, or all of them. */
  function AfterLast(s: seq<u8>, c: u8): seq<u8> {
    if s == [] then []
    else if c in s[1..] then AfterLast(s[1..], c)
    else if s[0] == c then s[1..]
    else s
  }

  lemma {:induction false} AfterLastIs(a: seq<u8>, c: u8, b: seq<u8>)
    requires c !in b
    ensures AfterLast(a + [c] + b, c) == b
  {
    var s := a + [c] + b;
    if a == [] {
      assert s[1..] == b;
    } else {
      assert s[1..] == a[1..] + [c] + b;
      assert s[1..][|a| - 1] == c;
      AfterLastIs(a[1..], c, b);
    }
  }

  /** The value of the first line with the given name, as a server decodes it. */
  ghost function ValueOf(lines: seq<Result<FieldLine, QpackError>>, name: seq<u8>): Option<seq<u8>> {
    if lines == [] then None
    else if lines[0].Ok? && lines[0].value.name == name then
      match ValueBytes(lines[0].value.value)
      case Ok(v) => Some(v)
      case Err(_) => None
    else ValueOf(lines[1..], name)
  }

  lemma {:induction false} ValueAt(fields: seq<Field>, name: seq<u8>, k: nat)
    requires k < |fields| && fields[k].0 == name && forall i :: 0 <= i < k ==> fields[i].0 != name
    ensures ValueOf(Literals(fields), name) == Some(fields[k].1)
    decreases k
  {
    assert Literals(fields)[1..] == Literals(fields[1..]);
    if k > 0 {
      ValueAt(fields[1..], name, k - 1);
    }
  }

  lemma {:induction false} ValueMissing(fields: seq<Field>, name: seq<u8>)
    requires forall i :: 0 <= i < |fields| ==> fields[i].0 != name
    ensures ValueOf(Literals(fields), name) == None
    decreases |fields|
  {
    if fields != [] {
      assert Literals(fields)[1..] == Literals(fields[1..]);
      ValueMissing(fields[1..], name);
    }
  }

  /** Plain text is its own octets. */
  lemma AsciiIs(s: string, i: nat)
    requires i < |s| && s[i] < 128 as char
    ensures Ascii(s)[i] == s[i] as int
  {
  }

  lemma NamesDiffer()
    ensures |Ascii(":method")| == 7 && |Ascii(":scheme")| == 7 && Ascii(":method") != Ascii(":scheme")
    ensures |Ascii(":authority")| == 10 && |Ascii(":path")| == 5 && |Ascii("accept")| == 6
    ensures |Ascii("authorization")| == 13 && |Ascii("content-type")| == 12
  {
    assert Ascii(":method")[1] == 109 && Ascii(":scheme")[1] == 115;
  }

  /** What a server finds under each name; there is never a content type. */
  lemma LineValues(verb: seq<u8>, authority: seq<u8>, path: seq<u8>, token: Option<seq<u8>>)
    ensures var ls := Literals(Fields(verb, authority, path, token));
            && ValueOf(ls, Ascii(":method")) == Some(verb)
            && ValueOf(ls, Ascii(":scheme")) == Some(Ascii("https"))
            && ValueOf(ls, Ascii(":authority")) == Some(authority)
            && ValueOf(ls, Ascii(":path")) == Some(path)
            && ValueOf(ls, Ascii("accept")) == Some(Ascii("application/dns-message"))
            && ValueOf(ls, Ascii("authorization"))
               == (if token.Some? then Some(Ascii("Bearer ") + token.value) else None)
            && ValueOf(ls, Ascii("content-type")) == None
  {
    hide ValueOf, Literals, Ascii;
    var fs := Fields(verb, authority, path, token);
    NamesDiffer();
    ValueAt(fs, Ascii(":method"), 0);
    ValueAt(fs, Ascii(":scheme"), 1);
    ValueAt(fs, Ascii(":authority"), 2);
    ValueAt(fs, Ascii(":path"), 3);
    ValueAt(fs, Ascii("accept"), 4);
    if token.Some? {
      ValueAt(fs, Ascii("authorization"), 5);
    } else {
      ValueMissing(fs, Ascii("authorization"));
    }
    ValueMissing(fs, Ascii("content-type"));
  }

  /** What follows the last `=` of a GET path decodes to the message put there. */
  lemma PathCarries(path: seq<u8>, dns: seq<u8>)
    ensures path + [if 63 in path then 38 else 63] + [100, 110, 115, 61] <= GetPath(path, dns)
    ensures Base64Url.Decode(AfterLast(GetPath(path, dns), Base64Url.PAD_SIGN)) == Some(dns)
  {
    hide Base64Url.Encode, Base64Url.Decode, AfterLast;
    var sign, front := Base64Url.PAD_SIGN, path + [Separator(path)] + [100, 110, 115];
    assert Ascii("dns=") == [100, 110, 115] + [sign];
    assert GetPath(path, dns) == front + [sign] + Base64Url.Encode(dns);
    Base64Url.NoPadSign(dns);
    AfterLastIs(front, sign, Base64Url.Encode(dns));
    Base64Url.RoundTrip(dns);
  }

  /** Every field of the request as a server decodes it. A POST has no content type, which section 4.1 of
      RFC 8484 asks for. */
  lemma RequestValues(table: StaticTable, cfg: Config, query: seq<u8>)
    requires Dns.HEADER <= |query| <= MAX_DNS_LEN
    requires |FieldSection(RequestFields(cfg, query))| < TWO_62
    ensures var ls, get := Lines(table, FieldSection(RequestFields(cfg, query)), 2), |query| <= 1400;
            && ValueOf(ls, Ascii(":method")) == Some(if get then [71, 69, 84] else [80, 79, 83, 84])
            && ValueOf(ls, Ascii(":scheme")) == Some(Ascii("https"))
            && ValueOf(ls, Ascii(":authority")) == Some(cfg.authority)
            && ValueOf(ls, Ascii(":path"))
               == Some(if get then GetPath(cfg.path, Outgoing(cfg.pad, query)) else cfg.path)
            && ValueOf(ls, Ascii("accept")) == Some(Ascii("application/dns-message"))
            && ValueOf(ls, Ascii("authorization"))
               == (if cfg.token.Some? then Some(Ascii("Bearer ") + cfg.token.value) else None)
            && ValueOf(ls, Ascii("content-type")) == None
  {
    hide ValueOf, Literals, GetPath, Outgoing, Lines, FieldLinesBytes;
    var fields := RequestFields(cfg, query);
    SectionCoversFields(fields);
    FieldSectionRoundTrip(table, fields);
    assert Ascii("GET") == [71, 69, 84] && Ascii("POST") == [80, 79, 83, 84];
    hide Ascii, Fields;
    if |query| <= GET_MAX {
      LineValues(Ascii("GET"), cfg.authority, GetPath(cfg.path, Outgoing(cfg.pad, query)), cfg.token);
    } else {
      LineValues(Ascii("POST"), cfg.authority, cfg.path, cfg.token);
    }
  }

  /** A server that parses the frames and the field section sees exactly the intended request:
      one HEADERS frame with the field list; for GET what follows the last `=` of the `:path` it
      decodes is the outgoing message in base64url, for POST one DATA frame carries the client's octets
      untouched. */
  lemma RequestRoundTrip(table: StaticTable, cfg: Config, query: seq<u8>)
    requires Dns.HEADER <= |query| <= MAX_DNS_LEN
    requires |FieldSection(RequestFields(cfg, query))| < TWO_62
    ensures var fields := RequestFields(cfg, query);
            var section := FieldSection(fields);
            && Frames.Frames(RequestBytes(cfg, query))
               == [Frame(H3.FRAME_HEADERS, section)]
                   + (if |query| <= GET_MAX then [] else [Frame(H3.FRAME_DATA, query)])
            && Leftover(RequestBytes(cfg, query)) == []
            && SectionStart(section) == Ok(2)
            && Lines(table, section, 2) == Literals(fields)
    ensures |query| <= GET_MAX ==>
              var path := ValueOf(Lines(table, FieldSection(RequestFields(cfg, query)), 2), Ascii(":path"));
              && path.Some? && cfg.path + [if 63 in cfg.path then 38 else 63] + [100, 110, 115, 61] <= path.value
              && Base64Url.Decode(AfterLast(path.value, Base64Url.PAD_SIGN)) == Some(Outgoing(cfg.pad, query))
    ensures |query| <= GET_MAX ==>
              var padded := if cfg.pad && Dns.Pads(query, 128) then Dns.Padded(query, 128) else query;
              |padded| >= 2 && Outgoing(cfg.pad, query) == padded[0 := 0][1 := 0]
    ensures |query| > GET_MAX ==> Outgoing(cfg.pad, query) == query
  {
    hide Frames.Frames, Leftover, EncodeFrame, SectionStart, Lines, Base64Url.Encode, Base64Url.Decode;
    hide ValueOf, AfterLast, GetPath, Ascii;
    var fields := RequestFields(cfg, query);
    SectionCoversFields(fields);
    hide FieldLinesBytes, RequestFields, Literals;
    FieldSectionRoundTrip(table, fields);
    if |query| <= GET_MAX {
      RequestValues(table, cfg, query);
      PathCarries(cfg.path, Outgoing(cfg.pad, query));
    }
    var section := FieldSection(fields);
    var head := EncodeFrame(H3.FRAME_HEADERS, section);
    NothingLeft();
    if |query| <= GET_MAX {
      FrameRoundTrip(H3.FRAME_HEADERS, section, []);
    } else {
      var data := EncodeFrame(H3.FRAME_DATA, query);
      FrameRoundTrip(H3.FRAME_HEADERS, section, data);
      FrameRoundTrip(H3.FRAME_DATA, query, []);
      assert data + [] == data;
    }
  }

  lemma NothingLeft()
    ensures Frames.Frames([]) == [] && Leftover([]) == []
  {
  }
}
