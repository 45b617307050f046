/** QPACK with an empty dynamic table (pkgs/microdoh3/src/qpack.rs): prefix integers, the
    literal-only encoder and the field-line decoder. The static table is a parameter. */
module Qpack {
  import opened Bytes
  import Huffman

  datatype QpackError = Truncated | DynamicTable | BadIndex(idx: nat) | Huffman(error: Huffman.HuffmanError)

  /** A result together with the cursor it leaves behind; errors move the cursor too. */
  datatype Read<+T> = Read(result: Result<T, QpackError>, pos: nat)

  // ----- prefix integers -----

  /** Base-128 digits, least significant first, high bit set on all but the last. */
  function Groups(v: nat): (g: seq<u8>)
    ensures |g| >= 1
  {
    if v >= 128 then [v % 128 + 128] + Groups(v / 128) else [v]
  }

  lemma FlagRoom(p: nat, flags: u8)
    requires 1 <= p <= 8 && flags % Pow2(p) == 0
    ensures flags + Pow2(p) <= 256
  {
    WidthValues(p);
    hide Pow2;
    var m := Pow2(p);
    assert m == 2 || m == 4 || m == 8 || m == 16 || m == 32 || m == 64 || m == 128 || m == 256;
  }

  lemma WidthValues(p: nat)
    requires 1 <= p <= 8
    ensures Pow2(p) == if p == 1 then 2 else if p == 2 then 4 else if p == 3 then 8 else if p == 4 then 16
                       else if p == 5 then 32 else if p == 6 then 64 else if p == 7 then 128 else 256
  {
    WidthBound(p);
    EightAndSeven();
  }

  /** `value` in a `p`-bit prefix below the flag bits. */
  function EncodePrefixInt(p: nat, flags: u8, value: nat): (bs: seq<u8>)
    requires 1 <= p <= 8 && flags % Pow2(p) == 0
    ensures |bs| >= 1
  {
    var max := Pow2(p) - 1;
    FlagRoom(p, flags);
    if value < max then [flags + value] else [flags + max] + Groups(value - max)
  }

  method WritePrefixInt(out: seq<u8>, p: nat, flags: u8, value: nat) returns (r: seq<u8>)
    requires 1 <= p <= 8 && flags % Pow2(p) == 0
    ensures r == out + EncodePrefixInt(p, flags, value)
  {
    hide Pow2, Groups;
    var max := Pow2(p) - 1;
    FlagRoom(p, flags);
    if value < max {
      return out + [flags + value];
    }
    r := WriteGroups(out + [flags + max], value - max);
    assert r == out + ([flags + max] + Groups(value - max));
  }

  method WriteGroups(out: seq<u8>, value: nat) returns (r: seq<u8>)
    ensures r == out + Groups(value)
  {
    r := out;
    var v := value;
    while v >= 128
      invariant r + Groups(v) == out + Groups(value)
    {
      var d: u8 := v % 128 + 128;
      assert r + ([d] + Groups(v / 128)) == r + [d] + Groups(v / 128);
      r := r + [d];
      v := v / 128;
    }
    r := r + [v];
  }

  /** The digit loop of `read_prefix_int`: at most nine digits, sum checked against 64 bits. */
  function ReadGroups(buf: seq<u8>, pos: nat, value: nat, shift: nat): (r: Read<nat>)
    requires pos <= |buf|
    ensures pos <= r.pos <= |buf|
    decreases |buf| - pos
  {
    if pos == |buf| then Read(Err(Truncated), pos)
    else
      var b := buf[pos];
      var value' := value + b % 128 * Pow2(shift);
      if value' >= TWO_64 then Read(Err(Truncated), pos + 1)
      else if b < 128 then Read(Ok(value'), pos + 1)
      else if shift + 7 > 56 then Read(Err(Truncated), pos + 1)
      else ReadGroups(buf, pos + 1, value', shift + 7)
  }

  function DecodePrefixInt(buf: seq<u8>, pos: nat, p: nat): (r: Read<nat>)
    requires pos <= |buf| && 1 <= p <= 8
    ensures pos <= r.pos <= |buf|
    ensures pos < |buf| ==> pos < r.pos
  {
    if pos == |buf| then Read(Err(Truncated), pos)
    else
      var value := buf[pos] % Pow2(p);
      if value < Pow2(p) - 1 then Read(Ok(value), pos + 1)
      else ReadGroups(buf, pos + 1, value, 0)
  }

  method ReadPrefixInt(buf: seq<u8>, pos: nat, p: nat) returns (r: Result<nat, QpackError>, pos': nat)
    requires pos <= |buf| && 1 <= p <= 8
    ensures Read(r, pos') == DecodePrefixInt(buf, pos, p)
  {
    pos' := pos;
    if pos' == |buf| {
      return Err(Truncated), pos';
    }
    var value: nat := buf[pos'] % Pow2(p);
    pos' := pos' + 1;
    if value < Pow2(p) - 1 {
      return Ok(value), pos';
    }
    var shift := 0;
    while true
      invariant pos' <= |buf|
      invariant ReadGroups(buf, pos', value, shift) == DecodePrefixInt(buf, pos, p)
      decreases |buf| - pos'
    {
      if pos' == |buf| {
        return Err(Truncated), pos';
      }
      var b := buf[pos'];
      pos' := pos' + 1;
      value := value + b % 128 * Pow2(shift);
      if value >= TWO_64 {
        return Err(Truncated), pos';
      }
      shift := shift + 7;
      if b < 128 {
        return Ok(value), pos';
      }
      if shift > 56 {
        return Err(Truncated), pos';
      }
    }
  }

  lemma Pow2Seven(s: nat)
    ensures Pow2(s + 7) == 128 * Pow2(s)
  {
    Pow2Add(7, s);
    assert Pow2(7) == 128;
  }

  lemma DigitSum(acc: nat, v: nat, p: nat)
    ensures acc + v % 128 * p + v / 128 * (128 * p) == acc + v * p
    ensures v % 128 * p <= v * p
  {
    var q, r := v / 128, v % 128;
    assert v == 128 * q + r;
    assert (128 * q + r) * p == q * (128 * p) + r * p;
    assert q * (128 * p) >= 0;
  }

  /** The digits of `v` read back as `v`, exactly when they fit the nine-digit limit. */
  lemma {:induction false} GroupsRoundTrip(buf: seq<u8>, pos: nat, v: nat, acc: nat, shift: nat)
    requires shift <= 56 && shift % 7 == 0
    requires pos + |Groups(v)| <= |buf| && buf[pos..pos + |Groups(v)|] == Groups(v)
    ensures v < Pow2(63 - shift) && acc + v * Pow2(shift) < TWO_64 ==>
            ReadGroups(buf, pos, acc, shift) == Read(Ok(acc + v * Pow2(shift)), pos + |Groups(v)|)
    ensures v >= Pow2(63 - shift) ==> ReadGroups(buf, pos, acc, shift).result == Err(Truncated)
    decreases v
  {
    hide Pow2, ReadGroups;
    var g := Groups(v);
    assert buf[pos] == g[0];
    DigitSum(acc, v, Pow2(shift));
    SmallFits(63 - shift);
    if v < 128 || shift == 56 {
      SeventhPower();
      LastDigit(buf, pos, v, acc, shift);
    } else {
      Pow2Seven(shift);
      Pow2Seven(56 - shift);
      assert buf[pos + 1..pos + |g|] == buf[pos..pos + |g|][1..];
      MoreDigits(buf, pos, v, acc, shift);
      GroupsRoundTrip(buf, pos + 1, v / 128, acc + v % 128 * Pow2(shift), shift + 7);
    }
  }

  lemma LastDigit(buf: seq<u8>, pos: nat, v: nat, acc: nat, shift: nat)
    requires pos < |buf| && shift <= 56 && (v < 128 || shift == 56)
    requires buf[pos] == if v < 128 then v else v % 128 + 128
    ensures v < 128 && acc + v * Pow2(shift) < TWO_64 ==>
            ReadGroups(buf, pos, acc, shift) == Read(Ok(acc + v * Pow2(shift)), pos + 1)
    ensures v >= 128 ==> ReadGroups(buf, pos, acc, shift).result == Err(Truncated)
  {
    hide Pow2;
    if v < 128 {
      assert buf[pos] % 128 == v;
    } else {
      var d: nat := buf[pos] % 128;
      assert d * Pow2(shift) >= 0;
    }
  }

  lemma SeventhPower()
    ensures Pow2(7) == 128
  {
  }

  lemma MoreDigits(buf: seq<u8>, pos: nat, v: nat, acc: nat, shift: nat)
    requires pos < |buf| && v >= 128 && buf[pos] == v % 128 + 128 && shift < 56 && shift % 7 == 0
    ensures acc + v % 128 * Pow2(shift) < TWO_64 ==>
            ReadGroups(buf, pos, acc, shift) == ReadGroups(buf, pos + 1, acc + v % 128 * Pow2(shift), shift + 7)
    ensures acc + v % 128 * Pow2(shift) >= TWO_64 ==> ReadGroups(buf, pos, acc, shift).result == Err(Truncated)
  {
    hide Pow2;
    assert buf[pos] % 128 == v % 128;
  }

  lemma SmallFits(n: nat)
    requires n >= 7
    ensures Pow2(n) >= 128
  {
    Pow2Seven(n - 7);
  }

  lemma PrefixByte(p: nat, flags: u8, low: nat)
    requires 1 <= p <= 8 && flags % Pow2(p) == 0 && low < Pow2(p)
    ensures (flags + low) % Pow2(p) == low
    ensures (flags + low) / Pow2(p) == flags / Pow2(p)
  {
    hide Pow2;
    var m := Pow2(p);
    assert flags == flags / m * m + flags % m;
    DivModUnique(flags + low, m, flags / m, low);
  }

  lemma WidthBound(p: nat)
    requires 1 <= p <= 8
    ensures 2 <= Pow2(p) <= 256
    ensures Pow2(3) == 8 && Pow2(7) == 128
  {
    assert Pow2(1) == 2 && Pow2(2) == 4 && Pow2(3) == 8 && Pow2(4) == 16;
    assert Pow2(5) == 32 && Pow2(6) == 64 && Pow2(7) == 128 && Pow2(8) == 256;
  }

  lemma TopPower()
    ensures Pow2(63) == TWO_63
  {
    assert Pow2(9) == 512;
    Pow2Add(9, 9);
    Pow2Add(18, 9);
    Pow2Add(27, 9);
    Pow2Add(36, 9);
    Pow2Add(45, 9);
    Pow2Add(54, 9);
  }

  /** Any width, any flag bits, anything before or after: the integer reads back and the cursor
      lands behind it, exactly below 2^63 plus the inline maximum. */
  lemma PrefixIntRoundTrip(before: seq<u8>, p: nat, flags: u8, v: nat, rest: seq<u8>)
    requires 1 <= p <= 8 && flags % Pow2(p) == 0 && v < TWO_64
    ensures var bs := EncodePrefixInt(p, flags, v);
            var r := DecodePrefixInt(before + bs + rest, |before|, p);
            && (r == Read(Ok(v), |before| + |bs|) <==> v < TWO_63 + Pow2(p) - 1)
            && (v >= TWO_63 + Pow2(p) - 1 ==> r.result == Err(Truncated))
  {
    hide Pow2, ReadGroups, Groups;
    var bs, max := EncodePrefixInt(p, flags, v), Pow2(p) - 1;
    var buf := before + bs + rest;
    WidthBound(p);
    assert buf[|before|] == bs[0];
    if v < max {
      PrefixByte(p, flags, v);
    } else {
      PrefixByte(p, flags, max);
      TopPower();
      assert Pow2(0) == 1 by { ZeroPower(); }
      var g := Groups(v - max);
      assert bs[1..] == g;
      assert buf[|before| + 1..|before| + 1 + |g|] == g;
      GroupsRoundTrip(buf, |before| + 1, v - max, max, 0);
    }
  }

  lemma ZeroPower()
    ensures Pow2(0) == 1
  {
  }

  // ----- field sections -----

  type Field = (seq<u8>, seq<u8>)
  type StaticTable = seq<Field>

  datatype ValueRef = Static(bytes: seq<u8>) | Wire(raw: seq<u8>, huffman: bool)

  datatype FieldLine = FieldLine(name: seq<u8>, value: ValueRef)

  ghost function ValueBytes(v: ValueRef): Result<seq<u8>, QpackError> {
    match v
    case Static(bytes) => Ok(bytes)
    case Wire(raw, false) => Ok(raw)
    case Wire(raw, true) =>
      match Huffman.Outcome(raw)
      case Ok(s) => Ok(s)
      case Err(e) => Err(Huffman(e))
  }

  /** A Huffman value is read as `s` if and only if it is the code of `s`, padded with fewer than eight
      one-bits. */
  lemma HuffmanValueIff(raw: seq<u8>, s: seq<u8>)
    ensures ValueBytes(Wire(raw, true)) == Ok(s) <==>
              exists pad: Huffman.Bits ::
                |pad| < 8 && Huffman.AllOnes(pad) && Huffman.DataBits(raw) == Huffman.Encode(s) + pad
    ensures ValueBytes(Wire(raw, false)) == Ok(raw) && ValueBytes(Static(raw)) == Ok(raw)
  {
    hide Huffman.Outcome, Huffman.Encode, Huffman.DataBits;
    Huffman.DecodeIffEncoding(raw, s);
  }

  method DecodeValue(v: ValueRef) returns (r: Result<seq<u8>, QpackError>)
    ensures r == ValueBytes(v)
  {
    match v
    case Static(bytes) => return Ok(bytes);
    case Wire(raw, huffman) =>
      if !huffman {
        return Ok(raw);
      }
      var d := Huffman.HuffmanDecode(raw);
      match d
      case Ok(s) => return Ok(s);
      case Err(e) => return Err(Huffman(e));
  }

  predicate Encodable(fields: seq<Field>) {
    forall i :: 0 <= i < |fields| ==> |fields[i].0| < TWO_63 && |fields[i].1| < TWO_63
  }

  function FieldLineBytes(f: Field): seq<u8> {
    EightAndSeven();
    EncodePrefixInt(3, 0x20, |f.0|) + f.0 + EncodePrefixInt(7, 0, |f.1|) + f.1
  }

  lemma EightAndSeven()
    ensures Pow2(3) == 8 && Pow2(4) == 16 && Pow2(6) == 64 && Pow2(7) == 128 && Pow2(8) == 256
  {
  }

  function FieldLinesBytes(fields: seq<Field>): seq<u8> {
    if fields == [] then [] else FieldLineBytes(fields[0]) + FieldLinesBytes(fields[1..])
  }

  function FieldSection(fields: seq<Field>): seq<u8> {
    [0, 0] + FieldLinesBytes(fields)
  }

  method EncodeFieldSection(fields: seq<Field>, out: seq<u8>) returns (r: seq<u8>)
    ensures r == out + FieldSection(fields)
  {
    hide Pow2, EncodePrefixInt;
    EightAndSeven();
    r := out + [0] + [0];
    for i := 0 to |fields|
      invariant r + FieldLinesBytes(fields[i..]) == out + FieldSection(fields)
    {
      var (name, value) := fields[i];
      ghost var before := r;
      r := WritePrefixInt(r, 3, 0x20, |name|);
      r := r + name;
      r := WritePrefixInt(r, 7, 0, |value|);
      r := r + value;
      assert r == before + FieldLineBytes(fields[i]);
      assert fields[i..][1..] == fields[i + 1..];
      assert before + (FieldLineBytes(fields[i]) + FieldLinesBytes(fields[i + 1..]))
          == r + FieldLinesBytes(fields[i + 1..]);
    }
    assert r + [] == r;
  }

  /** A length-prefixed string: octets and the Huffman flag just above the length prefix. */
  function ReadString(buf: seq<u8>, pos: nat, p: nat): (r: Read<(seq<u8>, bool)>)
    requires pos <= |buf| && 1 <= p <= 7
    ensures pos <= r.pos <= |buf|
    ensures pos < |buf| ==> pos < r.pos
  {
    if pos == |buf| then Read(Err(Truncated), pos)
    else
      var huffman := buf[pos] / Pow2(p) % 2 == 1;
      var len := DecodePrefixInt(buf, pos, p);
      match len.result
      case Err(e) => Read(Err(e), len.pos)
      case Ok(n) =>
        if len.pos + n > |buf| then Read(Err(Truncated), len.pos)
        else Read(Ok((buf[len.pos..len.pos + n], huffman)), len.pos + n)
  }

  method TakeString(buf: seq<u8>, pos: nat, p: nat) returns (r: Result<(seq<u8>, bool), QpackError>, pos': nat)
    requires pos <= |buf| && 1 <= p <= 7
    ensures Read(r, pos') == ReadString(buf, pos, p)
  {
    hide DecodePrefixInt;
    if pos == |buf| {
      return Err(Truncated), pos;
    }
    var huffman := buf[pos] / Pow2(p) % 2 == 1;
    var len;
    len, pos' := ReadPrefixInt(buf, pos, p);
    match len
    case Err(e) => return Err(e), pos';
    case Ok(n) =>
      var end := pos' + n;
      if end > |buf| {
        return Err(Truncated), pos';
      }
      return Ok((buf[pos'..end], huffman)), end;
  }

  /** Value string after a name that is already known. */
  function ReadValue(buf: seq<u8>, pos: nat, name: seq<u8>): (r: Read<FieldLine>)
    requires pos <= |buf|
    ensures pos <= r.pos <= |buf|
  {
    var v := ReadString(buf, pos, 7);
    match v.result
    case Err(e) => Read(Err(e), v.pos)
    case Ok((raw, huffman)) => Read(Ok(FieldLine(name, Wire(raw, huffman))), v.pos)
  }

  ghost function ReadLiteral(buf: seq<u8>, pos: nat): (r: Read<FieldLine>)
    requires pos < |buf|
    ensures pos < r.pos <= |buf|
  {
    var n := ReadString(buf, pos, 3);
    match n.result
    case Err(e) => Read(Err(e), n.pos)
    case Ok((raw, huffman)) =>
      match ValueBytes(Wire(raw, huffman))
      case Err(e) => Read(Err(e), n.pos)
      case Ok(name) => ReadValue(buf, n.pos, name)
  }

  function ReadIndexed(table: StaticTable, buf: seq<u8>, pos: nat, p: nat): (r: Read<Field>)
    requires pos < |buf| && 1 <= p <= 8
    ensures pos < r.pos <= |buf|
  {
    var idx := DecodePrefixInt(buf, pos, p);
    match idx.result
    case Err(e) => Read(Err(e), idx.pos)
    case Ok(i) => if i < |table| then Read(Ok(table[i]), idx.pos) else Read(Err(BadIndex(i)), idx.pos)
  }

  /** One call of `Decoder::next` at `pos`. */
  ghost function DecodeLine(table: StaticTable, buf: seq<u8>, pos: nat): (r: Read<FieldLine>)
    requires pos < |buf|
    ensures pos < r.pos <= |buf|
  {
    var b := buf[pos];
    if b >= 0x80 then
      if b / 0x40 % 2 == 0 then Read(Err(DynamicTable), pos + 1)
      else
        var f := ReadIndexed(table, buf, pos, 6);
        match f.result
        case Err(e) => Read(Err(e), f.pos)
        case Ok((name, value)) => Read(Ok(FieldLine(name, Static(value))), f.pos)
    else if b >= 0x40 then
      if b / 0x10 % 2 == 0 then Read(Err(DynamicTable), pos + 1)
      else
        var f := ReadIndexed(table, buf, pos, 4);
        match f.result
        case Err(e) => Read(Err(e), f.pos)
        case Ok((name, _)) => ReadValue(buf, f.pos, name)
    else if b >= 0x20 then ReadLiteral(buf, pos)
    else Read(Err(DynamicTable), pos + 1)
  }

  function SectionStart(buf: seq<u8>): (r: Result<nat, QpackError>)
    ensures r.Ok? ==> 2 <= r.value <= |buf|
  {
    var count := DecodePrefixInt(buf, 0, 8);
    if count.result.Err? then Err(count.result.error)
    else
      var base := DecodePrefixInt(buf, count.pos, 7);
      if base.result.Err? then Err(base.result.error)
      else if count.result.value != 0 then Err(DynamicTable)
      else Ok(base.pos)
  }

  class Decoder {
    const table: StaticTable
    const buf: seq<u8>
    var pos: nat

    ghost predicate Valid()
      reads this
    {
      pos <= |buf|
    }

    constructor (table: StaticTable, buf: seq<u8>, pos: nat)
      requires pos <= |buf|
      ensures Valid() && this.table == table && this.buf == buf && this.pos == pos
    {
      this.table, this.buf, this.pos := table, buf, pos;
    }

    static method New(table: StaticTable, buf: seq<u8>) returns (r: Result<Decoder, QpackError>)
      ensures match SectionStart(buf)
              case Err(e) => r == Err(e)
              case Ok(p) =>
                && r.Ok? && fresh(r.value) && r.value.Valid()
                && r.value.table == table && r.value.buf == buf && r.value.pos == p
    {
      hide DecodePrefixInt;
      var count, p := ReadPrefixInt(buf, 0, 8);
      if count.Err? {
        return Err(count.error);
      }
      var base, p' := ReadPrefixInt(buf, p, 7);
      if base.Err? {
        return Err(base.error);
      }
      if count.value != 0 {
        return Err(DynamicTable);
      }
      var d := new Decoder(table, buf, p');
      return Ok(d);
    }

    /** The iterator step: the cursor strictly advances and stays inside the buffer. */
    method Next() returns (r: Option<Result<FieldLine, QpackError>>)
      requires Valid()
      modifies this
      ensures Valid()
      ensures old(pos) == |buf| ==> r == None && pos == old(pos)
      ensures old(pos) < |buf| ==> r.Some? && pos > old(pos)
      ensures old(pos) < |buf| ==> Read(r.value, pos) == DecodeLine(table, buf, old(pos))
    {
      hide ReadString, ReadIndexed, ValueBytes;
      if pos >= |buf| {
        return None;
      }
      var b := buf[pos];
      if b >= 0x80 {
        if b / 0x40 % 2 == 0 {
          pos := pos + 1;
          return Some(Err(DynamicTable));
        }
        var f := Indexed(6);
        match f
        case Err(e) => return Some(Err(e));
        case Ok((name, value)) => return Some(Ok(FieldLine(name, Static(value))));
      } else if b >= 0x40 {
        if b / 0x10 % 2 == 0 {
          pos := pos + 1;
          return Some(Err(DynamicTable));
        }
        var f := Indexed(4);
        match f
        case Err(e) => return Some(Err(e));
        case Ok((name, _)) =>
          var line := Value(name);
          return Some(line);
      } else if b >= 0x20 {
        var n;
        n, pos := TakeString(buf, pos, 3);
        match n
        case Err(e) => return Some(Err(e));
        case Ok((raw, huffman)) =>
          var name := DecodeValue(Wire(raw, huffman));
          match name
          case Err(e) => return Some(Err(e));
          case Ok(bytes) =>
            var line := Value(bytes);
            return Some(line);
      } else {
        pos := pos + 1;
        return Some(Err(DynamicTable));
      }
    }

    method Indexed(p: nat) returns (r: Result<Field, QpackError>)
      requires Valid() && pos < |buf| && 1 <= p <= 8
      modifies this
      ensures Valid() && Read(r, pos) == ReadIndexed(table, buf, old(pos), p)
    {
      hide DecodePrefixInt;
      var idx;
      idx, pos := ReadPrefixInt(buf, pos, p);
      match idx
      case Err(e) => return Err(e);
      case Ok(i) =>
        if i < |table| {
          return Ok(table[i]);
        }
        return Err(BadIndex(i));
    }

    method Value(name: seq<u8>) returns (r: Result<FieldLine, QpackError>)
      requires Valid()
      modifies this
      ensures Valid() && Read(r, pos) == ReadValue(buf, old(pos), name)
    {
      hide ReadString;
      var v;
      v, pos := TakeString(buf, pos, 7);
      match v
      case Err(e) => return Err(e);
      case Ok((raw, huffman)) => return Ok(FieldLine(name, Wire(raw, huffman)));
    }
  }

  /** Everything the iterator yields from `pos` on; it always ends. */
  ghost function Lines(table: StaticTable, buf: seq<u8>, pos: nat): seq<Result<FieldLine, QpackError>>
    requires pos <= |buf|
    decreases |buf| - pos
  {
    if pos == |buf| then []
    else var r := DecodeLine(table, buf, pos); [r.result] + Lines(table, buf, r.pos)
  }

  function Literal(f: Field): FieldLine {
    FieldLine(f.0, Wire(f.1, false))
  }

  function Literals(fields: seq<Field>): seq<Result<FieldLine, QpackError>> {
    if fields == [] then [] else [Ok(Literal(fields[0]))] + Literals(fields[1..])
  }

  lemma StringRoundTrip(before: seq<u8>, p: nat, flags: u8, s: seq<u8>, rest: seq<u8>)
    requires (p == 3 && flags == 0x20) || (p == 7 && (flags == 0 || flags == 0x80))
    requires |s| < TWO_63 && flags % Pow2(p) == 0
    ensures ReadString(before + EncodePrefixInt(p, flags, |s|) + s + rest, |before|, p)
         == Read(Ok((s, flags == 0x80)), |before| + |EncodePrefixInt(p, flags, |s|)| + |s|)
  {
    var bs := EncodePrefixInt(p, flags, |s|);
    var buf := before + bs + s + rest;
    EightAndSeven();
    assert bs[0] / Pow2(p) % 2 == (if flags == 0x80 then 1 else 0) by { FirstOctet(p, flags, |s|); }
    hide Pow2, EncodePrefixInt, DecodePrefixInt;
    PrefixIntRoundTrip(before, p, flags, |s|, s + rest);
    assert buf == before + bs + (s + rest);
    assert buf[|before|] == bs[0];
    var a := |before| + |bs|;
    assert buf[a..a + |s|] == s;
  }

  lemma FirstOctet(p: nat, flags: u8, n: nat)
    requires 1 <= p <= 8 && flags % Pow2(p) == 0
    ensures EncodePrefixInt(p, flags, n)[0] / Pow2(p) == flags / Pow2(p)
  {
    hide Pow2, Groups;
    var max := Pow2(p) - 1;
    PrefixByte(p, flags, if n < max then n else max);
  }

  lemma LiteralLine(table: StaticTable, buf: seq<u8>, pos: nat)
    requires pos < |buf| && 0x20 <= buf[pos] < 0x40
    ensures DecodeLine(table, buf, pos) == ReadLiteral(buf, pos)
  {
    hide ReadLiteral;
  }

  lemma Regroup(a: seq<u8>, n: seq<u8>, v: seq<u8>, z: seq<u8>)
    requires n != []
    ensures a + (n + v) + z == (a + n) + (v + z) && a + (n + v) + z == (a + n) + v + z
    ensures (a + (n + v) + z)[|a|] == n[0]
  {
  }

  lemma PlainOctet(n: nat)
    ensures Pow2(3) == 8 && 0x20 <= EncodePrefixInt(3, 0x20, n)[0] < 0x40
  {
    EightAndSeven();
    FirstOctet(3, 0x20, n);
  }

  /** A literal name that reads back, then whatever value follows. */
  lemma NameRead(buf: seq<u8>, pos: nat, name: seq<u8>, at: nat)
    requires pos < |buf| && at <= |buf| && ReadString(buf, pos, 3) == Read(Ok((name, false)), at)
    ensures ReadLiteral(buf, pos) == ReadValue(buf, at, name)
  {
    hide ReadString, ReadValue, Huffman.Outcome;
  }

  lemma LineRoundTrip(table: StaticTable, before: seq<u8>, f: Field, rest: seq<u8>)
    requires |f.0| < TWO_63 && |f.1| < TWO_63
    ensures DecodeLine(table, before + FieldLineBytes(f) + rest, |before|)
         == Read(Ok(Literal(f)), |before| + |FieldLineBytes(f)|)
  {
    PlainOctet(|f.0|);
    PlainBytes(f);
    hide Pow2, EncodePrefixInt, ReadString, ReadValue, ReadLiteral, DecodeLine, ValueString, FieldLineBytes;
    var len, value := EncodePrefixInt(3, 0x20, |f.0|), ValueString(f.1, false);
    var name := len + f.0;
    var buf, mid := before + FieldLineBytes(f) + rest, before + name;
    Regroup(before, name, value, rest);
    assert mid + (value + rest) == before + len + f.0 + (value + rest);
    StringRoundTrip(before, 3, 0x20, f.0, value + rest);
    LiteralLine(table, buf, |before|);
    NameRead(buf, |before|, f.0, |mid|);
    ValueReadBack(mid, f.1, false, rest, f.0);
  }

  lemma PlainBytes(f: Field)
    ensures Pow2(3) == 8 && FieldLineBytes(f) == EncodePrefixInt(3, 0x20, |f.0|) + f.0 + ValueString(f.1, false)
  {
    EightAndSeven();
    hide EncodePrefixInt;
  }

  lemma {:induction false} LinesRoundTrip(table: StaticTable, before: seq<u8>, fields: seq<Field>)
    requires Encodable(fields)
    ensures Lines(table, before + FieldLinesBytes(fields), |before|) == Literals(fields)
    decreases |fields|
  {
    hide DecodeLine, FieldLineBytes;
    var buf := before + FieldLinesBytes(fields);
    if fields == [] {
      assert buf == before;
    } else {
      var head, tail := FieldLineBytes(fields[0]), FieldLinesBytes(fields[1..]);
      assert buf == before + head + tail;
      LineRoundTrip(table, before, fields[0], tail);
      assert |head| > 0 by { LineNonempty(fields[0]); }
      LinesRoundTrip(table, before + head, fields[1..]);
    }
  }

  lemma LineNonempty(f: Field)
    ensures |FieldLineBytes(f)| > 0
  {
  }

  lemma EmptyInsertCount(lines: seq<u8>)
    ensures SectionStart([0, 0] + lines) == Ok(2)
  {
    EightAndSeven();
    hide Pow2, ReadGroups;
  }

  /** Decoding the encoder's output gives back exactly the field list, in order. */
  lemma FieldSectionRoundTrip(table: StaticTable, fields: seq<Field>)
    requires Encodable(fields)
    ensures SectionStart(FieldSection(fields)) == Ok(2)
    ensures Lines(table, FieldSection(fields), 2) == Literals(fields)
  {
    hide SectionStart, Lines, Literals;
    EmptyInsertCount(FieldLinesBytes(fields));
    LinesRoundTrip(table, [0, 0], fields);
  }

  // ----- lines as any encoder may write them -----

  /** A field line on the wire: a static table entry, a value under a static table name, or a literal. */
  datatype WireLine =
    | Entry(index: nat)
    | Under(index: nat, raw: seq<u8>, huffman: bool)
    | Plain(name: seq<u8>, raw: seq<u8>)

  ghost predicate Writable(table: StaticTable, l: WireLine) {
    match l
    case Entry(i) => i < |table| && i < TWO_63
    case Under(i, raw, _) => i < |table| && i < TWO_63 && |raw| < TWO_63
    case Plain(name, raw) => |name| < TWO_63 && |raw| < TWO_63
  }

  function ValueString(raw: seq<u8>, huffman: bool): seq<u8> {
    assert Pow2(7) == 128 by { SeventhPower(); }
    EncodePrefixInt(7, if huffman then 0x80 else 0, |raw|) + raw
  }

  /** Section 4.5 of RFC 9204: 11 and a six-bit index; 01, N, 1 and a four-bit index; 001. */
  function WireBytes(l: WireLine): (bs: seq<u8>)
    ensures |bs| > 0
  {
    assert Pow2(6) == 64 && Pow2(4) == 16 by { EightAndSeven(); }
    match l
    case Entry(i) => EncodePrefixInt(6, 0xC0, i)
    case Under(i, raw, huffman) => EncodePrefixInt(4, 0x50, i) + ValueString(raw, huffman)
    case Plain(name, raw) => LineNonempty((name, raw)); FieldLineBytes((name, raw))
  }

  function WireSection(ls: seq<WireLine>): seq<u8> {
    if ls == [] then [] else WireBytes(ls[0]) + WireSection(ls[1..])
  }

  /** What a line stands for. */
  function Meaning(table: StaticTable, l: WireLine): FieldLine
    requires l.Plain? || l.index < |table|
  {
    match l
    case Entry(i) => FieldLine(table[i].0, Static(table[i].1))
    case Under(i, raw, huffman) => FieldLine(table[i].0, Wire(raw, huffman))
    case Plain(name, raw) => FieldLine(name, Wire(raw, false))
  }

  ghost predicate AllWritable(table: StaticTable, ls: seq<WireLine>) {
    forall i :: 0 <= i < |ls| ==> Writable(table, ls[i])
  }

  lemma IndexReadBack(table: StaticTable, before: seq<u8>, p: nat, flags: u8, i: nat, rest: seq<u8>)
    requires 1 <= p <= 8 && flags % Pow2(p) == 0 && i < TWO_63
    ensures var bs := EncodePrefixInt(p, flags, i);
            var r := ReadIndexed(table, before + bs + rest, |before|, p);
            && r.pos == |before| + |bs|
            && r.result == if i < |table| then Ok(table[i]) else Err(BadIndex(i))
  {
    hide Pow2, EncodePrefixInt, DecodePrefixInt;
    WidthBound(p);
    PrefixIntRoundTrip(before, p, flags, i, rest);
  }

  /** An indexed line reads back the table entry, or is refused beyond the table. */
  lemma EntryReadBack(table: StaticTable, before: seq<u8>, i: nat, rest: seq<u8>)
    requires i < TWO_63
    ensures WireBytes(Entry(i)) != []
    ensures var r := DecodeLine(table, before + WireBytes(Entry(i)) + rest, |before|);
            && r.pos == |before| + |WireBytes(Entry(i))|
            && r.result == if i < |table| then Ok(FieldLine(table[i].0, Static(table[i].1))) else Err(BadIndex(i))
  {
    EightAndSeven();
    FirstOctet(6, 0xC0, i);
    hide Pow2, EncodePrefixInt, ReadIndexed, ReadLiteral;
    var bs := EncodePrefixInt(6, 0xC0, i);
    var buf := before + bs + rest;
    assert buf[|before|] == bs[0] && bs[0] / 64 == 3;
    IndexReadBack(table, before, 6, 0xC0, i, rest);
  }

  /** A line under a table name reads back that name and the value as written. */
  lemma UnderReadBack(table: StaticTable, before: seq<u8>, i: nat, raw: seq<u8>, huffman: bool, rest: seq<u8>)
    requires i < |table| && i < TWO_63 && |raw| < TWO_63
    ensures var bs := WireBytes(Under(i, raw, huffman));
            DecodeLine(table, before + bs + rest, |before|)
            == Read(Ok(FieldLine(table[i].0, Wire(raw, huffman))), |before| + |bs|)
  {
    UnderOctet(i);
    hide Pow2, EncodePrefixInt, ReadIndexed, ReadValue, DecodeLine, ValueString;
    var idx, value := EncodePrefixInt(4, 0x50, i), ValueString(raw, huffman);
    var mid := before + idx;
    var buf := before + (idx + value) + rest;
    Regroup(before, idx, value, rest);
    IndexReadBack(table, before, 4, 0x50, i, value + rest);
    ValueReadBack(mid, raw, huffman, rest, table[i].0);
    NamedLine(table, buf, |before|, table[i]);
  }

  lemma UnderOctet(i: nat)
    ensures Pow2(4) == 16 && EncodePrefixInt(4, 0x50, i)[0] / 16 == 5
  {
    EightAndSeven();
    FirstOctet(4, 0x50, i);
  }

  lemma ValueReadBack(before: seq<u8>, raw: seq<u8>, huffman: bool, rest: seq<u8>, name: seq<u8>)
    requires |raw| < TWO_63
    ensures var s := ValueString(raw, huffman);
            ReadValue(before + s + rest, |before|, name)
            == Read(Ok(FieldLine(name, Wire(raw, huffman))), |before| + |s|)
  {
    EightAndSeven();
    hide Pow2, EncodePrefixInt, ReadString;
    var flags: u8 := if huffman then 0x80 else 0;
    var len := EncodePrefixInt(7, flags, |raw|);
    assert before + (len + raw) + rest == before + len + raw + rest;
    StringRoundTrip(before, 7, flags, raw, rest);
  }

  lemma NamedLine(table: StaticTable, buf: seq<u8>, pos: nat, f: Field)
    requires pos < |buf| && buf[pos] / 16 == 5 && ReadIndexed(table, buf, pos, 4).result == Ok(f)
    ensures DecodeLine(table, buf, pos) == ReadValue(buf, ReadIndexed(table, buf, pos, 4).pos, f.0)
  {
    hide ReadIndexed, ReadValue, ReadLiteral;
  }

  lemma WireReadBack(table: StaticTable, before: seq<u8>, l: WireLine, rest: seq<u8>)
    requires Writable(table, l)
    ensures DecodeLine(table, before + WireBytes(l) + rest, |before|)
            == Read(Ok(Meaning(table, l)), |before| + |WireBytes(l)|)
  {
    hide DecodeLine, FieldLineBytes, EncodePrefixInt, ValueString;
    match l
    case Entry(i) => EntryReadBack(table, before, i, rest);
    case Under(i, raw, huffman) => UnderReadBack(table, before, i, raw, huffman, rest);
    case Plain(name, raw) => LineRoundTrip(table, before, (name, raw), rest);
  }

  ghost function Meanings(table: StaticTable, ls: seq<WireLine>): (r: seq<Result<FieldLine, QpackError>>)
    requires AllWritable(table, ls)
    ensures |r| == |ls|
  {
    seq(|ls|, i requires 0 <= i < |ls| => assert Writable(table, ls[i]); Ok(Meaning(table, ls[i])))
  }

  /** Any mixture of indexed, named and literal lines is read back in order. */
  lemma {:induction false} WireLinesReadBack(table: StaticTable, before: seq<u8>, ls: seq<WireLine>)
    requires AllWritable(table, ls)
    ensures Lines(table, before + WireSection(ls), |before|) == Meanings(table, ls)
    decreases |ls|
  {
    hide DecodeLine, WireBytes, Meaning;
    var buf := before + WireSection(ls);
    if ls == [] {
      assert buf == before;
    } else {
      var head, tail := WireBytes(ls[0]), WireSection(ls[1..]);
      assert buf == before + head + tail;
      assert Writable(table, ls[0]);
      assert forall i :: 0 <= i < |ls[1..]| ==> ls[1..][i] == ls[i + 1];
      WireReadBack(table, before, ls[0], tail);
      WireLinesReadBack(table, before + head, ls[1..]);
      assert Meanings(table, ls) == [Ok(Meaning(table, ls[0]))] + Meanings(table, ls[1..]);
    }
  }

  /** Every form that needs the dynamic table is refused: a dynamic index (10), a dynamic name (01, N, 0)
      and both post-base forms (000). */
  lemma DynamicRefused(table: StaticTable, buf: seq<u8>, pos: nat)
    requires pos < |buf|
    ensures 0x80 <= buf[pos] < 0xC0 || 0x40 <= buf[pos] < 0x50 || 0x60 <= buf[pos] < 0x70 || buf[pos] < 0x20 ==>
              DecodeLine(table, buf, pos) == Read(Err(DynamicTable), pos + 1)
  {
    hide ReadIndexed, ReadLiteral, ReadValue;
  }

  /** A section that refers to the dynamic table is refused, any other starts after its two numbers. */
  lemma SectionStartIff(count: nat, base: nat, rest: seq<u8>)
    requires count < TWO_63 && base < TWO_63
    ensures Pow2(8) == 256 && Pow2(7) == 128
    ensures var a, b := EncodePrefixInt(8, 0, count), EncodePrefixInt(7, 0, base);
            SectionStart(a + b + rest) == if count == 0 then Ok(|a| + |b|) else Err(DynamicTable)
  {
    EightAndSeven();
    hide Pow2, EncodePrefixInt, DecodePrefixInt;
    var a, b := EncodePrefixInt(8, 0, count), EncodePrefixInt(7, 0, base);
    PrefixIntRoundTrip([], 8, 0, count, b + rest);
    PrefixIntRoundTrip(a, 7, 0, base, rest);
    assert [] + a + (b + rest) == a + b + rest;
  }
}
