/** Huffman string decoding (pkgs/microdoh3/src/qpack.rs): the accumulator loop computes the
    unique split of the bit string into code words, for every input. */
module Huffman {
  import opened Bytes
  import opened HuffmanTable

  datatype HuffmanError = BadPadding | EosInString | NoMatch

  // ----- bit strings -----

  type Bits = seq<bool>

  function Val(b: Bits): nat {
    if b == [] then 0 else 2 * Val(b[..|b| - 1]) + if b[|b| - 1] then 1 else 0
  }

  function ToBits(v: nat, n: nat): (b: Bits)
    ensures |b| == n
  {
    if n == 0 then [] else ToBits(v / 2, n - 1) + [v % 2 == 1]
  }

  lemma {:induction false} ValBound(b: Bits)
    ensures Val(b) < Pow2(|b|)
  {
    if b == [] {
    } else {
      ValBound(b[..|b| - 1]);
    }
  }

  lemma {:induction false} ToBitsVal(b: Bits)
    ensures ToBits(Val(b), |b|) == b
  {
    if b == [] {
    } else {
      ToBitsVal(b[..|b| - 1]);
      assert b == b[..|b| - 1] + [b[|b| - 1]];
    }
  }

  lemma {:induction false} ValToBits(v: nat, n: nat)
    requires v < Pow2(n)
    ensures Val(ToBits(v, n)) == v
  {
    if n == 0 {
    } else {
      ValToBits(v / 2, n - 1);
      assert ToBits(v, n)[..n - 1] == ToBits(v / 2, n - 1);
    }
  }

  lemma Doubling(x: nat, p: nat)
    ensures x * (2 * p) == 2 * (x * p)
  {
  }

  lemma {:induction false} ValConcat(a: Bits, b: Bits)
    ensures Val(a + b) == Val(a) * Pow2(|b|) + Val(b)
  {
    if b == [] {
      assert a + b == a;
    } else {
      var b' := b[..|b| - 1];
      ValConcat(a, b');
      assert (a + b)[..|a + b| - 1] == a + b';
      Doubling(Val(a), Pow2(|b'|));
    }
  }

  /** Shifting right keeps the front bits, masking keeps the back bits. */
  lemma ValSplit(b: Bits, k: nat)
    requires k <= |b|
    ensures Val(b[..k]) == Val(b) / Pow2(|b| - k)
    ensures Val(b[k..]) == Val(b) % Pow2(|b| - k)
  {
    assert b[..k] + b[k..] == b;
    ValConcat(b[..k], b[k..]);
    ValBound(b[k..]);
    DivModUnique(Val(b), Pow2(|b| - k), Val(b[..k]), Val(b[k..]));
  }

  function DataBits(data: seq<u8>): Bits {
    if data == [] then [] else DataBits(data[..|data| - 1]) + ToBits(data[|data| - 1], 8)
  }

  ghost predicate AllOnes(b: Bits) {
    forall i :: 0 <= i < |b| ==> b[i]
  }

  // ----- code words -----

  ghost function Word(sym: nat): Bits
    requires sym <= EOS
  {
    ToBits(Entry(sym).bits, Entry(sym).len)
  }

  ghost predicate IsText(syms: seq<nat>) {
    forall i :: 0 <= i < |syms| ==> syms[i] <= EOS
  }

  ghost function Encode(syms: seq<nat>): Bits
    requires IsText(syms)
  {
    if syms == [] then [] else Word(syms[0]) + Encode(syms[1..])
  }

  /** No code word starts `b`. */
  ghost predicate Stuck(b: Bits) {
    forall sym: nat :: sym <= EOS ==> !(Word(sym) <= b)
  }

  lemma WordFacts(sym: nat)
    requires sym <= EOS
    ensures var e := Entry(sym);
            5 <= e.len <= 30 && |Word(sym)| == e.len && Val(Word(sym)) == e.bits && e.bits < Pow2(e.len)
  {
    hide Entry;
    TableCanonical(sym);
    var e := Entry(sym);
    CodesFit(e.len);
    ValToBits(e.bits, e.len);
  }

  lemma {:induction false} CodesFit(len: nat)
    requires 5 <= len <= 30
    ensures Limit(len) <= Pow2(len)
    decreases 30 - len
  {
    hide FirstCode, Offset;
    LengthSteps(len);
    if len == 30 {
      Pow2Thirty();
    } else {
      CodesFit(len + 1);
      LengthSteps(len + 1);
    }
  }

  lemma QuotientAtLeast(n: nat, m: int, p: nat)
    requires p > 0 && n >= m * p
    ensures n / p >= m
  {
    var q := n / p;
    assert n == q * p + n % p;
    if q < m {
      MulOrder(q, m, p);
    }
  }

  lemma PrefixFree(a: nat, b: nat)
    requires a <= EOS && b <= EOS && Word(a) <= Word(b)
    ensures a == b
  {
    hide Entry, FirstCode, Offset, Pow2, Val, ToBits;
    var ea, eb := Entry(a), Entry(b);
    WordFacts(a);
    WordFacts(b);
    assert Word(b)[..ea.len] == Word(a);
    ValSplit(Word(b), ea.len);
    if ea.len == eb.len {
      assert Word(b)[..ea.len] == Word(b);
      CodesDistinct(a, b);
    } else {
      TableCanonical(a);
      TableCanonical(b);
      LongerIsHigher(ea.len, eb.len);
      QuotientAtLeast(eb.bits, Limit(ea.len), Pow2(eb.len - ea.len));
    }
  }

  lemma Pow2Thirty()
    ensures Pow2(30) == 0x4000_0000
  {
    assert Pow2(10) == 1024;
    Pow2Add(10, 10);
    Pow2Add(20, 10);
  }

  lemma WordInInterval(b: Bits, len: nat)
    requires 5 <= len <= 30 && len <= |b| && FirstCode(len) <= Val(b[..len]) < Limit(len)
    ensures !Stuck(b)
  {
    hide Entry, FirstCode, Offset;
    var sym := CodeAssigned(Val(b[..len]), len);
    ToBitsVal(b[..len]);
    assert Word(sym) <= b;
  }

  /** Scanning lengths upwards without a match keeps the value at or above the next interval. */
  lemma {:induction false} StuckIsHigh(b: Bits, len: nat)
    requires Stuck(b) && 5 <= len <= 30 && len <= |b|
    ensures Val(b[..len]) >= Limit(len)
  {
    hide Entry, FirstCode, Offset, Stuck;
    LengthSteps(len);
    if len > 5 {
      StuckIsHigh(b, len - 1);
      LengthSteps(len - 1);
      assert b[..len][..len - 1] == b[..len - 1];
    }
    if Val(b[..len]) < Limit(len) {
      WordInInterval(b, len);
    }
  }

  /** The code is complete: thirty bits always contain a word, so the pending bits never reach
      the 56-bit guard. */
  lemma StuckIsShort(b: Bits)
    requires Stuck(b)
    ensures |b| < 30
  {
    hide Entry, FirstCode, Offset, Stuck;
    if |b| >= 30 {
      StuckIsHigh(b, 30);
      LengthSteps(30);
      ValBound(b[..30]);
      Pow2Thirty();
    }
  }

  // ----- the split of a bit string -----

  ghost function HeadSymbol(b: Bits): (r: Option<nat>)
    ensures r.Some? ==> r.value <= EOS && Word(r.value) <= b && |Word(r.value)| >= 5
    ensures r.None? <==> Stuck(b)
  {
    if Stuck(b) then None
    else
      var sym: nat :| sym <= EOS && Word(sym) <= b;
      WordFacts(sym);
      Some(sym)
  }

  lemma HeadSymbolIs(sym: nat, rest: Bits)
    requires sym <= EOS
    ensures HeadSymbol(Word(sym) + rest) == Some(sym)
  {
    hide Word;
    var b := Word(sym) + rest;
    assert Word(sym) <= b;
    assert HeadSymbol(b).Some?;
    var s := HeadSymbol(b).value;
    if |Word(s)| <= |Word(sym)| {
      assert Word(s) == b[..|Word(s)|] == Word(sym)[..|Word(s)|];
      PrefixFree(s, sym);
    } else {
      assert Word(sym) == b[..|Word(sym)|] == Word(s)[..|Word(sym)|];
      PrefixFree(sym, s);
    }
  }

  ghost function Symbols(b: Bits): (r: seq<nat>)
    ensures IsText(r)
    decreases |b|
  {
    match HeadSymbol(b)
    case None => []
    case Some(sym) => [sym] + Symbols(b[|Word(sym)|..])
  }

  ghost function Tail(b: Bits): Bits
    decreases |b|
  {
    match HeadSymbol(b)
    case None => b
    case Some(sym) => Tail(b[|Word(sym)|..])
  }

  lemma EncodeNil()
    ensures Encode([]) == []
  {
  }

  lemma EncodeCons(sym: nat, syms: seq<nat>)
    requires sym <= EOS && IsText(syms)
    ensures IsText([sym] + syms) && Encode([sym] + syms) == Word(sym) + Encode(syms)
  {
    hide Word;
    assert ([sym] + syms)[1..] == syms;
  }

  lemma SplitStep(b: Bits, sym: nat)
    requires HeadSymbol(b) == Some(sym)
    ensures |Word(sym)| <= |b|
    ensures var rest := b[|Word(sym)|..];
            && |rest| < |b| && b == Word(sym) + rest
            && Symbols(b) == [sym] + Symbols(rest) && Tail(b) == Tail(rest)
  {
    hide Word;
  }

  /** The split is a split: words in order, then a stuck remainder. */
  lemma {:induction false} SplitSound(b: Bits)
    ensures Encode(Symbols(b)) + Tail(b) == b
    ensures Stuck(Tail(b))
    decreases |b|
  {
    hide Word, Stuck, Encode, HeadSymbol, Symbols, Tail;
    if HeadSymbol(b).None? {
      StuckAlone(b);
      EncodeNil();
      assert [] + b == b;
    } else {
      var sym := HeadSymbol(b).value;
      SplitStep(b, sym);
      var rest := b[|Word(sym)|..];
      SplitSound(rest);
      EncodeCons(sym, Symbols(rest));
      assert Word(sym) + Encode(Symbols(rest)) + Tail(rest) == Word(sym) + (Encode(Symbols(rest)) + Tail(rest));
    }
  }

  /** ... and the only one. */
  lemma {:induction false} SplitUnique(syms: seq<nat>, tail: Bits)
    requires IsText(syms) && Stuck(tail)
    ensures Symbols(Encode(syms) + tail) == syms
    ensures Tail(Encode(syms) + tail) == tail
  {
    hide Word, Stuck;
    var b := Encode(syms) + tail;
    if syms == [] {
      assert b == tail;
    } else {
      var rest := Encode(syms[1..]) + tail;
      SplitUnique(syms[1..], tail);
      assert b == Word(syms[0]) + rest;
      HeadSymbolIs(syms[0], rest);
      assert b[|Word(syms[0])|..] == rest;
    }
  }

  /** Splitting early and continuing on the remainder equals splitting everything. */
  lemma {:induction false} SplitExtends(b: Bits, more: Bits)
    ensures Symbols(b + more) == Symbols(b) + Symbols(Tail(b) + more)
    ensures Tail(b + more) == Tail(Tail(b) + more)
    decreases |b|
  {
    hide Word, Stuck;
    match HeadSymbol(b)
    case None =>
    case Some(sym) =>
      var n := |Word(sym)|;
      SplitExtends(b[n..], more);
      assert b + more == Word(sym) + (b[n..] + more);
      HeadSymbolIs(sym, b[n..] + more);
      assert (b + more)[n..] == b[n..] + more;
  }

  // ----- decoding -----

  /** What `huffman_decode` returns, read off the split of its input. */
  ghost function Outcome(data: seq<u8>): Result<seq<u8>, HuffmanError> {
    Verdict(Symbols(DataBits(data)), Tail(DataBits(data)))
  }

  ghost function Verdict(syms: seq<nat>, tail: Bits): Result<seq<u8>, HuffmanError>
    requires IsText(syms)
  {
    if EOS in syms then Err(EosInString)
    else if |tail| >= 8 then Err(NoMatch)
    else if !AllOnes(tail) then Err(BadPadding)
    else
      assert forall i :: 0 <= i < |syms| ==> syms[i] != EOS;
      Ok(syms)
  }

  lemma OnesAreStuck(b: Bits)
    requires AllOnes(b) && |b| < 8
    ensures Stuck(b)
  {
    hide Entry;
    forall sym: nat | sym <= EOS && Word(sym) <= b
      ensures false
    {
      WordFacts(sym);
      var w := Word(sym);
      forall i | 0 <= i < |w| ensures w[i] { assert w[i] == b[i]; }
      ShortWordHasZero(sym);
    }
  }

  lemma {:induction false} ValOfOnes(b: Bits)
    requires AllOnes(b)
    ensures Val(b) == Pow2(|b|) - 1
  {
    if b == [] {
    } else {
      ValOfOnes(b[..|b| - 1]);
      assert b[|b| - 1];
    }
  }

  lemma {:induction false} ValOnesConverse(b: Bits)
    requires Val(b) == Pow2(|b|) - 1
    ensures AllOnes(b)
  {
    if b == [] {
    } else {
      var b' := b[..|b| - 1];
      ValBound(b');
      ValOnesConverse(b');
      assert forall i :: 0 <= i < |b'| ==> b[i] == b'[i];
    }
  }

  lemma ShortWordHasZero(sym: nat)
    requires sym <= EOS && Entry(sym).len < 8
    ensures !AllOnes(Word(sym))
  {
    hide Entry;
    WordFacts(sym);
    TableCanonical(sym);
    assert Pow2(5) == 32 && Pow2(6) == 64 && Pow2(7) == 128;
    assert Limit(5) < 32 && Limit(6) < 64 && Limit(7) < 128;
    if AllOnes(Word(sym)) {
      ValOfOnes(Word(sym));
    }
  }

  /** Decoding is the exact inverse of encoding: it succeeds with `s` exactly on the code words
      of `s` padded to octets with fewer than eight one-bits. */
  lemma DecodeIffEncoding(data: seq<u8>, s: seq<u8>)
    ensures Outcome(data) == Ok(s) <==>
            exists pad: Bits :: |pad| < 8 && AllOnes(pad) && DataBits(data) == Encode(s) + pad
  {
    hide Stuck;
    var b := DataBits(data);
    if Outcome(data) == Ok(s) {
      SplitSound(b);
    }
    if exists pad: Bits :: |pad| < 8 && AllOnes(pad) && b == Encode(s) + pad {
      var pad: Bits :| |pad| < 8 && AllOnes(pad) && b == Encode(s) + pad;
      OnesAreStuck(pad);
      SplitUnique(s, pad);
    }
  }

  /** Two different strings never share an encoding. */
  lemma EncodingInjective(s: seq<nat>, t: seq<nat>, p: Bits, q: Bits)
    requires IsText(s) && IsText(t)
    requires |p| < 8 && |q| < 8 && AllOnes(p) && AllOnes(q)
    requires Encode(s) + p == Encode(t) + q
    ensures s == t && p == q
  {
    OnesAreStuck(p);
    OnesAreStuck(q);
    SplitUnique(s, p);
    SplitUnique(t, q);
  }

  /** First table row holding a code, as the linear search in the decoder finds it. */
  method FindCode(bits: nat, len: nat) returns (r: Option<nat>)
    ensures r.Some? ==> r.value <= EOS && Entry(r.value) == Code(bits, len)
    ensures r.None? ==> forall sym: nat :: sym <= EOS ==> Entry(sym) != Code(bits, len)
  {
    hide Entry;
    for sym := 0 to EOS + 1
      invariant forall s: nat :: s < sym ==> Entry(s) != Code(bits, len)
    {
      if Entry(sym) == Code(bits, len) {
        return Some(sym);
      }
    }
    return None;
  }

  /** One pass of the length loop: the symbol at the front of the pending bits, if any. */
  method MatchFront(acc: nat, nbits: nat, ghost pend: Bits) returns (r: Option<(nat, nat)>)
    requires |pend| == nbits && Val(pend) == acc
    ensures match r
            case None => Stuck(pend)
            case Some((sym, len)) =>
              sym <= EOS && len == |Word(sym)| && 5 <= len <= nbits && HeadSymbol(pend) == Some(sym)
  {
    hide Entry, HeadSymbol;
    forall sym: nat | sym <= EOS ensures Entry(sym).len >= 5 { WordFacts(sym); }
    var len := 5;
    while len <= 30 && len <= nbits
      invariant 5 <= len
      invariant forall sym: nat :: sym <= EOS && Entry(sym).len < len ==> !(Word(sym) <= pend)
    {
      var code := acc / Pow2(nbits - len) % Pow2(len);
      ValSplit(pend, len);
      ValBound(pend[..len]);
      DivModUnique(Val(pend[..len]), Pow2(len), 0, Val(pend[..len]));
      var found := FindCode(code, len);
      if found.Some? {
        FrontFound(pend, len, found.value);
        return Some((found.value, len));
      }
      forall sym: nat | sym <= EOS && Entry(sym).len == len && Word(sym) <= pend
        ensures false
      {
        WordIsFront(sym, pend);
      }
      len := len + 1;
    }
    forall sym: nat | sym <= EOS
      ensures !(Word(sym) <= pend)
    {
      WordFacts(sym);
    }
    return None;
  }

  lemma WordIsFront(sym: nat, pend: Bits)
    requires sym <= EOS && Word(sym) <= pend
    ensures var len := Entry(sym).len; len <= |pend| && Entry(sym) == Code(Val(pend[..len]), len)
  {
    hide Entry;
    WordFacts(sym);
    assert Word(sym) == pend[..Entry(sym).len];
  }

  lemma FrontFound(pend: Bits, len: nat, sym: nat)
    requires len <= |pend| && sym <= EOS && Entry(sym) == Code(Val(pend[..len]), len)
    ensures len == |Word(sym)| && HeadSymbol(pend) == Some(sym)
  {
    hide Entry, HeadSymbol;
    ToBitsVal(pend[..len]);
    assert Word(sym) == pend[..len];
    assert pend == Word(sym) + pend[len..];
    HeadSymbolIs(sym, pend[len..]);
  }

  /** `huffman_decode`. The ghost `pend` is the bit string held in `acc`/`nbits`. */
  method HuffmanDecode(data: seq<u8>) returns (r: Result<seq<u8>, HuffmanError>)
    ensures r == Outcome(data)
  {
    hide Stuck, Word, HeadSymbol, Val, Pow2;
    var out: seq<u8> := [];
    var acc: nat := 0;
    var nbits: nat := 0;
    ghost var pend: Bits := [];
    EmptyStart();
    for i := 0 to |data|
      invariant |pend| == nbits && Val(pend) == acc
      invariant EOS !in out
      invariant Symbols(DataBits(data[..i])) == out
      invariant Tail(DataBits(data[..i])) == pend
      invariant Stuck(pend)
    {
      StuckIsShort(pend);
      ghost var before := pend;
      PushByte(data, i, pend, out);
      ValConcat(pend, ToBits(data[i], 8));
      assert Pow2(8) == 256 && Val(ToBits(data[i], 8)) == data[i] by { ByteVal(data[i]); }
      pend := pend + ToBits(data[i], 8);
      acc := acc * 256 + data[i];
      nbits := nbits + 8;
      assert nbits <= 37;  // so the source's `nbits > 56` guard is never taken
      var matched := true;
      while matched
        invariant |pend| == nbits && Val(pend) == acc
        invariant EOS !in out
        invariant Symbols(DataBits(data[..i + 1])) == out + Symbols(pend)
        invariant Tail(DataBits(data[..i + 1])) == Tail(pend)
        invariant !matched ==> Stuck(pend)
        decreases matched, nbits
      {
        var front := MatchFront(acc, nbits, pend);
        if front.None? {
          matched := false;
        } else {
          var (sym, len) := front.value;
          assert Symbols(pend) == [sym] + Symbols(pend[len..]);
          if sym == EOS {
            assert EOS in Symbols(DataBits(data[..i + 1]));
            EosPersists(data, i + 1);
            return Err(EosInString);
          }
          assert out + Symbols(pend) == out + [sym] + Symbols(pend[len..]);
          ValSplit(pend, len);
          out := out + [sym];
          nbits := nbits - len;
          acc := acc % Pow2(nbits);
          pend := pend[len..];
        }
      }
      StuckAlone(pend);
      assert out + [] == out;
    }
    assert data[..|data|] == data;
    if nbits >= 8 {
      return Err(NoMatch);
    }
    if nbits > 0 && acc != Pow2(nbits) - 1 {
      assert !AllOnes(pend) by {
        if AllOnes(pend) { ValOfOnes(pend); }
      }
      return Err(BadPadding);
    }
    assert AllOnes(pend) by {
      if nbits > 0 { ValOnesConverse(pend); }
    }
    return Ok(out);
  }

  lemma EmptyStart()
    ensures Stuck([]) && Symbols(DataBits([])) == [] && Tail(DataBits([])) == [] && Val([]) == 0
  {
    hide Entry;
    forall sym: nat | sym <= EOS ensures !(Word(sym) <= []) { WordFacts(sym); }
  }

  lemma StuckAlone(b: Bits)
    requires Stuck(b)
    ensures Symbols(b) == [] && Tail(b) == b
  {
  }

  lemma ByteVal(b: u8)
    ensures Pow2(8) == 256 && Val(ToBits(b, 8)) == b
  {
    ValToBits(b, 8);
  }

  lemma PushByte(data: seq<u8>, i: nat, pend: Bits, out: seq<nat>)
    requires i < |data| && Tail(DataBits(data[..i])) == pend && Symbols(DataBits(data[..i])) == out
    ensures Symbols(DataBits(data[..i + 1])) == out + Symbols(pend + ToBits(data[i], 8))
    ensures Tail(DataBits(data[..i + 1])) == Tail(pend + ToBits(data[i], 8))
  {
    hide Symbols, Tail;
    assert data[..i + 1][..i] == data[..i];
    SplitExtends(DataBits(data[..i]), ToBits(data[i], 8));
  }

  lemma {:induction false} EosPersists(data: seq<u8>, k: nat)
    requires k <= |data| && EOS in Symbols(DataBits(data[..k]))
    ensures EOS in Symbols(DataBits(data))
    decreases |data| - k
  {
    hide Symbols, Tail;
    if k == |data| {
      assert data[..k] == data;
    } else {
      var pend := Tail(DataBits(data[..k]));
      PushByte(data, k, pend, Symbols(DataBits(data[..k])));
      EosPersists(data, k + 1);
    }
  }
}
