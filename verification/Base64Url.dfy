/** Unpadded base64url (pkgs/microdoh3/src/base64url.rs; section 5 of RFC 4648). */
module Base64Url {
  import opened Bytes

  /** The alphabet A-Z a-z 0-9 - _ by position. */
  function Symbol(i: nat): u8
    requires i < 64
  {
    if i < 26 then 65 + i
    else if i < 52 then 71 + i
    else if i < 62 then i - 4
    else if i == 62 then 45
    else 95
  }

  function Index(c: u8): (r: Option<nat>)
    ensures r.Some? ==> r.value < 64
  {
    if 65 <= c <= 90 then Some(c - 65)
    else if 97 <= c <= 122 then Some(c - 71)
    else if 48 <= c <= 57 then Some(c + 4)
    else if c == 45 then Some(62)
    else if c == 95 then Some(63)
    else None
  }

  lemma IndexInverts(i: nat)
    requires i < 64
    ensures Index(Symbol(i)) == Some(i)
  {
  }

  function EncodedLen(n: nat): nat {
    n / 3 * 4 + if n % 3 == 0 then 0 else if n % 3 == 1 then 2 else 3
  }

  function Sextet(n: nat, k: nat): (s: nat)
    requires k < 4
    ensures s < 64
  {
    (if k == 0 then n / 0x4_0000 else if k == 1 then n / 0x1000 else if k == 2 then n / 0x40 else n) % 64
  }

  function Group(a: u8, b: u8, c: u8): nat { a * 0x1_0000 + b * 0x100 + c }

  /** The first `k` symbols of a 24-bit group. */
  function Symbols(n: nat, k: nat): (r: seq<u8>)
    requires 2 <= k <= 4
    ensures |r| == k
  {
    [Symbol(Sextet(n, 0)), Symbol(Sextet(n, 1))]
    + (if k > 2 then [Symbol(Sextet(n, 2))] else [])
    + if k > 3 then [Symbol(Sextet(n, 3))] else []
  }

  function Encode(s: seq<u8>): (r: seq<u8>)
    ensures |r| == EncodedLen(|s|)
  {
    if |s| == 0 then []
    else if |s| == 1 then Symbols(Group(s[0], 0, 0), 2)
    else if |s| == 2 then Symbols(Group(s[0], s[1], 0), 3)
    else Symbols(Group(s[0], s[1], s[2]), 4) + Encode(s[3..])
  }

  const PAD_SIGN: u8 := 61

  /** The encoding never holds an equals sign. */
  lemma {:induction false} NoPadSign(s: seq<u8>)
    ensures PAD_SIGN !in Encode(s)
  {
    hide Group, Sextet;
    if |s| >= 3 {
      NoPadSign(s[3..]);
    }
  }

  /** Store the first `k` symbols of a 24-bit group at `o`. */
  method Store(out: array<u8>, o: nat, n: nat, k: nat)
    requires 2 <= k <= 4 && o + k <= out.Length
    modifies out
    ensures out[..o + k] == old(out[..o]) + Symbols(n, k)
    ensures out[o + k..] == old(out[o + k..])
  {
    hide Symbol, Sextet;
    out[o] := Symbol(Sextet(n, 0));
    out[o + 1] := Symbol(Sextet(n, 1));
    if k > 2 {
      out[o + 2] := Symbol(Sextet(n, 2));
    }
    if k > 3 {
      out[o + 3] := Symbol(Sextet(n, 3));
    }
  }

  /** `encode_into`: fills the front of a caller-supplied buffer, three octets at a time. */
  method EncodeInto(input: seq<u8>, out: array<u8>) returns (o: nat)
    requires out.Length >= EncodedLen(|input|)
    modifies out
    ensures o == EncodedLen(|input|)
    ensures out[..o] == Encode(input)
    ensures out[o..] == old(out[o..])
  {
    hide Symbols, Group, Encode, EncodedLen;
    o := 0;
    var i := 0;
    ghost var was := out[..];
    while i + 3 <= |input|
      invariant i <= |input| && o + EncodedLen(|input| - i) == EncodedLen(|input|)
      invariant out[..o] + Encode(input[i..]) == Encode(input)
      invariant out[o..] == was[o..]
    {
      ghost var done, quad := out[..o], Symbols(Group(input[i], input[i + 1], input[i + 2]), 4);
      LenStep(|input| - i);
      EncodeStep(input[i..]);
      Store(out, o, Group(input[i], input[i + 1], input[i + 2]), 4);
      assert input[i..][3..] == input[i + 3..];
      assert done + (quad + Encode(input[i + 3..])) == done + quad + Encode(input[i + 3..]);
      assert was[o..][4..] == was[o + 4..];
      o := o + 4;
      i := i + 3;
    }
    EncodeRest(input[i..]);
    if i + 1 == |input| {
      Store(out, o, Group(input[i], 0, 0), 2);
      o := o + 2;
    } else if i + 2 == |input| {
      Store(out, o, Group(input[i], input[i + 1], 0), 3);
      o := o + 3;
    }
  }

  lemma EncodeStep(s: seq<u8>)
    requires |s| >= 3
    ensures Encode(s) == Symbols(Group(s[0], s[1], s[2]), 4) + Encode(s[3..])
  {
    hide Symbols, Group, EncodedLen;
  }

  lemma EncodeRest(s: seq<u8>)
    requires |s| < 3
    ensures |s| == 0 ==> Encode(s) == [] && EncodedLen(0) == 0
    ensures |s| == 1 ==> Encode(s) == Symbols(Group(s[0], 0, 0), 2) && EncodedLen(1) == 2
    ensures |s| == 2 ==> Encode(s) == Symbols(Group(s[0], s[1], 0), 3) && EncodedLen(2) == 3
  {
  }

  lemma LenStep(n: nat)
    requires n >= 3
    ensures EncodedLen(n) == 4 + EncodedLen(n - 3)
  {
  }

  /** Reference decoder: four symbols make three octets, two or three make the remainder. */
  function Decode(s: seq<u8>): Option<seq<u8>> {
    if |s| == 0 then Some([])
    else if |s| == 1 then None
    else
      match (Index(s[0]), Index(s[1]))
      case (Some(i), Some(j)) =>
        var a: u8 := i * 4 + j / 16;
        if |s| == 2 then Some([a])
        else
          (match Index(s[2])
           case None => None
           case Some(k) =>
             var b: u8 := j % 16 * 16 + k / 4;
             if |s| == 3 then Some([a, b])
             else
               match (Index(s[3]), Decode(s[4..]))
               case (Some(l), Some(rest)) => Some([a, b, k % 4 * 64 + l] + rest)
               case _ => None)
      case _ => None
  }

  lemma SextetsOf(a: u8, b: u8, c: u8)
    ensures var n := Group(a, b, c);
            && Sextet(n, 0) == a / 4
            && Sextet(n, 1) == a % 4 * 16 + b / 16
            && Sextet(n, 2) == b % 16 * 4 + c / 64
            && Sextet(n, 3) == c % 64
  {
    var n, s1, s2 := Group(a, b, c), a % 4 * 16 + b / 16, b % 16 * 4 + c / 64;
    var q := a / 4 * 64 + s1;
    assert n == (q * 64 + s2) * 64 + c % 64;
    Digit(n, q * 64 + s2, c % 64);
    Digit(q * 64 + s2, q, s2);
    Digit(q, a / 4, s1);
    assert n / 0x1000 == n / 64 / 64 && n / 0x4_0000 == n / 64 / 64 / 64 by { Shifts(n); }
  }

  lemma Digit(n: nat, q: nat, r: nat)
    requires n == q * 64 + r && r < 64
    ensures n / 64 == q && n % 64 == r
  {
  }

  lemma Shifts(n: nat)
    ensures n / 0x1000 == n / 64 / 64 && n / 0x4_0000 == n / 64 / 64 / 64
  {
    DivDiv(n, 64, 64);
    DivDiv(n, 0x1000, 64);
  }

  lemma GroupDecodes(a: u8, b: u8, c: u8)
    ensures var g := Symbols(Group(a, b, c), 4);
            && Index(g[0]) == Some(a / 4) && Index(g[1]) == Some(a % 4 * 16 + b / 16)
            && Index(g[2]) == Some(b % 16 * 4 + c / 64) && Index(g[3]) == Some(c % 64)
  {
    hide Symbol, Index, Sextet, Group;
    SextetsOf(a, b, c);
    var n := Group(a, b, c);
    IndexInverts(Sextet(n, 0));
    IndexInverts(Sextet(n, 1));
    IndexInverts(Sextet(n, 2));
    IndexInverts(Sextet(n, 3));
  }

  lemma Shorter(n: nat)
    ensures Symbols(n, 2) == Symbols(n, 4)[..2] && Symbols(n, 3) == Symbols(n, 4)[..3]
  {
    hide Symbol, Sextet;
  }

  lemma Reassemble(a: u8, b: u8, c: u8)
    ensures a / 4 * 4 + (a % 4 * 16 + b / 16) / 16 == a
    ensures (a % 4 * 16 + b / 16) % 16 * 16 + (b % 16 * 4 + c / 64) / 4 == b
    ensures (b % 16 * 4 + c / 64) % 4 * 64 + c % 64 == c
  {
  }

  /** Decoding inverts encoding, for every octet string. */
  lemma {:induction false} RoundTrip(s: seq<u8>)
    ensures Decode(Encode(s)) == Some(s)
  {
    hide Symbols, Index, Group;
    if |s| > 0 {
      var a := s[0];
      var b := if |s| > 1 then s[1] else 0;
      var c := if |s| > 2 then s[2] else 0;
      GroupDecodes(a, b, c);
      Shorter(Group(a, b, c));
      Reassemble(a, b, c);
      if |s| > 2 {
        RoundTrip(s[3..]);
        assert Encode(s)[4..] == Encode(s[3..]);
        assert s == [a, b, c] + s[3..];
      } else {
        assert s == if |s| == 2 then [a, b] else [a];
      }
    }
  }
}
