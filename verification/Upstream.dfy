/** Upstream sets and the weighted worker assignment (pkgs/microdoh3/src/shared.rs). */
module Upstream {
  import opened Bytes

  const MAX_ADDRS: nat := 16

  datatype IpAddr = V4(a: u8, b: u8, c: u8, d: u8) | V6(octets: seq<u8>)

  datatype RawAddr = RawAddr(bytes: seq<u8>, isV6: nat)

  const ZERO_ADDR := RawAddr([0, 0, 0, 0, 0, 0, 0, 0, 0, 0, 0, 0, 0, 0, 0, 0], 0)

  function FromIp(ip: IpAddr): RawAddr {
    match ip
    case V4(a, b, c, d) => RawAddr([a, b, c, d, 0, 0, 0, 0, 0, 0, 0, 0, 0, 0, 0, 0], 0)
    case V6(octets) => RawAddr(octets, 1)
  }

  function ToIp(raw: RawAddr): IpAddr {
    if raw.isV6 == 1 then V6(raw.bytes)
    else if |raw.bytes| >= 4 then V4(raw.bytes[0], raw.bytes[1], raw.bytes[2], raw.bytes[3])
    else V4(0, 0, 0, 0)
  }

  lemma AddrRoundTrip(ip: IpAddr)
    ensures ToIp(FromIp(ip)) == ip
  {
  }

  datatype UpstreamSet = UpstreamSet(
    addrs: seq<IpAddr>, weights: seq<nat>, revision: nat, workers: nat, published: nat)

  /** One worker's report about the address it is using. */
  datatype ScoreSample = ScoreSample(
    addr: Option<IpAddr>, score: nat, ok: nat, fail: nat, flags: nat, updated: nat)

  // ----- slot assignment -----

  function Sum(ws: seq<nat>): nat {
    if ws == [] then 0 else Sum(ws[..|ws| - 1]) + ws[|ws| - 1]
  }

  /** The worker's midpoint in units of total weight. */
  function Target(total: nat, workers: nat, idx: nat): nat
    requires workers >= 1
  {
    var n: nat := (2 * idx + 1) * total;
    var d: nat := 2 * workers;
    n / d
  }

  /** First position from `k` whose cumulative weight exceeds `target`; the last one otherwise. */
  function Find(ws: seq<nat>, target: nat, k: nat): (r: nat)
    requires k < |ws|
    ensures k <= r < |ws|
    decreases |ws| - k
  {
    if Sum(ws[..k + 1]) > target || k + 1 == |ws| then k else Find(ws, target, k + 1)
  }

  function Usable(u: UpstreamSet): seq<nat> {
    u.weights[..if |u.addrs| < |u.weights| then |u.addrs| else |u.weights|]
  }

  function Slot(ws: seq<nat>, workers: nat, idx: nat): (r: nat)
    requires |ws| > 0 && workers >= 1
    ensures r < |ws|
  {
    if Sum(ws) == 0 then idx % |ws| else Find(ws, Target(Sum(ws), workers, idx), 0)
  }

  function SlotFor(u: UpstreamSet, idx: nat): (r: Option<nat>)
    ensures r.Some? ==> r.value < |u.addrs| && r.value < |u.weights|
    ensures r.None? <==> u.addrs == [] || u.weights == []
  {
    var ws := Usable(u);
    if ws == [] then None else Some(Slot(ws, if u.workers == 0 then 1 else u.workers, idx))
  }

  /** `slot_for`. */
  method ComputeSlot(u: UpstreamSet, idx: nat) returns (r: Option<nat>)
    ensures r == SlotFor(u, idx)
  {
    hide Find, Target;
    var n := if |u.addrs| < |u.weights| then |u.addrs| else |u.weights|;
    if n == 0 {
      return None;
    }
    var ws := u.weights[..n];
    var workers := if u.workers == 0 then 1 else u.workers;
    var total := Total(ws);
    if total == 0 {
      return Some(idx % n);
    }
    var slot := Search(ws, Target(total, workers, idx));
    return Some(slot);
  }

  method Total(ws: seq<nat>) returns (total: nat)
    ensures total == Sum(ws)
  {
    total := 0;
    for i := 0 to |ws|
      invariant total == Sum(ws[..i])
    {
      assert ws[..i + 1][..i] == ws[..i];
      total := total + ws[i];
    }
    assert ws[..|ws|] == ws;
  }

  /** The accumulator loop over cumulative weights. */
  method Search(ws: seq<nat>, target: nat) returns (r: nat)
    requires ws != []
    ensures r == Find(ws, target, 0)
  {
    var acc := 0;
    for i := 0 to |ws|
      invariant acc == Sum(ws[..i])
      invariant i < |ws| ==> Find(ws, target, i) == Find(ws, target, 0)
      invariant i == |ws| ==> Find(ws, target, 0) == |ws| - 1
    {
      assert ws[..i + 1][..i] == ws[..i];
      acc := acc + ws[i];
      if target < acc {
        return i;
      }
    }
    return |ws| - 1;
  }

  function WeightOf(u: UpstreamSet, ip: IpAddr): nat {
    WeightAt(u.addrs, u.weights, ip)
  }

  /** Weight at the first position of `ip`; 0 when it is missing. */
  function WeightAt(addrs: seq<IpAddr>, weights: seq<nat>, ip: IpAddr): nat {
    if addrs == [] then 0
    else if addrs[0] == ip then (if weights == [] then 0 else weights[0])
    else WeightAt(addrs[1..], if weights == [] then [] else weights[1..], ip)
  }

  /** The weight of an address is that of its first entry, and 0 without one. */
  lemma {:induction false} WeightOfEntry(addrs: seq<IpAddr>, weights: seq<nat>, i: nat)
    requires i < |addrs| && addrs[i] !in addrs[..i]
    ensures WeightAt(addrs, weights, addrs[i]) == if i < |weights| then weights[i] else 0
  {
    if i > 0 {
      assert addrs[0] in addrs[..i];
      assert addrs[1..][..i - 1] == addrs[..i][1..];
      WeightOfEntry(addrs[1..], if weights == [] then [] else weights[1..], i - 1);
    }
  }

  lemma {:induction false} WeightOfMissing(addrs: seq<IpAddr>, weights: seq<nat>, ip: IpAddr)
    requires ip !in addrs
    ensures WeightAt(addrs, weights, ip) == 0
  {
    if addrs != [] {
      WeightOfMissing(addrs[1..], if weights == [] then [] else weights[1..], ip);
    }
  }

  /** Without any weight the workers go round the addresses. */
  lemma NoWeightsRoundRobin(u: UpstreamSet, idx: nat)
    requires u.addrs != [] && |u.weights| == |u.addrs| && forall i :: 0 <= i < |u.weights| ==> u.weights[i] == 0
    ensures SlotFor(u, idx) == Some(idx % |u.addrs|)
  {
    assert u.weights[..|u.weights|] == u.weights;
    SumBound(u.weights, 0);
  }

  // ----- the quota rule -----

  /** How many workers have a target below cumulative weight `p`: half-down rounding of W*p/T. */
  function Cut(p: nat, workers: nat, total: nat): nat
    requires total > 0
  {
    (2 * workers * p + total - 1) / (2 * total)
  }

  lemma CutBounds(p: nat, workers: nat, total: nat)
    requires total > 0
    ensures var m := Cut(p, workers, total);
            (2 * m - 1) * total < 2 * workers * p <= (2 * m + 1) * total
  {
    var m, x := Cut(p, workers, total), 2 * workers * p;
    var q := 2 * total;
    assert x + total - 1 == m * q + (x + total - 1) % q;
    assert m * q == 2 * m * total;
    assert (2 * m - 1) * total == 2 * m * total - total;
    assert (2 * m + 1) * total == 2 * m * total + total;
  }

  lemma CutEnds(workers: nat, total: nat)
    requires total > 0
    ensures Cut(0, workers, total) == 0 && Cut(total, workers, total) == workers
  {
    DivModUnique(total - 1, 2 * total, 0, total - 1);
    assert 2 * workers * 0 == 0;
    assert 2 * workers * total + total - 1 == workers * (2 * total) + (total - 1);
    DivModUnique(2 * workers * total + total - 1, 2 * total, workers, total - 1);
  }

  lemma FloorBelow(n: nat, d: nat, p: nat)
    requires d > 0
    ensures n / d < p <==> n < d * p
  {
    var q, r := n / d, n % d;
    assert n == q * d + r;
    assert d * p == p * d;
    if q < p {
      MulOrder(q, p, d);
    } else if p < q {
      MulOrder(p, q, d);
    }
  }

  /** A target lies below `p` exactly for the first `Cut(p)` workers. */
  lemma TargetBelow(total: nat, workers: nat, idx: nat, p: nat)
    requires total > 0 && workers >= 1
    ensures Target(total, workers, idx) < p <==> idx < Cut(p, workers, total)
  {
    var m := Cut(p, workers, total);
    CutBounds(p, workers, total);
    FloorBelow((2 * idx + 1) * total, 2 * workers, p);
    OddMultiples(idx, m, total);
  }

  lemma OddMultiples(i: nat, m: nat, t: nat)
    ensures i < m ==> (2 * i + 1) * t <= (2 * m - 1) * t
    ensures i >= m ==> (2 * i + 1) * t >= (2 * m + 1) * t
  {
    if i + 1 < m {
      MulOrder(2 * i + 1, 2 * m - 1, t);
    } else if i + 1 == m {
      assert 2 * i + 1 == 2 * m - 1;
    } else if m < i {
      MulOrder(2 * m + 1, 2 * i + 1, t);
    }
  }

  lemma {:induction false} SumPrefix(ws: seq<nat>, j: nat, k: nat)
    requires j <= k <= |ws|
    ensures Sum(ws[..j]) <= Sum(ws[..k])
    ensures k == j + 1 ==> Sum(ws[..k]) == Sum(ws[..j]) + ws[j]
    decreases k
  {
    if j < k {
      assert ws[..k][..k - 1] == ws[..k - 1];
      SumPrefix(ws, j, k - 1);
    }
  }

  /** Position `r` is where the cumulative weights pass the target. */
  lemma {:induction false} FindIs(ws: seq<nat>, target: nat, k: nat)
    requires k < |ws| && Sum(ws[..k]) <= target < Sum(ws)
    ensures var r := Find(ws, target, k); Sum(ws[..r]) <= target < Sum(ws[..r + 1])
    decreases |ws| - k
  {
    assert ws[..|ws|] == ws;
    if target >= Sum(ws[..k + 1]) && k + 1 < |ws| {
      FindIs(ws, target, k + 1);
    }
  }

  function CutAt(ws: seq<nat>, workers: nat, j: nat): nat
    requires Sum(ws) > 0 && j <= |ws|
  {
    Cut(Sum(ws[..j]), workers, Sum(ws))
  }

  lemma {:induction false} CutsIncrease(ws: seq<nat>, workers: nat, j: nat, k: nat)
    requires Sum(ws) > 0 && workers >= 1 && j <= k <= |ws|
    ensures CutAt(ws, workers, j) <= CutAt(ws, workers, k)
  {
    hide Cut, Target;
    SumPrefix(ws, j, k);
    var a, b := CutAt(ws, workers, j), CutAt(ws, workers, k);
    if b < a {
      TargetBelow(Sum(ws), workers, b, Sum(ws[..j]));
      TargetBelow(Sum(ws), workers, b, Sum(ws[..k]));
    }
  }

  /** Worker `i` sits on `j` exactly when it falls between the cuts of `j`; in particular every
      worker of the fleet falls inside some interval, so the final fallback is never used. */
  lemma SlotIffBetweenCuts(ws: seq<nat>, workers: nat, i: nat, j: nat)
    requires Sum(ws) > 0 && i < workers && j < |ws|
    ensures Slot(ws, workers, i) == j <==> CutAt(ws, workers, j) <= i < CutAt(ws, workers, j + 1)
    ensures Target(Sum(ws), workers, i) < Sum(ws)
  {
    hide Cut, Target, Find;
    var t, total := Target(Sum(ws), workers, i), Sum(ws);
    CutEnds(workers, total);
    TargetBelow(total, workers, i, total);
    FindIs(ws, t, 0);
    var r := Slot(ws, workers, i);
    TargetBelow(total, workers, i, Sum(ws[..r]));
    TargetBelow(total, workers, i, Sum(ws[..r + 1]));
    if j < r {
      CutsIncrease(ws, workers, j + 1, r);
    } else if r < j {
      CutsIncrease(ws, workers, r + 1, j);
    }
  }

  /** How many of the first `k` workers the assignment puts on `j`. */
  function Count(ws: seq<nat>, workers: nat, j: nat, k: nat): nat
    requires |ws| > 0 && workers >= 1
  {
    if k == 0 then 0 else Count(ws, workers, j, k - 1) + if Slot(ws, workers, k - 1) == j then 1 else 0
  }

  function Clip(x: nat, k: nat): nat { if x < k then x else k }

  lemma {:induction false} CountIsCutDifference(ws: seq<nat>, workers: nat, j: nat, k: nat)
    requires Sum(ws) > 0 && j < |ws| && k <= workers && workers >= 1
    ensures Count(ws, workers, j, k) == Clip(CutAt(ws, workers, j + 1), k) - Clip(CutAt(ws, workers, j), k)
  {
    hide CutAt, Slot;
    CutsIncrease(ws, workers, j, j + 1);
    if k > 0 {
      CountIsCutDifference(ws, workers, j, k - 1);
      SlotIffBetweenCuts(ws, workers, k - 1, j);
    }
  }

  lemma CountWhole(ws: seq<nat>, workers: nat, j: nat)
    requires Sum(ws) > 0 && j < |ws| && workers >= 1
    ensures Count(ws, workers, j, workers) == CutAt(ws, workers, j + 1) - CutAt(ws, workers, j)
  {
    CountIsCutDifference(ws, workers, j, workers);
    CutEnds(workers, Sum(ws));
    assert ws[..|ws|] == ws;
    CutsIncrease(ws, workers, j, |ws|);
    CutsIncrease(ws, workers, j + 1, |ws|);
  }

  /** Quota rule: the number of workers on `j` is less than one away from W * w_j / T. */
  lemma Quota(ws: seq<nat>, workers: nat, j: nat)
    requires Sum(ws) > 0 && j < |ws| && workers >= 1
    ensures var n, t := Count(ws, workers, j, workers), Sum(ws);
            n * t - t < workers * ws[j] < n * t + t
  {
    hide Cut, Count, Sum;
    var t, a, b := Sum(ws), Sum(ws[..j]), Sum(ws[..j + 1]);
    CountWhole(ws, workers, j);
    CutBounds(a, workers, t);
    CutBounds(b, workers, t);
    SumPrefix(ws, j, j + 1);
    QuotaArithmetic(t, workers, a, ws[j], Cut(a, workers, t), Cut(b, workers, t));
  }

  lemma QuotaArithmetic(t: nat, w: nat, a: nat, x: nat, m: nat, m': nat)
    requires t > 0
    requires (2 * m - 1) * t < 2 * w * a <= (2 * m + 1) * t
    requires (2 * m' - 1) * t < 2 * w * (a + x) <= (2 * m' + 1) * t
    ensures (m' - m) * t - t < w * x < (m' - m) * t + t
  {
    assert (2 * m - 1) * t == 2 * (m * t) - t && (2 * m + 1) * t == 2 * (m * t) + t;
    assert (2 * m' - 1) * t == 2 * (m' * t) - t && (2 * m' + 1) * t == 2 * (m' * t) + t;
    assert 2 * w * a == 2 * (w * a);
    assert 2 * w * (a + x) == 2 * (w * a) + 2 * (w * x);
    assert (m' - m) * t == m' * t - m * t;
  }

  /** The share is exact whenever it is whole. */
  lemma QuotaExact(ws: seq<nat>, workers: nat, j: nat, share: nat)
    requires Sum(ws) > 0 && j < |ws| && workers >= 1
    requires workers * ws[j] == share * Sum(ws)
    ensures Count(ws, workers, j, workers) == share
  {
    hide Count, Sum;
    Quota(ws, workers, j);
    var n, t := Count(ws, workers, j, workers), Sum(ws);
    if n < share {
      MulOrder(n, share, t);
    } else if share < n {
      MulOrder(share, n, t);
    }
  }

  /** Equal weights get counts that differ by at most one. */
  lemma EqualWeightsEvenly(ws: seq<nat>, workers: nat, j: nat, k: nat)
    requires Sum(ws) > 0 && j < |ws| && k < |ws| && workers >= 1 && ws[j] == ws[k]
    ensures Count(ws, workers, j, workers) <= Count(ws, workers, k, workers) + 1
  {
    hide Count, Sum;
    Quota(ws, workers, j);
    Quota(ws, workers, k);
    var n, m, t := Count(ws, workers, j, workers), Count(ws, workers, k, workers), Sum(ws);
    assert (m + 1) * t == m * t + t;
    if n > m + 1 {
      MulOrder(m + 1, n, t);
    }
  }

  /** An address owed at least one whole worker has one; an address of weight 0 has none. */
  lemma OwedIsServed(ws: seq<nat>, workers: nat, j: nat)
    requires Sum(ws) > 0 && j < |ws| && workers >= 1
    ensures workers * ws[j] >= Sum(ws) ==> Count(ws, workers, j, workers) >= 1
    ensures ws[j] == 0 ==> Count(ws, workers, j, workers) == 0
  {
    hide Count, Sum;
    Quota(ws, workers, j);
    if ws[j] == 0 {
      CountWhole(ws, workers, j);
      SumPrefix(ws, j, j + 1);
    }
  }

  function CountAll(ws: seq<nat>, workers: nat, n: nat): nat
    requires |ws| > 0 && workers >= 1 && n <= |ws|
  {
    if n == 0 then 0 else CountAll(ws, workers, n - 1) + Count(ws, workers, n - 1, workers)
  }

  lemma {:induction false} CountsTelescope(ws: seq<nat>, workers: nat, n: nat)
    requires Sum(ws) > 0 && workers >= 1 && n <= |ws|
    ensures CountAll(ws, workers, n) == CutAt(ws, workers, n)
  {
    if n == 0 {
      CutEnds(workers, Sum(ws));
      assert ws[..0] == [];
    } else {
      CountsTelescope(ws, workers, n - 1);
      CountWhole(ws, workers, n - 1);
    }
  }

  /** Nobody is lost or counted twice. */
  lemma CountsAddUp(ws: seq<nat>, workers: nat)
    requires Sum(ws) > 0 && workers >= 1
    ensures CountAll(ws, workers, |ws|) == workers
  {
    hide Sum;
    CountsTelescope(ws, workers, |ws|);
    assert ws[..|ws|] == ws;
    CutEnds(workers, Sum(ws));
  }

  /** Higher worker indices never get an earlier address. */
  lemma SlotMonotone(ws: seq<nat>, workers: nat, i: nat, i': nat)
    requires Sum(ws) > 0 && i <= i' < workers
    ensures Slot(ws, workers, i) <= Slot(ws, workers, i')
  {
    assert |ws| > 0;
    hide Slot, Sum, Cut;
    var j, j' := Slot(ws, workers, i), Slot(ws, workers, i');
    SlotIffBetweenCuts(ws, workers, i, j);
    SlotIffBetweenCuts(ws, workers, i', j');
    if j' < j {
      CutsIncrease(ws, workers, j' + 1, j);
    }
  }

  lemma {:induction false} SumBound(ws: seq<nat>, max: nat)
    requires forall i :: 0 <= i < |ws| ==> ws[i] <= max
    ensures Sum(ws) <= |ws| * max
  {
    if ws == [] {
    } else {
      SumBound(ws[..|ws| - 1], max);
      assert |ws| * max == (|ws| - 1) * max + max;
    }
  }

  /** Nothing in the computation leaves 64 bits for 16 addresses and 32 workers. */
  lemma NoOverflow(ws: seq<nat>, idx: nat)
    requires |ws| <= MAX_ADDRS && idx < 32
    requires forall i :: 0 <= i < |ws| ==> ws[i] < 0x1_0000_0000
    ensures Sum(ws) < 0x1_0000_0000_0000_0000
    ensures (2 * idx + 1) * Sum(ws) < 0x1_0000_0000_0000_0000
  {
    hide Sum;
    SumBound(ws, 0xFFFF_FFFF);
    assert |ws| * 0xFFFF_FFFF <= 16 * 0xFFFF_FFFF;
    var s, k := Sum(ws), 2 * idx + 1;
    assert k * s <= 63 * s by {
      if k < 63 { MulOrder(k, 63, s); }
    }
  }
}
