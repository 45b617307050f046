/** From worker measurements to published weights (pkgs/microdoh3/src/main.rs): candidate
    refresh, weight computation, and what every published set guarantees. */
module Publish {
  import opened Bytes
  import opened Upstream

  const MAX_U32: nat := 0xFFFF_FFFF

  type Samples = seq<Option<ScoreSample>>

  function Max(a: nat, b: nat): nat { if a < b then b else a }

  // ----- measurements -----

  function Position(addrs: seq<IpAddr>, ip: IpAddr): (r: Option<nat>)
    ensures r.Some? ==> r.value < |addrs| && addrs[r.value] == ip && forall k :: 0 <= k < r.value ==> addrs[k] != ip
    ensures r.None? <==> ip !in addrs
  {
    if addrs == [] then None
    else if addrs[0] == ip then Some(0)
    else match Position(addrs[1..], ip) case None => None case Some(i) => Some(i + 1)
  }

  predicate Reports(candidates: seq<IpAddr>, s: Option<ScoreSample>, i: nat) {
    s.Some? && s.value.addr.Some? && Position(candidates, s.value.addr.value) == Some(i)
  }

  /** Best score reported for candidate `i`; 0 without a report. */
  function Best(candidates: seq<IpAddr>, samples: Samples, i: nat): nat {
    if samples == [] then 0
    else
      var s, rest := samples[|samples| - 1], Best(candidates, samples[..|samples| - 1], i);
      if Reports(candidates, s, i) then Max(rest, s.value.score) else rest
  }

  predicate Measured(candidates: seq<IpAddr>, samples: Samples, i: nat) {
    exists k :: 0 <= k < |samples| && Reports(candidates, samples[k], i)
  }

  function Bests(candidates: seq<IpAddr>, samples: Samples): (r: seq<nat>)
    ensures |r| == |candidates|
  {
    seq(|candidates|, i requires 0 <= i < |candidates| => Best(candidates, samples, i))
  }

  function Flags(candidates: seq<IpAddr>, samples: Samples): (r: seq<bool>)
    ensures |r| == |candidates|
  {
    seq(|candidates|, i requires 0 <= i < |candidates| => Measured(candidates, samples, i))
  }

  function Top(best: seq<nat>): nat {
    if best == [] then 0 else Max(Top(best[..|best| - 1]), best[|best| - 1])
  }

  /** First position that holds false. */
  function FirstFalse(flags: seq<bool>): (r: Option<nat>)
    ensures r.Some? ==> r.value < |flags| && !flags[r.value] && forall k :: 0 <= k < r.value ==> flags[k]
    ensures r.None? ==> forall k :: 0 <= k < |flags| ==> flags[k]
  {
    if flags == [] then None
    else if !flags[0] then Some(0)
    else match FirstFalse(flags[1..]) case None => None case Some(i) => Some(i + 1)
  }

  function Floor(top: nat, workers: nat): (r: nat)
    requires workers >= 1
    ensures r >= 1
  {
    Max(top / (2 * workers), 1)
  }

  /** Weight of candidate `i` before sorting. */
  function Weigh(best: seq<nat>, flags: seq<bool>, workers: nat, i: nat): (w: nat)
    requires i < |best| && workers >= 1
    ensures w >= 1
  {
    var top := Top(best);
    var w := Max(best[i], Floor(top, workers));
    if FirstFalse(flags) == Some(i) then Min(w + top / workers, MAX_U32) else w
  }

  function Min(a: nat, b: nat): nat { if a < b then a else b }

  function Weights(best: seq<nat>, flags: seq<bool>, workers: nat): (ws: seq<nat>)
    requires workers >= 1
    ensures |ws| == |best| && forall i :: 0 <= i < |ws| ==> ws[i] >= 1
  {
    seq(|best|, i requires 0 <= i < |best| => Weigh(best, flags, workers, i))
  }

  // ----- stable descending sort, as positions -----

  /** `a` ranks before `b`: heavier, or equally heavy and listed earlier. */
  predicate Before(ws: seq<nat>, a: nat, b: nat)
    requires a < |ws| && b < |ws|
  {
    ws[a] > ws[b] || (ws[a] == ws[b] && a < b)
  }

  ghost predicate Ranked(ws: seq<nat>, p: seq<nat>) {
    && (forall k :: 0 <= k < |p| ==> p[k] < |ws|)
    && forall j, k :: 0 <= j < k < |p| ==> Before(ws, p[j], p[k])
  }

  /** Insert position `x`, listed after everything in `p`. */
  function Insert(ws: seq<nat>, p: seq<nat>, x: nat): (r: seq<nat>)
    requires x < |ws| && forall k :: 0 <= k < |p| ==> p[k] < x
    ensures |r| == |p| + 1
    ensures forall k :: 0 <= k < |r| ==> r[k] <= x
  {
    if p == [] then [x]
    else if ws[p[|p| - 1]] >= ws[x] then p + [x]
    else Insert(ws, p[..|p| - 1], x) + [p[|p| - 1]]
  }

  lemma {:induction false} InsertMembers(ws: seq<nat>, p: seq<nat>, x: nat, y: nat)
    requires x < |ws| && forall k :: 0 <= k < |p| ==> p[k] < x
    ensures y in Insert(ws, p, x) <==> y in p || y == x
    decreases |p|
  {
    if p != [] {
      assert p == p[..|p| - 1] + [p[|p| - 1]];
      if ws[p[|p| - 1]] < ws[x] {
        InsertMembers(ws, p[..|p| - 1], x, y);
      }
    }
  }

  lemma {:induction false} InsertKeepsRank(ws: seq<nat>, p: seq<nat>, x: nat)
    requires x < |ws| && Ranked(ws, p) && forall k :: 0 <= k < |p| ==> p[k] < x
    ensures Ranked(ws, Insert(ws, p, x))
    decreases |p|
  {
    if p != [] {
      var front, last := p[..|p| - 1], p[|p| - 1];
      if ws[last] < ws[x] {
        InsertKeepsRank(ws, front, x);
        var r := Insert(ws, front, x);
        forall k | 0 <= k < |r| ensures Before(ws, r[k], last) {
          InsertMembers(ws, front, x, r[k]);
          if r[k] != x {
            var j :| 0 <= j < |front| && front[j] == r[k];
            assert Before(ws, p[j], p[|p| - 1]);
          }
        }
        AppendRanked(ws, r, last);
      } else {
        forall k | 0 <= k < |p| ensures Before(ws, p[k], x) {
          if k < |p| - 1 { assert Before(ws, p[k], p[|p| - 1]); }
        }
        AppendRanked(ws, p, x);
      }
    }
  }

  lemma AppendRanked(ws: seq<nat>, p: seq<nat>, x: nat)
    requires x < |ws| && Ranked(ws, p) && forall k :: 0 <= k < |p| ==> Before(ws, p[k], x)
    ensures Ranked(ws, p + [x])
  {
  }

  function Rank(ws: seq<nat>, n: nat): (p: seq<nat>)
    requires n <= |ws|
    ensures forall k :: 0 <= k < |p| ==> p[k] < n
    ensures |p| == n
  {
    if n == 0 then [] else Insert(ws, Rank(ws, n - 1), n - 1)
  }

  /** Ranking lists every position once, best first, ties in candidate order. */
  lemma {:induction false} RankIsRanked(ws: seq<nat>, n: nat)
    requires n <= |ws|
    ensures Ranked(ws, Rank(ws, n))
    ensures forall x: nat :: x < n ==> x in Rank(ws, n)
  {
    hide Insert, Ranked;
    if n == 0 {
      assert Ranked(ws, []) by { EmptyRanked(ws); }
    } else {
      RankIsRanked(ws, n - 1);
      var p := Rank(ws, n - 1);
      InsertKeepsRank(ws, p, n - 1);
      forall x: nat | x < n ensures x in Rank(ws, n) {
        InsertMembers(ws, p, n - 1, x);
      }
    }
  }

  lemma EmptyRanked(ws: seq<nat>)
    ensures Ranked(ws, [])
  {
  }

  // ----- compute_weights -----

  type Weighted = seq<(IpAddr, nat)>

  function Arrange(candidates: seq<IpAddr>, ws: seq<nat>, p: seq<nat>): (r: Weighted)
    requires |ws| == |candidates| && forall k :: 0 <= k < |p| ==> p[k] < |ws|
    ensures |r| == |p|
  {
    seq(|p|, k requires 0 <= k < |p| => (candidates[p[k]], ws[p[k]]))
  }

  function WeightsFor(candidates: seq<IpAddr>, samples: Samples, workers: nat): (r: Weighted)
    ensures |r| == |candidates|
  {
    var ws := Weights(Bests(candidates, samples), Flags(candidates, samples), Max(workers, 1));
    Arrange(candidates, ws, Rank(ws, |ws|))
  }

  /** `compute_weights`. */
  method ComputeWeights(candidates: seq<IpAddr>, samples: Samples, workers: nat) returns (out: Weighted)
    ensures out == WeightsFor(candidates, samples, workers)
  {
    hide Position, Weigh, Insert, Rank;
    var best := seq(|candidates|, _ => 0);
    var measured := seq(|candidates|, _ => false);
    for k := 0 to |samples|
      invariant |best| == |candidates| && |measured| == |candidates|
      invariant forall i :: 0 <= i < |candidates| ==> best[i] == Best(candidates, samples[..k], i)
      invariant forall i :: 0 <= i < |candidates| ==> measured[i] == Measured(candidates, samples[..k], i)
    {
      assert samples[..k + 1][..k] == samples[..k];
      forall i: nat ensures Measured(candidates, samples[..k + 1], i)
        == (Measured(candidates, samples[..k], i) || Reports(candidates, samples[k], i))
      {
        MeasuredStep(candidates, samples, k, i);
      }
      if samples[k].Some? && samples[k].value.addr.Some? {
        var at := Position(candidates, samples[k].value.addr.value);
        if at.Some? {
          measured := measured[at.value := true];
          best := best[at.value := Max(best[at.value], samples[k].value.score)];
        }
      }
    }
    assert samples[..|samples|] == samples;
    assert best == Bests(candidates, samples) && measured == Flags(candidates, samples);
    var ws := Weights(best, measured, Max(workers, 1));
    var p := [];
    for i := 0 to |ws|
      invariant p == Rank(ws, i)
    {
      p := Insert(ws, p, i);
      RankStep(ws, i);
    }
    out := Arrange(candidates, ws, p);
  }

  lemma RankStep(ws: seq<nat>, i: nat)
    requires i < |ws|
    ensures Rank(ws, i + 1) == Insert(ws, Rank(ws, i), i)
  {
  }

  lemma MeasuredStep(candidates: seq<IpAddr>, samples: Samples, k: nat, i: nat)
    requires k < |samples|
    ensures Measured(candidates, samples[..k + 1], i)
         == (Measured(candidates, samples[..k], i) || Reports(candidates, samples[k], i))
  {
    var a, b := samples[..k], samples[..k + 1];
    if Reports(candidates, samples[k], i) {
      assert Reports(candidates, b[k], i);
    }
    if Measured(candidates, a, i) {
      var j :| 0 <= j < |a| && Reports(candidates, a[j], i);
      assert Reports(candidates, b[j], i);
    }
    if Measured(candidates, b, i) {
      var j :| 0 <= j < |b| && Reports(candidates, b[j], i);
      if j < k { assert Reports(candidates, a[j], i); }
    }
  }

  /** `Best` is the maximum over the reports for that candidate, and 0 without any. */
  lemma {:induction false} BestIsMaximum(candidates: seq<IpAddr>, samples: Samples, i: nat)
    ensures forall k :: 0 <= k < |samples| && Reports(candidates, samples[k], i) ==>
              samples[k].value.score <= Best(candidates, samples, i)
    ensures Best(candidates, samples, i) == 0
         || exists k :: 0 <= k < |samples| && Reports(candidates, samples[k], i)
              && samples[k].value.score == Best(candidates, samples, i)
  {
    hide Position;
    if samples != [] {
      var init := samples[..|samples| - 1];
      BestIsMaximum(candidates, init, i);
      if Best(candidates, init, i) != 0 && Best(candidates, samples, i) == Best(candidates, init, i) {
        var k :| 0 <= k < |init| && Reports(candidates, init[k], i) && init[k].value.score == Best(candidates, init, i);
        assert samples[k] == init[k];
      }
    }
  }

  // ----- what the weights mean -----

  /** A worker reports about candidate `i`; an address listed twice is measured at its first place. */
  ghost predicate ReportOn(candidates: seq<IpAddr>, s: Option<ScoreSample>, i: nat) {
    && i < |candidates| && s.Some? && s.value.addr == Some(candidates[i])
    && forall k :: 0 <= k < i ==> candidates[k] != candidates[i]
  }

  ghost predicate Heard(candidates: seq<IpAddr>, samples: Samples, i: nat) {
    exists k :: 0 <= k < |samples| && ReportOn(candidates, samples[k], i)
  }

  /** `b` is the greatest score reported for candidate `i`, 0 without one. */
  ghost predicate GreatestFor(candidates: seq<IpAddr>, samples: Samples, i: nat, b: nat) {
    && (forall k :: 0 <= k < |samples| && ReportOn(candidates, samples[k], i) ==> samples[k].value.score <= b)
    && (b == 0 || exists k :: 0 <= k < |samples| && ReportOn(candidates, samples[k], i) && samples[k].value.score == b)
  }

  /** `top` is the greatest of the candidates' scores, 0 without candidates. */
  ghost predicate GreatestOf(best: seq<nat>, top: nat) {
    && (forall i :: 0 <= i < |best| ==> best[i] <= top)
    && (top == 0 || top in best)
  }

  /** `w` is `a` or `b`, whichever is larger. */
  predicate Larger(w: nat, a: nat, b: nat) { w >= a && w >= b && (w == a || w == b) }

  /** A candidate somebody measured weighs its greatest score, but at least half a worker's share of the
      top score and at least 1. One nobody measured weighs that minimum, and the first such candidate a
      whole share more, up to the largest 32-bit number. */
  ghost predicate RightWeight(candidates: seq<IpAddr>, samples: Samples, half: nat, share: nat, i: nat, b: nat, w: nat)
  {
    var least := if half > 1 then half else 1;
    if Heard(candidates, samples, i) then Larger(w, b, least)
    else if forall k: nat :: k < i ==> Heard(candidates, samples, k) then
      w == if least + share > 0xFFFF_FFFF then 0xFFFF_FFFF else least + share
    else w == least
  }

  /** One worker's share of the top score, and half of it. A fleet counts at least one worker. */
  ghost function Share(top: nat, workers: nat): nat {
    if workers == 0 then top else top / workers
  }

  ghost function HalfShare(top: nat, workers: nat): nat {
    if workers == 0 then top / 2 else Quotient(top, 2 * workers)
  }

  ghost function Quotient(n: nat, d: nat): nat
    requires d > 0
  {
    n / d
  }

  lemma ReportsAre(candidates: seq<IpAddr>, s: Option<ScoreSample>, i: nat)
    requires i < |candidates|
    ensures Reports(candidates, s, i) <==> ReportOn(candidates, s, i)
  {
    hide Position;
    if s.Some? && s.value.addr.Some? {
      var at := Position(candidates, s.value.addr.value);
      if ReportOn(candidates, s, i) {
        assert candidates[i] in candidates;
      }
    }
  }

  lemma MeasuredIsHeard(candidates: seq<IpAddr>, samples: Samples, i: nat)
    requires i < |candidates|
    ensures Measured(candidates, samples, i) <==> Heard(candidates, samples, i)
  {
    hide Reports, ReportOn;
    forall k | 0 <= k < |samples| ensures Reports(candidates, samples[k], i) <==> ReportOn(candidates, samples[k], i) {
      ReportsAre(candidates, samples[k], i);
    }
  }

  lemma BestIsGreatest(candidates: seq<IpAddr>, samples: Samples, i: nat)
    requires i < |candidates|
    ensures GreatestFor(candidates, samples, i, Best(candidates, samples, i))
    ensures !Heard(candidates, samples, i) ==> Best(candidates, samples, i) == 0
  {
    hide Reports, ReportOn, Best;
    forall k | 0 <= k < |samples| ensures Reports(candidates, samples[k], i) <==> ReportOn(candidates, samples[k], i) {
      ReportsAre(candidates, samples[k], i);
    }
    BestIsMaximum(candidates, samples, i);
  }

  lemma {:induction false} TopIsGreatest(best: seq<nat>)
    ensures GreatestOf(best, Top(best))
  {
    if best != [] {
      var init := best[..|best| - 1];
      TopIsGreatest(init);
      assert best == init + [best[|best| - 1]];
    }
  }

  lemma WeighIsRight(candidates: seq<IpAddr>, samples: Samples, workers: nat, i: nat)
    requires i < |candidates| && workers >= 1
    ensures var best, flags := Bests(candidates, samples), Flags(candidates, samples);
            var top := Top(best);
            RightWeight(candidates, samples, HalfShare(top, workers), Share(top, workers), i, best[i],
                        Weigh(best, flags, workers, i))
  {
    hide Top, Best, Measured, Heard;
    var best, flags := Bests(candidates, samples), Flags(candidates, samples);
    var top := Top(best);
    assert Floor(top, workers) == if HalfShare(top, workers) > 1 then HalfShare(top, workers) else 1;
    forall k: nat | k < |candidates| ensures flags[k] == Heard(candidates, samples, k) {
      MeasuredIsHeard(candidates, samples, k);
    }
    BestIsGreatest(candidates, samples, i);
    var first := FirstFalse(flags);
    assert first == Some(i) <==> !flags[i] && forall k: nat :: k < i ==> Heard(candidates, samples, k) by {
      FirstFalseIff(flags, i);
    }
  }

  lemma FirstFalseIff(flags: seq<bool>, i: nat)
    requires i < |flags|
    ensures FirstFalse(flags) == Some(i) <==> !flags[i] && forall k: nat :: k < i ==> flags[k]
  {
    hide FirstFalse;
    var r := FirstFalse(flags);
    if r.Some? && r.value < i {
      assert !flags[r.value];
    }
  }

  /** The list that is published: every candidate once, with the weight its measurements give it,
      heaviest first and ties in candidate order. */
  lemma WeightsMean(candidates: seq<IpAddr>, samples: Samples, workers: nat)
      returns (best: seq<nat>, top: nat, p: seq<nat>)
    ensures |best| == |p| == |candidates| && GreatestOf(best, top)
    ensures forall i :: 0 <= i < |best| ==> GreatestFor(candidates, samples, i, best[i])
    ensures (forall k :: 0 <= k < |p| ==> p[k] < |candidates|) && forall x: nat :: x < |candidates| ==> x in p
    ensures var out := WeightsFor(candidates, samples, workers);
            && (forall k :: 0 <= k < |p| ==>
                  && out[k].0 == candidates[p[k]]
                  && RightWeight(candidates, samples, HalfShare(top, workers), Share(top, workers),
                                 p[k], best[p[k]], out[k].1))
            && forall j, k :: 0 <= j < k < |p| ==> out[j].1 > out[k].1 || (out[j].1 == out[k].1 && p[j] < p[k])
  {
    hide Best, Weigh, Rank, Top, RightWeight, GreatestFor, GreatestOf, Measured;
    best := Bests(candidates, samples);
    top := Top(best);
    TopIsGreatest(best);
    var flags := Flags(candidates, samples);
    var fleet := Max(workers, 1);
    var ws := Weights(best, flags, fleet);
    p := Rank(ws, |ws|);
    RankIsRanked(ws, |ws|);
    forall i | 0 <= i < |candidates|
      ensures GreatestFor(candidates, samples, i, best[i])
      ensures RightWeight(candidates, samples, HalfShare(top, workers), Share(top, workers), i, best[i], ws[i])
    {
      BestIsGreatest(candidates, samples, i);
      WeighIsRight(candidates, samples, fleet, i);
      AtLeastOneWorker(top, workers);
    }
  }

  lemma AtLeastOneWorker(top: nat, workers: nat)
    ensures HalfShare(top, workers) == HalfShare(top, Max(workers, 1))
    ensures Share(top, workers) == Share(top, Max(workers, 1))
  {
    assert top / 1 == top;
  }

  /** Once everything is measured the measurements decide: a higher score never gets the smaller weight,
      and the heaviest address weighs the highest score (1 if that is 0). */
  lemma MeasuredScoresDecide(candidates: seq<IpAddr>, samples: Samples, workers: nat)
      returns (best: seq<nat>, top: nat, p: seq<nat>)
    requires candidates != [] && forall i: nat :: i < |candidates| ==> Heard(candidates, samples, i)
    ensures |best| == |p| == |candidates| && GreatestOf(best, top) && forall k :: 0 <= k < |p| ==> p[k] < |candidates|
    ensures forall i :: 0 <= i < |best| ==> GreatestFor(candidates, samples, i, best[i])
    ensures var out := WeightsFor(candidates, samples, workers);
            && (forall k :: 0 <= k < |p| ==> out[k].0 == candidates[p[k]])
            && (forall j, k :: 0 <= j < |p| && 0 <= k < |p| && best[p[j]] >= best[p[k]] ==> out[j].1 >= out[k].1)
            && out[0].1 == if top == 0 then 1 else top
  {
    hide WeightsFor, GreatestFor, Heard, HalfShare, Share;
    best, top, p := WeightsMean(candidates, samples, workers);
    var out := WeightsFor(candidates, samples, workers);
    var least := if HalfShare(top, workers) > 1 then HalfShare(top, workers) else 1;
    assert forall k :: 0 <= k < |p| ==> Larger(out[k].1, best[p[k]], least);
    ShareBelowTop(top, workers);
    if top > 0 {
      var i: nat :| i < |best| && best[i] == top;
      assert i in p;
      var k :| 0 <= k < |p| && p[k] == i;
      assert out[k].1 == top;
      assert k > 0 ==> out[0].1 >= out[k].1;
    }
  }

  lemma ShareBelowTop(top: nat, workers: nat)
    ensures HalfShare(top, workers) <= top
  {
    if workers > 0 {
      QuotientBelow(top, 2 * workers);
    }
  }

  lemma QuotientBelow(n: nat, d: nat)
    requires d > 0
    ensures Quotient(n, d) <= n
  {
    QuotientSmall(n, d, n / d, n % d);
  }

  lemma QuotientSmall(n: nat, d: nat, q: nat, r: nat)
    requires d >= 1 && n == q * d + r
    ensures q <= n
  {
    var e := d - 1;
    assert q * d == q * e + q;
    assert q * e >= 0;
  }

  // ----- candidates -----

  function OfFamily(ips: seq<IpAddr>, v6: bool): (r: seq<IpAddr>)
    ensures |r| <= |ips|
  {
    if ips == [] then []
    else OfFamily(ips[..|ips| - 1], v6) + if ips[|ips| - 1].V6? == v6 then [ips[|ips| - 1]] else []
  }

  /** The stable sort by family: IPv4 first, each family in answer order. */
  function Listed(ips: seq<IpAddr>, preferV4: bool): seq<IpAddr> {
    if preferV4 then OfFamily(ips, false) + OfFamily(ips, true) else ips
  }

  lemma FamilyStep(init: seq<IpAddr>, x: IpAddr, v6: bool)
    ensures OfFamily(init + [x], v6) == OfFamily(init, v6) + if x.V6? == v6 then [x] else []
  {
    assert (init + [x])[..|init|] == init;
  }

  lemma {:induction false} FamiliesPartition(ips: seq<IpAddr>)
    ensures |OfFamily(ips, false)| + |OfFamily(ips, true)| == |ips|
    ensures multiset(OfFamily(ips, false)) + multiset(OfFamily(ips, true)) == multiset(ips)
  {
    if ips != [] {
      hide OfFamily;
      var init, x := ips[..|ips| - 1], ips[|ips| - 1];
      FamiliesPartition(init);
      assert ips == init + [x];
      FamilyStep(init, x, false);
      FamilyStep(init, x, true);
    }
  }

  ghost predicate Ascending(idx: seq<nat>, n: nat) {
    && (forall i :: 0 <= i < |idx| ==> idx[i] < n)
    && forall i, j :: 0 <= i < j < |idx| ==> idx[i] < idx[j]
  }

  ghost function PlacesOf(ips: seq<IpAddr>, v6: bool): seq<nat> {
    if ips == [] then []
    else PlacesOf(ips[..|ips| - 1], v6) + if ips[|ips| - 1].V6? == v6 then [|ips| - 1] else []
  }

  lemma {:induction false} PlacesAscend(ips: seq<IpAddr>, v6: bool)
    ensures Ascending(PlacesOf(ips, v6), |ips|)
    ensures forall i :: 0 <= i < |ips| ==> (i in PlacesOf(ips, v6) <==> ips[i].V6? == v6)
  {
    if ips != [] {
      var n := |ips| - 1;
      PlacesAscend(ips[..n], v6);
      assert forall i :: 0 <= i < n ==> ips[..n][i] == ips[i];
    }
  }

  lemma {:induction false} FamilyIsPlaces(ips: seq<IpAddr>, v6: bool)
    requires Ascending(PlacesOf(ips, v6), |ips|)
    ensures OfFamily(ips, v6) == seq(|PlacesOf(ips, v6)|,
              k requires 0 <= k < |PlacesOf(ips, v6)| => ips[PlacesOf(ips, v6)[k]])
  {
    if ips != [] {
      var init := ips[..|ips| - 1];
      PlacesAscend(init, v6);
      FamilyIsPlaces(init, v6);
    }
  }

  /** The addresses of one family, all of them and in answer order. */
  lemma FamilyInOrder(ips: seq<IpAddr>, v6: bool) returns (idx: seq<nat>)
    ensures Ascending(idx, |ips|) && |idx| == |OfFamily(ips, v6)|
    ensures forall k :: 0 <= k < |idx| ==> OfFamily(ips, v6)[k] == ips[idx[k]]
    ensures forall i :: 0 <= i < |ips| ==> (i in idx <==> ips[i].V6? == v6)
  {
    hide OfFamily, PlacesOf;
    idx := PlacesOf(ips, v6);
    PlacesAscend(ips, v6);
    FamilyIsPlaces(ips, v6);
  }

  /** With IPv4 preferred no IPv6 address is listed before an IPv4 one. */
  lemma FourBeforeSix(ips: seq<IpAddr>)
    ensures var l := Listed(ips, true);
            forall i, j :: 0 <= i < j < |l| && l[i].V6? ==> l[j].V6?
    ensures Listed(ips, true) == OfFamily(ips, false) + OfFamily(ips, true) && Listed(ips, false) == ips
  {
    var four := FamilyInOrder(ips, false);
    var six := FamilyInOrder(ips, true);
    assert forall k :: 0 <= k < |four| ==> four[k] in four;
    assert forall k :: 0 <= k < |six| ==> six[k] in six;
  }

  /** `update_candidates`: an empty answer never replaces a working set. */
  function Refreshed(candidates: seq<IpAddr>, resolved: seq<IpAddr>, preferV4: bool): seq<IpAddr> {
    var next := Listed(resolved, preferV4);
    var cut := if |next| > MAX_ADDRS then next[..MAX_ADDRS] else next;
    if cut == [] then candidates else cut
  }

  lemma RefreshKeepsShape(candidates: seq<IpAddr>, resolved: seq<IpAddr>, preferV4: bool)
    ensures resolved == [] ==> Refreshed(candidates, resolved, preferV4) == candidates
    ensures resolved != [] ==> 1 <= |Refreshed(candidates, resolved, preferV4)| <= MAX_ADDRS
    ensures resolved != [] ==>
              && Refreshed(candidates, resolved, preferV4) <= Listed(resolved, preferV4)
              && |Refreshed(candidates, resolved, preferV4)| == if |resolved| < 16 then |resolved| else 16
    ensures 0 < |resolved| <= MAX_ADDRS ==>
              multiset(Refreshed(candidates, resolved, preferV4)) == multiset(resolved)
  {
    FamiliesPartition(resolved);
  }

  // ----- rounds -----

  datatype Publication = Publication(candidates: seq<IpAddr>, upstream: UpstreamSet)

  datatype Board = Board(candidates: seq<IpAddr>, published: Weighted, history: seq<Publication>)

  datatype Round = Refresh(resolved: seq<IpAddr>) | Score(samples: Samples, now: nat)

  function AsSet(w: Weighted, revision: nat, workers: nat, now: nat): UpstreamSet {
    UpstreamSet(
      seq(|w|, i requires 0 <= i < |w| => w[i].0),
      seq(|w|, i requires 0 <= i < |w| => w[i].1),
      revision, workers, now)
  }

  function Announce(b: Board, w: Weighted, workers: nat, now: nat): Board {
    var set' := AsSet(w, |b.history| + 1, workers, now);
    Board(b.candidates, w, b.history + [Publication(b.candidates, set')])
  }

  function Equal(candidates: seq<IpAddr>): Weighted {
    seq(|candidates|, i requires 0 <= i < |candidates| => (candidates[i], 1))
  }

  /** Before any worker exists: every candidate with weight 1. */
  function FirstBoard(resolved: seq<IpAddr>, preferV4: bool, workers: nat, now: nat): Board {
    var c := Refreshed([], resolved, preferV4);
    Announce(Board(c, [], []), Equal(c), workers, now)
  }

  function PlayRound(b: Board, round: Round, preferV4: bool, workers: nat): Board {
    match round
    case Refresh(resolved) => b.(candidates := Refreshed(b.candidates, resolved, preferV4))
    case Score(samples, now) =>
      var w := WeightsFor(b.candidates, samples, workers);
      if w == b.published then b else Announce(b, w, workers, now)
  }

  function Play(b: Board, rounds: seq<Round>, preferV4: bool, workers: nat): Board {
    if rounds == [] then b
    else PlayRound(Play(b, rounds[..|rounds| - 1], preferV4, workers), rounds[|rounds| - 1], preferV4, workers)
  }

  /** The supervisor's bookkeeping around the loop. */
  class Supervisor {
    const preferV4: bool
    const workers: nat
    var candidates: seq<IpAddr>
    var published: Weighted
    ghost var history: seq<Publication>

    ghost function View(): Board
      reads this
    {
      Board(candidates, published, history)
    }

    constructor (resolved: seq<IpAddr>, preferV4: bool, workers: nat, now: nat)
      ensures this.preferV4 == preferV4 && this.workers == workers
      ensures View() == FirstBoard(resolved, preferV4, workers, now)
    {
      this.preferV4, this.workers := preferV4, workers;
      var c := Refreshed([], resolved, preferV4);
      candidates, published := c, Equal(c);
      history := FirstBoard(resolved, preferV4, workers, now).history;
    }

    method UpdateCandidates(resolved: seq<IpAddr>)
      modifies this
      ensures View() == PlayRound(old(View()), Refresh(resolved), preferV4, workers)
    {
      var next := Listed(resolved, preferV4);
      if |next| > MAX_ADDRS {
        next := next[..MAX_ADDRS];
      }
      if next != [] {
        candidates := next;
      }
    }

    method ScoreRound(samples: Samples, now: nat)
      modifies this
      ensures View() == PlayRound(old(View()), Score(samples, now), preferV4, workers)
    {
      var w := ComputeWeights(candidates, samples, workers);
      if w != published {
        history := Announce(View(), w, workers, now).history;
        published := w;
      }
    }
  }

  /** `u` lists the candidates by the ranking `p` of weights `ws`. */
  ghost predicate Listing(candidates: seq<IpAddr>, u: UpstreamSet, ws: seq<nat>, p: seq<nat>) {
    && |ws| == |candidates| == |p| == |u.addrs| == |u.weights|
    && Ranked(ws, p)
    && (forall x: nat :: x < |ws| ==> x in p)
    && forall k :: 0 <= k < |p| ==> ws[p[k]] >= 1 && u.addrs[k] == candidates[p[k]] && u.weights[k] == ws[p[k]]
  }

  /** Nonempty, at most 16 entries, a reordering of the candidates, weights at least 1. */
  ghost predicate Sound(pub: Publication, workers: nat) {
    && 1 <= |pub.candidates| <= MAX_ADDRS
    && pub.upstream.workers == workers
    && exists ws, p :: Listing(pub.candidates, pub.upstream, ws, p)
  }

  ghost predicate BoardSound(b: Board, workers: nat) {
    && 1 <= |b.candidates| <= MAX_ADDRS
    && b.history != []
    && (forall i :: 0 <= i < |b.history| ==> Sound(b.history[i], workers) && b.history[i].upstream.revision == i + 1)
    && var last := b.history[|b.history| - 1].upstream;
       last == AsSet(b.published, last.revision, workers, last.published)
  }

  lemma ComputedIsListing(candidates: seq<IpAddr>, samples: Samples, workers: nat, revision: nat, now: nat)
    ensures var u := AsSet(WeightsFor(candidates, samples, workers), revision, workers, now);
            exists ws, p :: Listing(candidates, u, ws, p)
  {
    hide Weigh, Rank, Ranked;
    var ws := Weights(Bests(candidates, samples), Flags(candidates, samples), Max(workers, 1));
    RankIsRanked(ws, |ws|);
    var u := AsSet(WeightsFor(candidates, samples, workers), revision, workers, now);
    assert Listing(candidates, u, ws, Rank(ws, |ws|));
  }

  lemma EqualIsListing(candidates: seq<IpAddr>, revision: nat, workers: nat, now: nat)
    ensures exists ws, p :: Listing(candidates, AsSet(Equal(candidates), revision, workers, now), ws, p)
  {
    var n := |candidates|;
    var ws: seq<nat> := seq(n, i => 1);
    var p: seq<nat> := seq(n, i requires 0 <= i < n => i);
    forall x: nat | x < n ensures x in p { assert p[x] == x; }
    assert Listing(candidates, AsSet(Equal(candidates), revision, workers, now), ws, p);
  }

  lemma RoundKeepsSound(b: Board, round: Round, preferV4: bool, workers: nat)
    requires BoardSound(b, workers)
    ensures BoardSound(PlayRound(b, round, preferV4, workers), workers)
  {
    hide Listing, Refreshed, WeightsFor;
    match round
    case Refresh(resolved) => RefreshKeepsShape(b.candidates, resolved, preferV4);
    case Score(samples, now) =>
      ComputedIsListing(b.candidates, samples, workers, |b.history| + 1, now);
      var b' := PlayRound(b, round, preferV4, workers);
      assert forall i :: 0 <= i < |b.history| ==> b'.history[i] == b.history[i];
  }

  /** Over all refresh and scoring rounds, every published set is sound and numbered in order. */
  lemma {:induction false} EveryPublicationSound(resolved: seq<IpAddr>, rounds: seq<Round>, preferV4: bool,
      workers: nat, now: nat)
    requires resolved != []
    ensures BoardSound(Play(FirstBoard(resolved, preferV4, workers, now), rounds, preferV4, workers), workers)
  {
    hide BoardSound, PlayRound;
    var b := FirstBoard(resolved, preferV4, workers, now);
    if rounds == [] {
      FirstIsSound(resolved, preferV4, workers, now);
    } else {
      var init := rounds[..|rounds| - 1];
      EveryPublicationSound(resolved, init, preferV4, workers, now);
      RoundKeepsSound(Play(b, init, preferV4, workers), rounds[|rounds| - 1], preferV4, workers);
    }
  }

  lemma FirstIsSound(resolved: seq<IpAddr>, preferV4: bool, workers: nat, now: nat)
    requires resolved != []
    ensures BoardSound(FirstBoard(resolved, preferV4, workers, now), workers)
  {
    hide Listing, Refreshed, Equal;
    RefreshKeepsShape([], resolved, preferV4);
    EqualIsListing(Refreshed([], resolved, preferV4), 1, workers, now);
  }

  // ----- what a worker can rely on -----

  lemma {:induction false} SumPositive(ws: seq<nat>)
    requires ws != [] && forall k :: 0 <= k < |ws| ==> ws[k] >= 1
    ensures Sum(ws) > 0
  {
  }

  /** Reading any published set: the assignment is defined and in bounds for every index, lower
      fleet indices sit on addresses at least as heavy, and whoever is owed a worker has one. */
  lemma FleetOnPublication(pub: Publication, workers: nat, i: nat, i': nat, j: nat)
    requires Sound(pub, workers) && workers >= 1
    ensures var u := pub.upstream;
            && SlotFor(u, i).Some? && SlotFor(u, i).value < |u.addrs|
            && (i <= i' < workers ==> u.weights[SlotFor(u, i).value] >= u.weights[SlotFor(u, i').value])
            && (j < |u.addrs| && workers * u.weights[j] >= Sum(u.weights) ==>
                Count(u.weights, workers, j, workers) >= 1)
            && (j < |u.addrs| ==> u.weights[j] >= 1)
  {
    hide Count, Slot, Sum;
    var u := pub.upstream;
    var ws, p :| Listing(pub.candidates, u, ws, p);
    assert forall k :: 0 <= k < |u.weights| ==> u.weights[k] >= 1;
    SumPositive(u.weights);
    assert Usable(u) == u.weights;
    if i <= i' < workers {
      SlotMonotone(u.weights, workers, i, i');
      var a, b := SlotFor(u, i).value, SlotFor(u, i').value;
      if a < b {
        assert Before(ws, p[a], p[b]);
      }
    }
    if j < |u.addrs| {
      OwedIsServed(u.weights, workers, j);
    }
  }

  /** With nothing measured all weights are 1, so any two addresses differ by at most one worker. */
  lemma UnmeasuredSpreadsEvenly(candidates: seq<IpAddr>, samples: Samples, workers: nat, j: nat, k: nat)
    requires workers >= 1 && j < |candidates| && k < |candidates|
    requires forall i: nat :: i < |candidates| ==> !Measured(candidates, samples, i)
    ensures var ws := AsSet(WeightsFor(candidates, samples, workers), 1, workers, 0).weights;
            && (forall i :: 0 <= i < |ws| ==> ws[i] == 1)
            && Count(ws, workers, j, workers) <= Count(ws, workers, k, workers) + 1
  {
    hide Count, Sum, Rank, Best;
    var best := Bests(candidates, samples);
    forall i | 0 <= i < |best| ensures best[i] == 0 {
      BestIsMaximum(candidates, samples, i);
      assert !Measured(candidates, samples, i);
    }
    TopOfZeros(best);
    ZeroShare(workers);
    var raw := Weights(best, Flags(candidates, samples), workers);
    assert forall i :: 0 <= i < |raw| ==> raw[i] == 1;
    var ws := AsSet(WeightsFor(candidates, samples, workers), 1, workers, 0).weights;
    SumPositive(ws);
    EqualWeightsEvenly(ws, workers, j, k);
  }

  lemma ZeroShare(workers: nat)
    requires workers >= 1
    ensures 0 / workers == 0 && 0 / (2 * workers) == 0
  {
    DivModUnique(0, workers, 0, 0);
    DivModUnique(0, 2 * workers, 0, 0);
  }

  lemma {:induction false} TopOfZeros(best: seq<nat>)
    requires forall i :: 0 <= i < |best| ==> best[i] == 0
    ensures Top(best) == 0
  {
    if best != [] {
      TopOfZeros(best[..|best| - 1]);
    }
  }

  /** After a scoring round the last set published is that round's weights, a refresh publishes nothing,
      and the first set gives every address the same weight of 1. */
  lemma LastIsLatest(b: Board, preferV4: bool, workers: nat, samples: Samples, now: nat, resolved: seq<IpAddr>)
    requires BoardSound(b, workers)
    ensures var c := PlayRound(b, Score(samples, now), preferV4, workers);
            var last := c.history[|c.history| - 1].upstream;
            && c.history != [] && c.candidates == b.candidates && b.history <= c.history
            && last.workers == workers
            && last.addrs == AsSet(WeightsFor(b.candidates, samples, workers), 0, 0, 0).addrs
            && last.weights == AsSet(WeightsFor(b.candidates, samples, workers), 0, 0, 0).weights
            && (|c.history| > |b.history| ==> |c.history| == |b.history| + 1 && last.published == now)
    ensures PlayRound(b, Refresh(resolved), preferV4, workers).history == b.history
  {
    hide WeightsFor, Sound;
  }

  lemma FirstIsEqual(resolved: seq<IpAddr>, preferV4: bool, workers: nat, now: nat)
    requires resolved != []
    ensures var b := FirstBoard(resolved, preferV4, workers, now);
            && |b.history| == 1 && b.history[0].upstream.addrs == b.candidates
            && |b.history[0].upstream.weights| == |b.candidates|
            && forall i :: 0 <= i < |b.candidates| ==> b.history[0].upstream.weights[i] == 1
  {
    var b := FirstBoard(resolved, preferV4, workers, now);
    assert b.history[0].upstream.addrs == b.candidates;
  }
}
