/** When a worker changes upstream address (pkgs/microdoh3/src/worker.rs): the policy functions
    and what they guarantee over every run of passes, failures and adopted sets. */
module Migration {
  import opened Bytes
  import opened Upstream

  // Times are milliseconds; the slot window is counted in whole seconds of the same clock.
  const MIN_INTERVAL: nat := 180_000
  const FAIL_INTERVAL: nat := 10_000
  const STAGGER_SECS: nat := 5
  const RATIO_PCT: nat := 150

  /** Whether worker `idx` of `workers` may start a migration in this window. */
  predicate SlotOpen(secs: nat, workers: nat, idx: nat) {
    var w := if workers == 0 then 1 else workers;
    secs / STAGGER_SECS % w == idx % w
  }

  /** Entry `i` is another address of positive weight, no such entry is heavier, and none after it is as
      heavy. */
  ghost predicate LastBest(addrs: seq<IpAddr>, weights: seq<nat>, current: IpAddr, i: nat) {
    && i < |addrs| && i < |weights| && addrs[i] != current && weights[i] > 0
    && forall j :: 0 <= j < |addrs| && j < |weights| && addrs[j] != current ==>
         weights[j] < weights[i] || (weights[j] == weights[i] && j <= i)
  }

  /** `r` is the last of the heaviest usable entries other than `current`, or there is none. */
  ghost predicate BestOf(addrs: seq<IpAddr>, weights: seq<nat>, current: IpAddr, r: Option<(IpAddr, nat)>) {
    match r
    case None => forall i :: 0 <= i < |addrs| && i < |weights| ==> addrs[i] == current || weights[i] == 0
    case Some((ip, w)) =>
      exists i: nat :: LastBest(addrs, weights, current, i) && addrs[i] == ip && weights[i] == w
  }

  function Preferred(ip: IpAddr, w: nat, current: IpAddr, rest: Option<(IpAddr, nat)>): Option<(IpAddr, nat)> {
    if w > 0 && ip != current && (rest.None? || w > rest.value.1) then Some((ip, w)) else rest
  }

  lemma BestStep(addrs: seq<IpAddr>, weights: seq<nat>, current: IpAddr, rest: Option<(IpAddr, nat)>)
    requires addrs != [] && weights != [] && BestOf(addrs[1..], weights[1..], current, rest)
    ensures BestOf(addrs, weights, current, Preferred(addrs[0], weights[0], current, rest))
  {
    var as', ws' := addrs[1..], weights[1..];
    assert forall j :: 0 < j < |addrs| ==> addrs[j] == as'[j - 1];
    assert forall j :: 0 < j < |weights| ==> weights[j] == ws'[j - 1];
    if weights[0] > 0 && addrs[0] != current && (rest.None? || weights[0] > rest.value.1) {
      assert LastBest(addrs, weights, current, 0);
    } else if rest.Some? {
      var i: nat :| LastBest(as', ws', current, i) && as'[i] == rest.value.0 && ws'[i] == rest.value.1;
      assert LastBest(addrs, weights, current, i + 1);
    }
  }

  /** Heaviest usable entry other than `current`; the last one on ties, as `max_by_key` picks. */
  function BestAlternative(addrs: seq<IpAddr>, weights: seq<nat>, current: IpAddr): (r: Option<(IpAddr, nat)>)
    ensures BestOf(addrs, weights, current, r)
    ensures r.Some? ==> r.value.0 in addrs && r.value.0 != current && r.value.1 > 0
  {
    if addrs == [] || weights == [] then None
    else
      var rest := BestAlternative(addrs[1..], weights[1..], current);
      BestStep(addrs, weights, current, rest);
      Preferred(addrs[0], weights[0], current, rest)
  }

  datatype Runtime = Runtime(idx: nat, failStreak: nat, upstream: UpstreamSet, remote: IpAddr, lastMigrate: nat)

  function Since(now: nat, t: nat): nat { if now < t then 0 else now - t }

  predicate ByFailure(rt: Runtime) { rt.failStreak >= 2 }

  /** `migration_target`. */
  function MigrationTarget(rt: Runtime, now: nat): (r: Option<IpAddr>)
    ensures r.Some? ==> r.value in rt.upstream.addrs && r.value != rt.remote
  {
    var u, current := rt.upstream, rt.remote;
    if ByFailure(rt) then
      if Since(now, rt.lastMigrate) < FAIL_INTERVAL then None
      else
        match BestAlternative(u.addrs, u.weights, current)
        case None => None
        case Some((alt, _)) => if WeightOf(u, alt) > WeightOf(u, current) then Some(alt) else None
    else if Since(now, rt.lastMigrate) < MIN_INTERVAL then None
    else if !SlotOpen(now / 1000, u.workers, rt.idx) then None
    else
      match SlotFor(u, rt.idx)
      case None => None
      case Some(slot) =>
        var target := u.addrs[slot];
        if target == current then None
        else if WeightOf(u, current) == 0 || WeightOf(u, target) * 100 >= WeightOf(u, current) * RATIO_PCT
            then Some(target)
        else None
  }

  /** Taking over a newly published set; a vanished address may move at once. */
  function Adopted(rt: Runtime, u: UpstreamSet, now: nat): Runtime {
    if u.addrs == [] then rt
    else if rt.remote in u.addrs then rt.(upstream := u)
    else rt.(upstream := u, lastMigrate := if now >= MIN_INTERVAL then now - MIN_INTERVAL else now)
  }

  function Moved(rt: Runtime, target: IpAddr, now: nat): Runtime {
    rt.(remote := target, lastMigrate := now, failStreak := 0)
  }

  // ----- runs -----

  datatype Jump = Jump(to: IpAddr, at: nat, byFailure: bool, excused: bool)

  /** `excused` is set while the current address has vanished from an adopted set. */
  datatype History = History(rt: Runtime, log: seq<Jump>, excused: bool, clock: nat)

  datatype Event = Streak(n: nat) | Adopt(u: UpstreamSet) | Pass(allowed: bool) | Wait(ms: nat)

  function Step(h: History, e: Event): History {
    match e
    case Streak(n) => h.(rt := h.rt.(failStreak := n))
    case Wait(ms) => h.(clock := h.clock + ms)
    case Adopt(u) =>
      h.(rt := Adopted(h.rt, u, h.clock), excused := h.excused || (u.addrs != [] && h.rt.remote !in u.addrs))
    case Pass(allowed) =>
      var t := MigrationTarget(h.rt, h.clock);
      if !allowed || t.None? then h
      else
        History(Moved(h.rt, t.value, h.clock),
                h.log + [Jump(t.value, h.clock, ByFailure(h.rt), h.excused)], false, h.clock)
  }

  function Play(h: History, events: seq<Event>): History {
    if events == [] then h else Step(Play(h, events[..|events| - 1]), events[|events| - 1])
  }

  /** The worker's runtime fields as housekeeping updates them. */
  class Policy {
    var failStreak: nat
    var upstream: UpstreamSet
    var remote: IpAddr
    var slot: nat
    var lastMigrate: nat
    const idx: nat

    function View(): Runtime
      reads this
    {
      Runtime(idx, failStreak, upstream, remote, lastMigrate)
    }

    /** `Runtime::new`: the assigned slot is always a valid index of a nonempty set. */
    constructor (u: UpstreamSet, idx: nat, now: nat)
      requires u.addrs != []
      ensures slot < |u.addrs| && slot == if SlotFor(u, idx).Some? then SlotFor(u, idx).value else 0
      ensures View() == Runtime(idx, 0, u, u.addrs[slot], now)
    {
      var s := if SlotFor(u, idx).Some? then SlotFor(u, idx).value else 0;
      this.idx, failStreak, upstream, remote, slot, lastMigrate := idx, 0, u, u.addrs[s], s, now;
    }

    method AdoptSet(u: UpstreamSet, now: nat)
      modifies this
      ensures View() == Adopted(old(View()), u, now)
      ensures slot == if u.addrs != [] && SlotFor(u, idx).Some? then SlotFor(u, idx).value else old(slot)
    {
      if u.addrs != [] {
        if remote !in u.addrs {
          lastMigrate := if now >= MIN_INTERVAL then now - MIN_INTERVAL else now;
        }
        var s := ComputeSlot(u, idx);
        slot := if s.Some? then s.value else slot;
        upstream := u;
      }
    }

    method Migrate(now: nat, reconnectPending: bool) returns (moved: bool)
      modifies this
      ensures moved <==> !reconnectPending && MigrationTarget(old(View()), now).Some?
      ensures View() == if moved then Moved(old(View()), MigrationTarget(old(View()), now).value, now) else old(View())
      ensures moved ==> remote == MigrationTarget(old(View()), now).value && lastMigrate == now && failStreak == 0
      ensures upstream == old(upstream) && (!moved ==> slot == old(slot))
      ensures moved ==> slot < |upstream.addrs| && upstream.addrs[slot] == remote && remote !in upstream.addrs[..slot]
    {
      moved := false;
      if !reconnectPending {
        var t := MigrationTarget(View(), now);
        if t.Some? {
          var k := 0;
          assert upstream.addrs[..|upstream.addrs|] == upstream.addrs;
          while upstream.addrs[k] != t.value
            invariant k < |upstream.addrs| && t.value !in upstream.addrs[..k]
            decreases |upstream.addrs| - k
          {
            k := k + 1;
          }
          slot, remote, lastMigrate, failStreak := k, t.value, now, 0;
          moved := true;
        }
      }
    }
  }

  // ----- no ping-pong -----

  ghost predicate Positive(u: UpstreamSet) {
    |u.weights| == |u.addrs| && forall i :: 0 <= i < |u.weights| ==> u.weights[i] >= 1
  }

  lemma {:induction false} MemberWeight(addrs: seq<IpAddr>, weights: seq<nat>, ip: IpAddr)
    requires |weights| == |addrs| && (forall i :: 0 <= i < |weights| ==> weights[i] >= 1) && ip in addrs
    ensures WeightAt(addrs, weights, ip) >= 1
  {
    if addrs[0] != ip {
      assert ip in addrs[1..];
      MemberWeight(addrs[1..], weights[1..], ip);
    }
  }

  /** With positive weights every migration goes strictly uphill. */
  lemma UphillOnly(rt: Runtime, now: nat)
    requires Positive(rt.upstream) && MigrationTarget(rt, now).Some?
    ensures WeightOf(rt.upstream, MigrationTarget(rt, now).value) > WeightOf(rt.upstream, rt.remote)
  {
    MemberWeight(rt.upstream.addrs, rt.upstream.weights, MigrationTarget(rt, now).value);
  }

  predicate NoAdoption(events: seq<Event>) {
    forall i :: 0 <= i < |events| ==> !events[i].Adopt?
  }

  /** Weights of the addresses visited rise along the log, ending at the current one. */
  ghost predicate Climbing(h: History, u: UpstreamSet, start: IpAddr) {
    && h.rt.upstream == u
    && (forall i :: 0 <= i < |h.log| ==> h.log[i].to in u.addrs && WeightOf(u, h.log[i].to) > WeightOf(u, start))
    && (forall i, j :: 0 <= i < j < |h.log| ==> WeightOf(u, h.log[i].to) < WeightOf(u, h.log[j].to))
    && h.rt.remote == if h.log == [] then start else h.log[|h.log| - 1].to
  }

  lemma StepClimbs(h: History, e: Event, u: UpstreamSet, start: IpAddr)
    requires Positive(u) && Climbing(h, u, start) && !e.Adopt?
    ensures Climbing(Step(h, e), u, start)
  {
    hide MigrationTarget, WeightOf;
    if e.Pass? && e.allowed && MigrationTarget(h.rt, h.clock).Some? {
      UphillOnly(h.rt, h.clock);
    }
  }

  lemma {:induction false} AlwaysClimbs(h: History, events: seq<Event>)
    requires Positive(h.rt.upstream) && h.log == [] && NoAdoption(events)
    ensures Climbing(Play(h, events), h.rt.upstream, h.rt.remote)
  {
    hide Step, Climbing;
    if events == [] {
      assert Climbing(h, h.rt.upstream, h.rt.remote) by { ClimbStart(h); }
    } else {
      AlwaysClimbs(h, events[..|events| - 1]);
      StepClimbs(Play(h, events[..|events| - 1]), events[|events| - 1], h.rt.upstream, h.rt.remote);
    }
  }

  lemma ClimbStart(h: History)
    requires h.log == []
    ensures Climbing(h, h.rt.upstream, h.rt.remote)
  {
  }

  ghost function Elements(addrs: seq<IpAddr>): set<IpAddr> { set a | a in addrs }

  lemma {:induction false} ElementsBound(addrs: seq<IpAddr>)
    ensures |Elements(addrs)| <= |addrs|
  {
    if addrs == [] {
      assert Elements(addrs) == {};
    } else {
      ElementsBound(addrs[1..]);
      assert Elements(addrs) == {addrs[0]} + Elements(addrs[1..]);
    }
  }

  ghost function Visited(log: seq<Jump>): set<IpAddr> { set j | j in log :: j.to }

  lemma {:induction false} VisitedCount(log: seq<Jump>, u: UpstreamSet)
    requires forall i, j :: 0 <= i < j < |log| ==> WeightOf(u, log[i].to) < WeightOf(u, log[j].to)
    ensures |Visited(log)| == |log|
  {
    hide WeightOf;
    if log == [] {
      assert Visited(log) == {};
    } else {
      var init, last := log[..|log| - 1], log[|log| - 1];
      VisitedCount(init, u);
      assert log == init + [last];
      assert Visited(log) == Visited(init) + {last.to};
      forall i | 0 <= i < |init| ensures init[i].to != last.to {
        assert WeightOf(u, log[i].to) < WeightOf(u, log[|log| - 1].to);
      }
    }
  }

  /** While one set with positive weights stays adopted, no address is moved to twice and the
      starting one never again, so there are at most as many migrations as addresses. */
  lemma NoPingPong(h: History, events: seq<Event>)
    requires Positive(h.rt.upstream) && h.log == [] && NoAdoption(events)
    ensures var log := Play(h, events).log;
            && (forall i :: 0 <= i < |log| ==> log[i].to != h.rt.remote)
            && (forall i, j :: 0 <= i < j < |log| ==> log[i].to != log[j].to)
            && |log| <= |h.rt.upstream.addrs|
  {
    hide Play, WeightOf;
    AlwaysClimbs(h, events);
    var log, u := Play(h, events).log, h.rt.upstream;
    VisitedCount(log, u);
    ElementsBound(u.addrs);
    assert Visited(log) <= Elements(u.addrs);
    SubsetCard(Visited(log), Elements(u.addrs));
  }

  // ----- spacing -----

  ghost predicate Spaced(h: History) {
    && (h.rt.lastMigrate <= h.clock)
    && (h.log != [] && !h.excused ==> h.rt.lastMigrate == h.log[|h.log| - 1].at)
    && forall i :: 0 < i < |h.log| && !h.log[i].excused ==>
         h.log[i].at >= h.log[i - 1].at + if h.log[i].byFailure then FAIL_INTERVAL else MIN_INTERVAL
  }

  lemma StepSpaces(h: History, e: Event)
    requires Spaced(h)
    ensures Spaced(Step(h, e))
  {
  }

  /** Two migrations in a row are at least 10 s apart, 180 s when the second is not driven by
      failures, unless the address vanished from a set adopted in between. */
  lemma {:induction false} MigrationsSpaced(h: History, events: seq<Event>)
    requires Spaced(h)
    ensures Spaced(Play(h, events))
  {
    hide Spaced, Step;
    if events != [] {
      MigrationsSpaced(h, events[..|events| - 1]);
      StepSpaces(Play(h, events[..|events| - 1]), events[|events| - 1]);
    }
  }

  // ----- when a worker moves, and where to -----

  /** A set as it is read from the page: a weight for each address, no address twice. */
  ghost predicate Proper(u: UpstreamSet) {
    && |u.weights| == |u.addrs|
    && forall i, j :: 0 <= i < j < |u.addrs| ==> u.addrs[i] != u.addrs[j]
  }

  lemma ProperWeight(u: UpstreamSet, i: nat)
    requires Proper(u) && i < |u.addrs|
    ensures WeightOf(u, u.addrs[i]) == u.weights[i]
  {
    WeightOfEntry(u.addrs, u.weights, i);
  }

  /** The weight `w` of the address a worker is on: that of its entry, or 0 when it has none. */
  ghost predicate Weighs(u: UpstreamSet, ip: IpAddr, w: nat) {
    && (ip !in u.addrs ==> w == 0)
    && forall i :: 0 <= i < |u.addrs| && i < |u.weights| && u.addrs[i] == ip ==> w == u.weights[i]
  }

  lemma WeighsIs(u: UpstreamSet, ip: IpAddr, w: nat)
    requires Proper(u) && Weighs(u, ip, w)
    ensures WeightOf(u, ip) == w
  {
    if ip in u.addrs {
      var i :| 0 <= i < |u.addrs| && u.addrs[i] == ip;
      ProperWeight(u, i);
    } else {
      WeightOfMissing(u.addrs, u.weights, ip);
    }
  }

  /** A worker whose connections fail has a target, ten seconds after its last move, if and only if some
      address weighs more than its own, and then it is a heaviest address. */
  lemma FailingWorkerMovesIff(rt: Runtime, now: nat, w: nat)
    requires rt.failStreak >= 2 && Proper(rt.upstream) && Weighs(rt.upstream, rt.remote, w)
    ensures MigrationTarget(rt, now).Some? <==>
              && now >= rt.lastMigrate + 10_000
              && exists i :: 0 <= i < |rt.upstream.addrs| && rt.upstream.weights[i] > w
    ensures MigrationTarget(rt, now).Some? ==>
              exists i :: 0 <= i < |rt.upstream.addrs| && rt.upstream.addrs[i] == MigrationTarget(rt, now).value
                && forall j :: 0 <= j < |rt.upstream.addrs| ==> rt.upstream.weights[j] <= rt.upstream.weights[i]
  {
    hide BestAlternative, WeightOf, SlotFor;
    var u := rt.upstream;
    WeighsIs(u, rt.remote, w);
    var best := BestAlternative(u.addrs, u.weights, rt.remote);
    if best.Some? {
      var i: nat :| LastBest(u.addrs, u.weights, rt.remote, i)
                    && u.addrs[i] == best.value.0 && u.weights[i] == best.value.1;
      ProperWeight(u, i);
      if u.weights[i] > w {
        forall j | 0 <= j < |u.addrs| ensures u.weights[j] <= u.weights[i] {
          if u.addrs[j] == rt.remote { assert w == u.weights[j]; }
        }
      } else {
        forall j | 0 <= j < |u.addrs| ensures u.weights[j] <= w {
          if u.addrs[j] == rt.remote { assert w == u.weights[j]; }
        }
      }
    } else {
      forall j | 0 <= j < |u.addrs| ensures u.weights[j] <= w {
        if u.addrs[j] == rt.remote { assert w == u.weights[j]; }
      }
    }
  }

  /** Address `j` is the one whose share of the fleet holds this worker's index. */
  ghost predicate Assigned(rt: Runtime, j: nat)
    requires Sum(rt.upstream.weights) > 0 && rt.upstream.workers >= 1
  {
    var u := rt.upstream;
    && j < |u.addrs| && j < |u.weights|
    && CutAt(u.weights, u.workers, j) <= rt.idx < CutAt(u.weights, u.workers, j + 1)
  }

  /** The window of this worker: the fleet takes turns of five seconds. */
  predicate MyWindow(rt: Runtime, now: nat)
    requires rt.upstream.workers >= 1
  {
    now / 5000 % rt.upstream.workers == rt.idx
  }

  /** A worker without failures moves to `t`, at least 180 s after its last move and in its own window, if
      and only if `t` is the address assigned to it, not its own, and at least one and a half times as
      heavy as its own. */
  lemma OrdinaryMoveIff(rt: Runtime, now: nat, w: nat, j: nat)
    requires rt.failStreak < 2 && Proper(rt.upstream) && Weighs(rt.upstream, rt.remote, w)
    requires Sum(rt.upstream.weights) > 0 && rt.idx < rt.upstream.workers && Assigned(rt, j)
    ensures MigrationTarget(rt, now).Some? <==>
              && now >= rt.lastMigrate + 180_000 && MyWindow(rt, now)
              && rt.upstream.addrs[j] != rt.remote && 2 * rt.upstream.weights[j] >= 3 * w
    ensures MigrationTarget(rt, now).Some? ==> MigrationTarget(rt, now).value == rt.upstream.addrs[j]
  {
    hide BestAlternative, WeightOf, SlotOpen, Slot, CutAt;
    var u := rt.upstream;
    WeighsIs(u, rt.remote, w);
    ProperWeight(u, j);
    SlotOwner(now / 1000, u.workers, rt.idx);
    DivDiv(now, 1000, 5);
    assert u.weights[..|u.weights|] == u.weights;
    SlotIffBetweenCuts(u.weights, u.workers, rt.idx, j);
    assert SlotFor(u, rt.idx) == Some(j);
  }

  /** Every worker of the fleet has exactly one assigned address. */
  lemma AssignedExists(rt: Runtime) returns (j: nat)
    requires Proper(rt.upstream) && Sum(rt.upstream.weights) > 0 && rt.idx < rt.upstream.workers
    ensures Assigned(rt, j)
    ensures forall k: nat :: Assigned(rt, k) ==> k == j
  {
    hide Slot, CutAt;
    var u := rt.upstream;
    j := Slot(u.weights, u.workers, rt.idx);
    SlotIffBetweenCuts(u.weights, u.workers, rt.idx, j);
    forall k: nat | Assigned(rt, k) ensures k == j {
      SlotIffBetweenCuts(u.weights, u.workers, rt.idx, k);
    }
  }

  /** Each worker's window comes within one round of the fleet. */
  lemma WindowComes(rt: Runtime, t: nat) returns (start: nat)
    requires rt.idx < rt.upstream.workers
    ensures t <= start <= t + 5000 * rt.upstream.workers && start % 5000 == 0
    ensures forall now :: start <= now < start + 5000 ==> MyWindow(rt, now)
  {
    var w, k := rt.upstream.workers, t / 5000 + 1;
    var ahead := NextTurn(k, w, rt.idx);
    start := 5000 * (k + ahead);
    forall now | start <= now < start + 5000 ensures MyWindow(rt, now) {
      DivModUnique(now, 5000, k + ahead, now - start);
    }
  }

  lemma NextTurn(k: nat, w: nat, idx: nat) returns (ahead: nat)
    requires idx < w
    ensures ahead < w && (k + ahead) % w == idx
  {
    var r := k % w;
    ahead := if r <= idx then idx - r else w + idx - r;
    if r <= idx {
      DivModUnique(k + ahead, w, k / w, idx);
    } else {
      DivModUnique(k + ahead, w, k / w + 1, idx);
    }
  }

  /** A pass `delay` milliseconds from now moves the worker to `ip`. */
  ghost predicate MovesTo(h: History, delay: nat, ip: IpAddr) {
    var end := Play(h, [Wait(delay), Pass(true)]);
    end.rt.remote == ip && |end.log| == |h.log| + 1 && h.log <= end.log && end.log[|h.log|].to == ip
  }

  /** So a worker that is assigned a much better address, keeps its set and does not fail, moves there in
      the first pass it makes in its next window once 180 s have passed, one round of windows at most
      after that. */
  lemma MovesWithinOneRound(h: History, w: nat, j: nat) returns (wait: nat)
    requires h.rt.failStreak < 2 && Proper(h.rt.upstream) && Weighs(h.rt.upstream, h.rt.remote, w)
    requires Sum(h.rt.upstream.weights) > 0 && h.rt.idx < h.rt.upstream.workers && Assigned(h.rt, j)
    requires h.rt.upstream.addrs[j] != h.rt.remote && 2 * h.rt.upstream.weights[j] >= 3 * w
    requires h.clock >= h.rt.lastMigrate + 180_000
    ensures wait <= 5000 * h.rt.upstream.workers
    ensures forall delay: nat :: wait <= delay < wait + 5000 ==> MovesTo(h, delay, h.rt.upstream.addrs[j])
  {
    hide MigrationTarget, CutAt, WeightOf;
    var start := WindowComes(h.rt, h.clock);
    wait := start - h.clock;
    forall delay: nat | wait <= delay < wait + 5000 ensures MovesTo(h, delay, h.rt.upstream.addrs[j]) {
      assert MyWindow(h.rt, h.clock + delay);
      OrdinaryMoveIff(h.rt, h.clock + delay, w, j);
      PlayTwo(h, Wait(delay), Pass(true));
    }
  }

  lemma PlayTwo(h: History, a: Event, b: Event)
    ensures Play(h, [a, b]) == Step(Step(h, a), b)
  {
    hide Step;
    assert [a, b][..1] == [a] && [a][..0] == [];
    assert Play(h, [a]) == Step(Play(h, []), a);
  }

  /** A worker whose address vanished from a set it adopts may move in its window at once. */
  lemma VanishedMovesAtOnce(rt: Runtime, u: UpstreamSet, now: nat, j: nat)
    requires rt.failStreak < 2 && Proper(u) && Sum(u.weights) > 0 && rt.idx < u.workers && u.addrs != []
    requires rt.remote !in u.addrs && now >= 180_000
    requires Assigned(rt.(upstream := u), j) && MyWindow(rt.(upstream := u), now)
    ensures MigrationTarget(Adopted(rt, u, now), now) == Some(u.addrs[j])
  {
    hide MigrationTarget, CutAt;
    OrdinaryMoveIff(Adopted(rt, u, now), now, 0, j);
  }

  // ----- staggering -----

  lemma SlotOwner(secs: nat, workers: nat, idx: nat)
    requires workers >= 1 && idx < workers
    ensures SlotOpen(secs, workers, idx) <==> idx == secs / STAGGER_SECS % workers
  {
    DivModUnique(idx, workers, 0, idx);
  }

  /** Two distinct workers of one fleet never make an ordinary migration in the same 5 s window. */
  lemma OneMoverPerWindow(a: Runtime, b: Runtime, s: nat, t: nat)
    requires a.upstream.workers == b.upstream.workers >= 1
    requires a.idx < a.upstream.workers && b.idx < b.upstream.workers
    requires s / 1000 / STAGGER_SECS == t / 1000 / STAGGER_SECS
    requires !ByFailure(a) && !ByFailure(b) && MigrationTarget(a, s).Some? && MigrationTarget(b, t).Some?
    ensures a.idx == b.idx
  {
    SlotOwner(s / 1000, a.upstream.workers, a.idx);
    SlotOwner(t / 1000, b.upstream.workers, b.idx);
  }
}
