/** The supervisor's worker ledger (pkgs/microdoh3/src/main.rs): live children by process id,
    scheduled restarts by CPU, and where every worker index is after every step. */
module Fleet {
  import opened Bytes
  import ScorePage

  datatype Child = Child(cpu: nat, idx: nat, started: nat, fails: nat)
  datatype Restart = Restart(idx: nat, at: nat, fails: nat)

  const QUICK_DEATH_SECS: nat := 10

  /** Seconds before a restart: none after a long life, then 2, 4, 8, 16, 32. */
  function BackoffDelay(fails: nat): (d: nat)
    ensures d == 0 <==> fails == 0
    ensures 1 <= fails <= 5 ==> d == Pow2(fails)
    ensures fails >= 5 ==> d == 32
  {
    if fails == 0 then 0
    else
      var e := if fails < 5 then fails else 5;
      assert Pow2(1) == 2 && Pow2(2) == 4 && Pow2(3) == 8 && Pow2(4) == 16 && Pow2(5) == 32;
      Pow2(e)
  }

  type Children = map<nat, Child>
  type Restarts = map<nat, Restart>

  /** `lost` records worker indices whose fork failed or that exited during shutdown. */
  datatype Ledger = Ledger(children: Children, pending: Restarts, lost: set<nat>)

  function Spawned(l: Ledger, cpu: nat, idx: nat, fails: nat, fork: Option<nat>, now: nat): Ledger {
    match fork
    case Some(pid) => l.(children := l.children[pid := Child(cpu, idx, now, fails)])
    case None => l.(lost := l.lost + {idx})
  }

  function Exited(l: Ledger, pid: nat, shutdown: bool, now: nat): Ledger {
    if pid !in l.children then l
    else
      var c := l.children[pid];
      var rest := l.(children := l.children - {pid});
      if shutdown then rest.(lost := l.lost + {c.idx})
      else
        var fails := if now < c.started + QUICK_DEATH_SECS then c.fails + 1 else 0;
        rest.(pending := l.pending[c.cpu := Restart(c.idx, now + BackoffDelay(fails), fails)])
  }

  /** An exit without shutdown schedules a restart on the same CPU under the same index: at once after a
      life of ten seconds or more, otherwise after two seconds doubled with every quick death in a row, up
      to 32; every other worker is left alone. */
  lemma ExitSchedules(l: Ledger, pid: nat, now: nat)
    requires pid in l.children
    ensures var c, l' := l.children[pid], Exited(l, pid, false, now);
            && l'.children == l.children - {pid} && l'.lost == l.lost
            && c.cpu in l'.pending && l'.pending[c.cpu].idx == c.idx
            && (forall cpu :: cpu != c.cpu ==> (cpu in l'.pending <==> cpu in l.pending))
            && (forall cpu :: cpu != c.cpu && cpu in l.pending ==> l'.pending[cpu] == l.pending[cpu])
            && (now >= c.started + 10 ==> l'.pending[c.cpu].fails == 0 && l'.pending[c.cpu].at == now)
            && (now < c.started + 10 ==>
                  && l'.pending[c.cpu].fails == c.fails + 1
                  && l'.pending[c.cpu].at == now + if c.fails < 5 then Pow2(c.fails + 1) else 32)
    ensures var l' := Exited(l, pid, true, now);
            l'.children == l.children - {pid} && l'.pending == l.pending && l'.lost == l.lost + {l.children[pid].idx}
  {
    assert Pow2(5) == 32;
  }

  function Restarted(l: Ledger, cpu: nat, fork: Option<nat>, now: nat): Ledger {
    if cpu !in l.pending then l
    else
      var r := l.pending[cpu];
      Spawned(l.(pending := l.pending - {cpu}), cpu, r.idx, r.fails, fork, now)
  }

  // ----- where every index is -----

  ghost predicate Running(l: Ledger, i: nat) {
    exists pid :: pid in l.children && l.children[pid].idx == i
  }

  ghost predicate Waiting(l: Ledger, i: nat) {
    exists cpu :: cpu in l.pending && l.pending[cpu].idx == i
  }

  ghost predicate Distinct(cpus: seq<nat>) {
    forall i, j :: 0 <= i < j < |cpus| ==> cpus[i] != cpus[j]
  }

  /** Each worker index is in exactly one place, and no two live processes share one. */
  ghost predicate Balanced(cpus: seq<nat>, l: Ledger) {
    && (forall pid :: pid in l.children ==>
        l.children[pid].idx < |cpus| && l.children[pid].cpu == cpus[l.children[pid].idx])
    && (forall p, q :: p in l.children && q in l.children && p != q ==> l.children[p].idx != l.children[q].idx)
    && (forall cpu :: cpu in l.pending ==> l.pending[cpu].idx < |cpus| && cpu == cpus[l.pending[cpu].idx])
    && forall i: nat :: i < |cpus| ==>
         && (Running(l, i) || Waiting(l, i) || i in l.lost)
         && !(Running(l, i) && Waiting(l, i)) && !(Running(l, i) && i in l.lost) && !(Waiting(l, i) && i in l.lost)
  }

  lemma ExitKeeps(cpus: seq<nat>, l: Ledger, pid: nat, shutdown: bool, now: nat)
    requires Distinct(cpus) && Balanced(cpus, l)
    ensures Balanced(cpus, Exited(l, pid, shutdown, now))
  {
    if pid in l.children {
      var c, l' := l.children[pid], Exited(l, pid, shutdown, now);
      assert Running(l, c.idx);
      forall i: nat | i < |cpus|
        ensures Running(l', i) <==> Running(l, i) && i != c.idx
        ensures Waiting(l', i) <==> Waiting(l, i) || (!shutdown && i == c.idx)
      {
        ExitPlaces(cpus, l, pid, shutdown, now, i);
      }
    }
  }

  lemma ExitPlaces(cpus: seq<nat>, l: Ledger, pid: nat, shutdown: bool, now: nat, i: nat)
    requires Distinct(cpus) && Balanced(cpus, l) && pid in l.children && i < |cpus|
    ensures var l', c := Exited(l, pid, shutdown, now), l.children[pid];
            && (Running(l', i) <==> Running(l, i) && i != c.idx)
            && (Waiting(l', i) <==> Waiting(l, i) || (!shutdown && i == c.idx))
  {
    hide BackoffDelay;
    var l', c := Exited(l, pid, shutdown, now), l.children[pid];
    assert Running(l, c.idx);
    if Running(l, i) && i != c.idx {
      var p :| p in l.children && l.children[p].idx == i;
      assert p in l'.children && l'.children[p].idx == i;
    }
    if Running(l', i) {
      var p :| p in l'.children && l'.children[p].idx == i;
      assert p in l.children && l.children[p].idx == i;
    }
    if Waiting(l, i) {
      var cpu :| cpu in l.pending && l.pending[cpu].idx == i;
      assert cpu == cpus[i] && i != c.idx;
      assert cpu in l'.pending && l'.pending[cpu].idx == i;
    }
    if !shutdown && i == c.idx {
      assert c.cpu in l'.pending && l'.pending[c.cpu].idx == i;
    }
    if Waiting(l', i) {
      var cpu :| cpu in l'.pending && l'.pending[cpu].idx == i;
      if cpu in l.pending && l.pending[cpu].idx == i {
        assert Waiting(l, i);
      }
    }
  }

  lemma RestartPlaces(cpus: seq<nat>, l: Ledger, cpu: nat, fork: Option<nat>, now: nat, i: nat)
    requires Distinct(cpus) && Balanced(cpus, l) && cpu in l.pending && i < |cpus|
    requires fork.Some? ==> fork.value !in l.children
    ensures var l', r := Restarted(l, cpu, fork, now), l.pending[cpu];
            && (Running(l', i) <==> Running(l, i) || (fork.Some? && i == r.idx))
            && (Waiting(l', i) <==> Waiting(l, i) && i != r.idx)
  {
    var l', r := Restarted(l, cpu, fork, now), l.pending[cpu];
    assert Waiting(l, r.idx);
    if Running(l, i) {
      var p :| p in l.children && l.children[p].idx == i;
      assert p in l'.children && l'.children[p].idx == i;
    }
    if fork.Some? && i == r.idx {
      assert fork.value in l'.children && l'.children[fork.value].idx == i;
    }
    if Running(l', i) {
      var p :| p in l'.children && l'.children[p].idx == i;
      if p in l.children && l.children[p].idx == i {
        assert Running(l, i);
      }
    }
    if Waiting(l, i) && i != r.idx {
      var c :| c in l.pending && l.pending[c].idx == i;
      assert c in l'.pending && l'.pending[c].idx == i;
    }
    if Waiting(l', i) {
      var c :| c in l'.pending && l'.pending[c].idx == i;
      assert c in l.pending && l.pending[c].idx == i;
      assert c == cpus[i] && c != cpu;
    }
  }

  lemma RestartKeeps(cpus: seq<nat>, l: Ledger, cpu: nat, fork: Option<nat>, now: nat)
    requires Distinct(cpus) && Balanced(cpus, l)
    requires fork.Some? ==> fork.value !in l.children
    ensures Balanced(cpus, Restarted(l, cpu, fork, now))
  {
    if cpu in l.pending {
      var r, l' := l.pending[cpu], Restarted(l, cpu, fork, now);
      assert Waiting(l, r.idx);
      assert forall p :: p in l.children ==> Running(l, l.children[p].idx);
      forall i: nat | i < |cpus|
        ensures Running(l', i) <==> Running(l, i) || (fork.Some? && i == r.idx)
        ensures Waiting(l', i) <==> Waiting(l, i) && i != r.idx
      {
        RestartPlaces(cpus, l, cpu, fork, now, i);
      }
    }
  }

  // ----- whole runs -----

  datatype Event =
    | Exit(pid: nat, shutdown: bool, now: nat)
    | Due(cpu: nat, fork: Option<nat>, now: nat)

  /** The kernel never hands out the id of a child that has not been reaped. */
  predicate Allowed(l: Ledger, e: Event) {
    e.Due? && e.fork.Some? ==> e.fork.value !in l.children
  }

  function Step(l: Ledger, e: Event): Ledger {
    if !Allowed(l, e) then l
    else
      match e
      case Exit(pid, shutdown, now) => Exited(l, pid, shutdown, now)
      case Due(cpu, fork, now) => Restarted(l, cpu, fork, now)
  }

  /** Prefork: worker `i` on `cpus[i]`, each fork with its own outcome. */
  function Preforked(cpus: seq<nat>, forks: seq<Option<nat>>, now: nat, n: nat): Ledger
    requires n <= |cpus| == |forks|
  {
    if n == 0 then Ledger(map[], map[], {})
    else Spawned(Preforked(cpus, forks, now, n - 1), cpus[n - 1], n - 1, 0, forks[n - 1], now)
  }

  ghost predicate FreshForks(forks: seq<Option<nat>>) {
    forall i, j :: 0 <= i < j < |forks| && forks[i].Some? && forks[j].Some? ==> forks[i].value != forks[j].value
  }

  function Trace(l: Ledger, events: seq<Event>): Ledger {
    if events == [] then l else Step(Trace(l, events[..|events| - 1]), events[|events| - 1])
  }

  ghost predicate ForkedBefore(forks: seq<Option<nat>>, n: nat, pid: nat) {
    exists i :: 0 <= i < n && i < |forks| && forks[i] == Some(pid)
  }

  /** Prefork fills the first `n` indices. */
  ghost predicate Filled(cpus: seq<nat>, forks: seq<Option<nat>>, l: Ledger, n: nat)
    requires n <= |cpus| == |forks|
  {
    && l.pending == map[]
    && (forall pid :: pid in l.children ==> ForkedBefore(forks, n, pid))
    && (forall i :: 0 <= i < n && forks[i].Some? ==>
          && forks[i].value in l.children
          && l.children[forks[i].value].idx == i && l.children[forks[i].value].cpu == cpus[i])
    && (forall i :: i in l.lost <==> 0 <= i < n && forks[i].None?)
  }

  lemma {:induction false} PreforkFills(cpus: seq<nat>, forks: seq<Option<nat>>, now: nat, n: nat)
    requires n <= |cpus| == |forks| && FreshForks(forks)
    ensures Filled(cpus, forks, Preforked(cpus, forks, now, n), n)
  {
    if n > 0 {
      PreforkFills(cpus, forks, now, n - 1);
      var l, l' := Preforked(cpus, forks, now, n - 1), Preforked(cpus, forks, now, n);
      hide Preforked;
      FillOne(cpus, forks, now, n - 1, l, l');
    }
  }

  lemma FillOne(cpus: seq<nat>, forks: seq<Option<nat>>, now: nat, n: nat, l: Ledger, l': Ledger)
    requires n < |cpus| == |forks| && FreshForks(forks) && Filled(cpus, forks, l, n)
    requires l' == Spawned(l, cpus[n], n, 0, forks[n], now)
    ensures Filled(cpus, forks, l', n + 1)
  {
    forall pid | pid in l'.children ensures ForkedBefore(forks, n + 1, pid) {
      if forks[n] != Some(pid) {
        var i :| 0 <= i < n && forks[i] == Some(pid);
      }
    }
    hide ForkedBefore;
    forall i | 0 <= i < n && forks[i].Some?
      ensures forks[i].value in l'.children && l'.children[forks[i].value] == l.children[forks[i].value]
    {
      assert forks[n].Some? ==> forks[i].value != forks[n].value;
    }
  }

  lemma PreforkBalances(cpus: seq<nat>, forks: seq<Option<nat>>, now: nat)
    requires |cpus| == |forks| && FreshForks(forks)
    ensures Balanced(cpus, Preforked(cpus, forks, now, |cpus|))
  {
    hide Preforked, Filled, Balanced, FreshForks;
    PreforkFills(cpus, forks, now, |cpus|);
    FilledBalances(cpus, forks, Preforked(cpus, forks, now, |cpus|));
  }

  lemma FilledRunning(cpus: seq<nat>, forks: seq<Option<nat>>, l: Ledger, i: nat)
    requires i < |cpus| == |forks| && Filled(cpus, forks, l, |cpus|)
    ensures Running(l, i) <==> forks[i].Some?
    ensures !Waiting(l, i) && (i in l.lost <==> forks[i].None?)
  {
    if forks[i].Some? {
      assert forks[i].value in l.children;
    }
    if Running(l, i) {
      var pid :| pid in l.children && l.children[pid].idx == i;
      var k :| 0 <= k < |cpus| && forks[k] == Some(pid);
      assert k == i;
    }
  }

  lemma FilledBalances(cpus: seq<nat>, forks: seq<Option<nat>>, l: Ledger)
    requires |cpus| == |forks| && Filled(cpus, forks, l, |cpus|)
    ensures Balanced(cpus, l)
  {
    hide Running, Waiting;
    forall i: nat | i < |cpus|
      ensures Running(l, i) <==> forks[i].Some?
      ensures !Waiting(l, i) && (i in l.lost <==> forks[i].None?)
    {
      FilledRunning(cpus, forks, l, i);
    }
  }

  /** On distinct CPUs every index stays in exactly one place over every run of exits and
      restarts, and none is ever lost while forks succeed and nothing shuts down. */
  lemma {:induction false} LedgerBalances(cpus: seq<nat>, l: Ledger, events: seq<Event>)
    requires Distinct(cpus) && Balanced(cpus, l)
    ensures Balanced(cpus, Trace(l, events))
    ensures (forall i :: 0 <= i < |events| ==>
              (events[i].Exit? ==> !events[i].shutdown) && (events[i].Due? ==> events[i].fork.Some?))
            ==> Trace(l, events).lost == l.lost
  {
    hide Balanced;
    if events != [] {
      var init, e := events[..|events| - 1], events[|events| - 1];
      LedgerBalances(cpus, l, init);
      var m := Trace(l, init);
      assert forall i :: 0 <= i < |init| ==> init[i] == events[i];
      if Allowed(m, e) {
        match e
        case Exit(pid, shutdown, now) => ExitKeeps(cpus, m, pid, shutdown, now);
        case Due(cpu, fork, now) => RestartKeeps(cpus, m, cpu, fork, now);
      }
    }
  }

  // ----- exactly which fleets stay balanced -----

  /** Prefork with every fork successful; process `i` runs worker `i`. */
  function AllForked(n: nat): (forks: seq<Option<nat>>)
    ensures |forks| == n && forall i :: 0 <= i < n ==> forks[i] == Some(i)
  {
    seq(n, i requires 0 <= i < n => Some(i))
  }

  lemma AllForkedFills(cpus: seq<nat>)
    ensures FreshForks(AllForked(|cpus|))
    ensures var l := Preforked(cpus, AllForked(|cpus|), 0, |cpus|);
            && l.pending == map[] && l.lost == {}
            && (forall p: nat :: p in l.children <==> p < |cpus|)
            && forall i :: 0 <= i < |cpus| ==> l.children[i].idx == i && l.children[i].cpu == cpus[i]
  {
    hide Preforked;
    var forks := AllForked(|cpus|);
    PreforkFills(cpus, forks, 0, |cpus|);
    var l := Preforked(cpus, forks, 0, |cpus|);
    forall p: nat ensures p in l.children <==> p < |cpus| {
      if p < |cpus| { assert forks[p] == Some(p); }
    }
    forall i | 0 <= i < |cpus| ensures l.children[i].idx == i && l.children[i].cpu == cpus[i] {
      assert forks[i].Some? && forks[i].value == i;
    }
  }

  /** With two live workers on one CPU, two exits leave the first one's index nowhere. */
  lemma SharedCpuLosesWorker(l: Ledger, p: nat, q: nat, now: nat)
    requires p in l.children && q in l.children && p != q
    requires l.children[p].cpu == l.children[q].cpu && l.children[p].idx != l.children[q].idx
    requires l.pending == map[] && l.lost == {}
    requires forall r :: r in l.children && r != p ==> l.children[r].idx != l.children[p].idx
    ensures var l', i := Exited(Exited(l, p, false, now), q, false, now), l.children[p].idx;
            !Running(l', i) && !Waiting(l', i) && i !in l'.lost
  {
    hide BackoffDelay;
    var l1 := Exited(l, p, false, now);
    assert q in l1.children && l1.children[q] == l.children[q];
  }

  lemma TwoExits(l: Ledger, p: nat, q: nat)
    ensures Trace(l, [Exit(p, false, 0), Exit(q, false, 0)]) == Exited(Exited(l, p, false, 0), q, false, 0)
  {
    var e, f := Exit(p, false, 0), Exit(q, false, 0);
    assert [e, f][..1] == [e] && [e][..0] == [];
    assert Trace(l, [e]) == Step(Trace(l, []), e);
  }

  lemma RepeatedCpuUnbalances(cpus: seq<nat>, i: nat, j: nat)
    requires i < j < |cpus| && cpus[i] == cpus[j]
    ensures var l := Preforked(cpus, AllForked(|cpus|), 0, |cpus|);
            !Balanced(cpus, Trace(l, [Exit(i, false, 0), Exit(j, false, 0)]))
  {
    hide Preforked, Exited, Trace, AllForked;
    var l := Preforked(cpus, AllForked(|cpus|), 0, |cpus|);
    AllForkedFills(cpus);
    SharedCpuLosesWorker(l, i, j, 0);
    TwoExits(l, i, j);
  }

  /** Over every prefork and every run each index stays in exactly one place, if and only if no CPU
      is listed twice. */
  lemma BalancedIffDistinct(cpus: seq<nat>)
    ensures (forall forks: seq<Option<nat>>, now: nat, events: seq<Event> ::
              |forks| == |cpus| && FreshForks(forks) ==>
                Balanced(cpus, Trace(Preforked(cpus, forks, now, |cpus|), events)))
            <==> Distinct(cpus)
  {
    hide Preforked, Trace, Balanced, FreshForks, AllForked;
    if Distinct(cpus) {
      hide Distinct;
      forall forks: seq<Option<nat>>, now: nat, events: seq<Event> | |forks| == |cpus| && FreshForks(forks)
        ensures Balanced(cpus, Trace(Preforked(cpus, forks, now, |cpus|), events))
      {
        PreforkBalances(cpus, forks, now);
        LedgerBalances(cpus, Preforked(cpus, forks, now, |cpus|), events);
      }
    } else {
      var i, j :| 0 <= i < j < |cpus| && cpus[i] == cpus[j];
      RepeatedCpuUnbalances(cpus, i, j);
      AllForkedFills(cpus);
    }
  }

  // ----- score slots -----

  /** The score slot a worker claims: `idx.min(MAX_WORKERS - 1)`. */
  function ScoreSlot(idx: nat): nat {
    if idx < ScorePage.MAX_WORKERS - 1 then idx else ScorePage.MAX_WORKERS - 1
  }

  /** No index twice, whatever the CPUs. */
  ghost predicate Single(n: nat, l: Ledger) {
    && (forall p :: p in l.children ==> l.children[p].idx < n)
    && (forall p, q :: p in l.children && q in l.children && p != q ==> l.children[p].idx != l.children[q].idx)
    && (forall c :: c in l.pending ==> l.pending[c].idx < n)
    && (forall c, d :: c in l.pending && d in l.pending && c != d ==> l.pending[c].idx != l.pending[d].idx)
    && forall p, c :: p in l.children && c in l.pending ==> l.children[p].idx != l.pending[c].idx
  }

  lemma StepSingle(n: nat, l: Ledger, e: Event)
    requires Single(n, l)
    ensures Single(n, Step(l, e))
  {
    hide BackoffDelay;
  }

  lemma PreforkSingle(cpus: seq<nat>, forks: seq<Option<nat>>, now: nat)
    requires |cpus| == |forks| && FreshForks(forks)
    ensures Single(|cpus|, Preforked(cpus, forks, now, |cpus|))
  {
    hide Preforked;
    PreforkFills(cpus, forks, now, |cpus|);
  }

  lemma {:induction false} TraceSingle(n: nat, l: Ledger, events: seq<Event>)
    requires Single(n, l)
    ensures Single(n, Trace(l, events))
  {
    hide Single, Step;
    if events != [] {
      TraceSingle(n, l, events[..|events| - 1]);
      StepSingle(n, Trace(l, events[..|events| - 1]), events[|events| - 1]);
    }
  }

  /** No two live workers write to one slot. */
  ghost predicate SlotsApart(l: Ledger) {
    forall p, q :: p in l.children && q in l.children && p != q ==>
      ScoreSlot(l.children[p].idx) != ScoreSlot(l.children[q].idx)
  }

  lemma SingleApart(n: nat, l: Ledger)
    requires Single(n, l) && n <= ScorePage.MAX_WORKERS
    ensures SlotsApart(l)
  {
  }

  lemma LargeFleetCollides(cpus: seq<nat>)
    requires |cpus| > ScorePage.MAX_WORKERS
    ensures FreshForks(AllForked(|cpus|))
    ensures !SlotsApart(Trace(Preforked(cpus, AllForked(|cpus|), 0, |cpus|), []))
  {
    hide Preforked, AllForked;
    AllForkedFills(cpus);
    var l := Preforked(cpus, AllForked(|cpus|), 0, |cpus|);
    assert 31 in l.children && 32 in l.children;
  }

  /** Over every prefork and every run no two live workers share a score slot, if and only if there
      are at most 32 workers. */
  lemma SlotsApartIff(cpus: seq<nat>)
    ensures (forall forks: seq<Option<nat>>, now: nat, events: seq<Event> ::
              |forks| == |cpus| && FreshForks(forks) ==>
                SlotsApart(Trace(Preforked(cpus, forks, now, |cpus|), events)))
            <==> |cpus| <= ScorePage.MAX_WORKERS
  {
    hide Preforked, Single, FreshForks, AllForked, Trace, SlotsApart;
    if |cpus| <= ScorePage.MAX_WORKERS {
      forall forks: seq<Option<nat>>, now: nat, events: seq<Event> | |forks| == |cpus| && FreshForks(forks)
        ensures SlotsApart(Trace(Preforked(cpus, forks, now, |cpus|), events))
      {
        PreforkSingle(cpus, forks, now);
        TraceSingle(|cpus|, Preforked(cpus, forks, now, |cpus|), events);
        SingleApart(|cpus|, Trace(Preforked(cpus, forks, now, |cpus|), events));
      }
    } else {
      LargeFleetCollides(cpus);
    }
  }

  // ----- the loop body -----

  class Supervisor {
    var children: Children
    var pending: Restarts
    ghost var lost: set<nat>

    ghost function View(): Ledger
      reads this
    {
      Ledger(children, pending, lost)
    }

    constructor ()
      ensures View() == Ledger(map[], map[], {})
    {
      children, pending, lost := map[], map[], {};
    }

    method SpawnWorker(cpu: nat, idx: nat, fails: nat, fork: Option<nat>, now: nat)
      modifies this
      ensures View() == Spawned(old(View()), cpu, idx, fails, fork, now)
    {
      match fork {
        case Some(pid) => children := children[pid := Child(cpu, idx, now, fails)];
        case None => lost := lost + {idx};
      }
    }

    method ScheduleChildExit(pid: nat, shutdown: bool, now: nat)
      modifies this
      ensures View() == Exited(old(View()), pid, shutdown, now)
    {
      if pid !in children {
        return;
      }
      var c := children[pid];
      children := children - {pid};
      if shutdown {
        lost := lost + {c.idx};
        return;
      }
      var fails := if now < c.started + QUICK_DEATH_SECS then c.fails + 1 else 0;
      pending := pending[c.cpu := Restart(c.idx, now + BackoffDelay(fails), fails)];
    }

    /** Restart everything due, in any order; afterwards nothing due is still waiting, each due worker is
        the process its fork gave or lost with a failed fork, and everything else is as it was. */
    method RestartDue(cpus: seq<nat>, forks: map<nat, nat>, now: nat)
      requires Distinct(cpus) && Balanced(cpus, View()) && FreshFor(forks, children)
      modifies this
      ensures Balanced(cpus, View()) && RestartsDone(old(View()), View(), forks, now, {})
    {
      hide Balanced, Distinct, FreshFor, RestartsDone;
      var due := set c | c in pending && pending[c].at <= now;
      NothingRestarted(View(), forks, now, due);
      while due != {}
        invariant Balanced(cpus, View()) && RestartsDone(old(View()), View(), forks, now, due)
        decreases |due|
      {
        var cpu :| cpu in due;
        var fork := if cpu in forks then Some(forks[cpu]) else None;
        OneRestarted(old(View()), View(), forks, now, due, cpu);
        RestartKeeps(cpus, View(), cpu, fork, now);
        var r := pending[cpu];
        pending := pending - {cpu};
        SpawnWorker(cpu, r.idx, r.fails, fork, now);
        due := due - {cpu};
      }
    }
  }

  /** The kernel gives each fork an id of its own that no live child has. */
  ghost predicate FreshFor(forks: map<nat, nat>, children: Children) {
    && (forall c :: c in forks ==> forks[c] !in children)
    && forall c, d :: c in forks && d in forks && c != d ==> forks[c] != forks[d]
  }

  ghost predicate GaveProcess(l: Ledger, forks: map<nat, nat>, p: nat) {
    exists c :: c in l.pending && c in forks && forks[c] == p
  }

  /** From `a` to `b` every due restart but those in `left` was made, and nothing else. */
  ghost predicate RestartsDone(a: Ledger, b: Ledger, forks: map<nat, nat>, now: nat, left: set<nat>) {
    && FreshFor(forks, a.children)
    && (forall c :: c in left ==> c in a.pending && a.pending[c].at <= now)
    && (forall c :: c in b.pending <==> c in a.pending && (a.pending[c].at > now || c in left))
    && (forall c :: c in b.pending ==> b.pending[c] == a.pending[c])
    && (forall p :: p in a.children ==> p in b.children && b.children[p] == a.children[p])
    && (forall p :: p in b.children ==> p in a.children || GaveProcess(a, forks, p))
    && (forall c :: c in a.pending && c !in b.pending && c in forks ==>
          forks[c] in b.children && b.children[forks[c]] == Child(c, a.pending[c].idx, now, a.pending[c].fails))
    && (forall c :: c in a.pending && c !in b.pending && c !in forks ==> a.pending[c].idx in b.lost)
    && (forall c :: c in left && c in forks ==> forks[c] !in b.children)
    && ((forall c :: c in a.pending ==> c in forks) ==> b.lost == a.lost)
  }

  lemma NothingRestarted(l: Ledger, forks: map<nat, nat>, now: nat, due: set<nat>)
    requires FreshFor(forks, l.children) && forall c :: c in due <==> c in l.pending && l.pending[c].at <= now
    ensures RestartsDone(l, l, forks, now, due)
  {
  }

  lemma OneRestarted(a: Ledger, b: Ledger, forks: map<nat, nat>, now: nat, left: set<nat>, cpu: nat)
    requires RestartsDone(a, b, forks, now, left) && cpu in left
    ensures cpu in b.pending && (cpu in forks ==> forks[cpu] !in b.children)
    ensures var fork := if cpu in forks then Some(forks[cpu]) else None;
            RestartsDone(a, Restarted(b, cpu, fork, now), forks, now, left - {cpu})
  {
    var fork := if cpu in forks then Some(forks[cpu]) else None;
    var b' := Restarted(b, cpu, fork, now);
    assert cpu in forks ==> GaveProcess(a, forks, forks[cpu]);
    hide GaveProcess;
    forall c | c in a.pending && c !in b'.pending && c in forks
      ensures forks[c] in b'.children && b'.children[forks[c]] == Child(c, a.pending[c].idx, now, a.pending[c].fails)
    {
      assert c != cpu && cpu in forks ==> forks[c] != forks[cpu];
    }
  }
}
