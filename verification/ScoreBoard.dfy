/** The page of score slots with the whole fleet writing to it (pkgs/microdoh3/src/main.rs,
    pkgs/microdoh3/src/shared.rs): every live worker stores into the slot of its index, one store at a
    time, while the supervisor reads, reaps and restarts. */
module ScoreBoard {
  import opened Bytes
  import Fleet
  import ScorePage

  datatype Board = Board(ledger: Fleet.Ledger, slots: seq<ScorePage.Slot>)

  datatype Action =
    | Supervise(event: Fleet.Event)
    | Load(pid: nat, goal: ScorePage.Fields)
    | Store(pid: nat)
    | Finish(pid: nat)
    | Look(slot: nat)

  /** The slot a live worker writes to. */
  function Home(l: Fleet.Ledger, pid: nat): (j: nat)
    requires pid in l.children
    ensures j < ScorePage.MAX_WORKERS
  {
    Fleet.ScoreSlot(l.children[pid].idx)
  }

  function On(b: Board, j: nat, a: ScorePage.Action): Board {
    if j < |b.slots| then b.(slots := b.slots[j := ScorePage.Act(b.slots[j], a)]) else b
  }

  function ByWorker(b: Board, pid: nat, a: ScorePage.Action): Board {
    if pid in b.ledger.children then On(b, Home(b.ledger, pid), a) else b
  }

  /** Only live workers store. A worker is gone once it is reaped; between its death and that it
      makes no step. */
  function Act(b: Board, a: Action): Board {
    match a
    case Supervise(e) =>
      (if e.Exit? then ByWorker(b, e.pid, ScorePage.Die(e.pid)) else b).(ledger := Fleet.Step(b.ledger, e))
    case Load(pid, goal) => ByWorker(b, pid, ScorePage.Load(pid, goal))
    case Store(pid) => ByWorker(b, pid, ScorePage.Store(pid))
    case Finish(pid) => ByWorker(b, pid, ScorePage.Finish(pid))
    case Look(j) => On(b, j, ScorePage.Look)
  }

  function Run(b: Board, actions: seq<Action>): Board
    decreases |actions|
  {
    if actions == [] then b else Run(Act(b, actions[0]), actions[1..])
  }

  function Start(cpus: seq<nat>, forks: seq<Option<nat>>, now: nat): Board
    requires |forks| == |cpus|
  {
    Board(Fleet.Preforked(cpus, forks, now, |cpus|), seq(ScorePage.MAX_WORKERS, i => ScorePage.FRESH_SLOT))
  }

  /** The action is not the death of a worker between its two sequence stores. */
  predicate CleanDeath(b: Board, a: Action) {
    a.Supervise? && a.event.Exit? && a.event.pid in b.ledger.children && Home(b.ledger, a.event.pid) < |b.slots| ==>
      !ScorePage.MidWrite(b.slots[Home(b.ledger, a.event.pid)], a.event.pid)
  }

  predicate CleanRun(b: Board, actions: seq<Action>)
    decreases |actions|
  {
    actions == [] || (CleanDeath(b, actions[0]) && CleanRun(Act(b, actions[0]), actions[1..]))
  }

  /** Every read of every slot returned one complete write. */
  ghost predicate Genuine(b: Board) { forall j :: 0 <= j < |b.slots| ==> ScorePage.Genuine(b.slots[j]) }

  // ----- the fleet keeps the writers apart -----

  ghost predicate OwnPens(l: Fleet.Ledger, s: ScorePage.Slot, j: nat) {
    forall p :: p in s.pens ==> p in l.children && Home(l, p) == j
  }

  ghost predicate SlotOk(l: Fleet.Ledger, s: ScorePage.Slot, j: nat) { ScorePage.Inv(s) && OwnPens(l, s, j) }

  ghost predicate Inv(b: Board, n: nat) {
    && n <= ScorePage.MAX_WORKERS && Fleet.Single(n, b.ledger) && |b.slots| == ScorePage.MAX_WORKERS
    && forall j :: 0 <= j < |b.slots| ==> SlotOk(b.ledger, b.slots[j], j)
  }

  /** One worker's action on its own slot. */
  lemma WorkerKeeps(b: Board, n: nat, pid: nat, a: ScorePage.Action)
    requires Inv(b, n) && pid in b.ledger.children
    requires a.Load? || a.Store? || a.Finish? || a.Die?
    requires a.pid == pid && (a.Die? ==> !ScorePage.MidWrite(b.slots[Home(b.ledger, pid)], pid))
    ensures Inv(ByWorker(b, pid, a), n)
  {
    hide ScorePage.Inv, ScorePage.MidWrite, Fleet.Single;
    var j := Home(b.ledger, pid);
    var s := b.slots[j];
    assert SlotOk(b.ledger, s, j);
    Fleet.SingleApart(n, b.ledger);
    assert ScorePage.Orderly(s, a);
    ScorePage.ActKeeps(s, a);
    assert forall p :: p in ScorePage.Act(s, a).pens ==> p in s.pens || p == pid;
  }

  lemma ExitKeeps(b: Board, n: nat, e: Fleet.Event)
    requires Inv(b, n) && e.Exit? && CleanDeath(b, Supervise(e))
    ensures Inv(Act(b, Supervise(e)), n)
  {
    hide ScorePage.Inv, ScorePage.MidWrite, Fleet.Single;
    Fleet.StepSingle(n, b.ledger, e);
    if e.pid in b.ledger.children {
      var a := ScorePage.Die(e.pid);
      WorkerKeeps(b, n, e.pid, a);
      var b1, l' := ByWorker(b, e.pid, a), Fleet.Step(b.ledger, e);
      forall j | 0 <= j < |b1.slots| ensures SlotOk(l', b1.slots[j], j) {
        assert SlotOk(b.ledger, b1.slots[j], j);
        assert e.pid !in b1.slots[j].pens;
        ExitLeaves(b.ledger, e);
      }
    }
  }

  lemma ExitLeaves(l: Fleet.Ledger, e: Fleet.Event)
    requires e.Exit? && e.pid in l.children
    ensures Fleet.Step(l, e).children == l.children - {e.pid}
  {
  }

  lemma DueKeeps(b: Board, n: nat, e: Fleet.Event)
    requires Inv(b, n) && e.Due?
    ensures Inv(Act(b, Supervise(e)), n)
  {
    hide ScorePage.Inv, Fleet.Single;
    Fleet.StepSingle(n, b.ledger, e);
    var l' := Fleet.Step(b.ledger, e);
    assert forall p :: p in b.ledger.children ==> p in l'.children && l'.children[p] == b.ledger.children[p];
    forall j | 0 <= j < |b.slots| ensures SlotOk(l', b.slots[j], j) {
      assert SlotOk(b.ledger, b.slots[j], j);
    }
  }

  lemma LookKeeps(b: Board, n: nat, j: nat)
    requires Inv(b, n)
    ensures Inv(Act(b, Look(j)), n)
  {
    hide ScorePage.Inv, Fleet.Single;
    if j < |b.slots| {
      assert SlotOk(b.ledger, b.slots[j], j);
      ScorePage.ActKeeps(b.slots[j], ScorePage.Look);
    }
  }

  lemma ActKeeps(b: Board, n: nat, a: Action)
    requires Inv(b, n) && CleanDeath(b, a)
    ensures Inv(Act(b, a), n)
  {
    hide Inv, CleanDeath, ScorePage.Act;
    match a
    case Supervise(e) => if e.Exit? { ExitKeeps(b, n, e); } else { DueKeeps(b, n, e); }
    case Load(pid, goal) => if pid in b.ledger.children { WorkerKeeps(b, n, pid, ScorePage.Load(pid, goal)); }
    case Store(pid) => if pid in b.ledger.children { WorkerKeeps(b, n, pid, ScorePage.Store(pid)); }
    case Finish(pid) => if pid in b.ledger.children { WorkerKeeps(b, n, pid, ScorePage.Finish(pid)); }
    case Look(j) => LookKeeps(b, n, j);
  }

  lemma {:induction false} RunKeeps(b: Board, n: nat, actions: seq<Action>)
    requires Inv(b, n) && CleanRun(b, actions)
    ensures Inv(Run(b, actions), n)
    decreases |actions|
  {
    hide Inv, CleanDeath, Act;
    if actions != [] {
      ActKeeps(b, n, actions[0]);
      RunKeeps(Act(b, actions[0]), n, actions[1..]);
    }
  }

  lemma StartKeeps(cpus: seq<nat>, forks: seq<Option<nat>>, now: nat)
    requires |forks| == |cpus| <= ScorePage.MAX_WORKERS && Fleet.FreshForks(forks)
    ensures Inv(Start(cpus, forks, now), |cpus|)
  {
    hide Fleet.Preforked, Fleet.Single, ScorePage.Inv;
    Fleet.PreforkSingle(cpus, forks, now);
    ScorePage.FreshOk();
  }

  lemma InvGenuine(b: Board, n: nat)
    requires Inv(b, n)
    ensures Genuine(b)
  {
    hide Fleet.Single, ScorePage.PensOk, ScorePage.ReaderOk, ScorePage.Genuine;
    forall j | 0 <= j < |b.slots| ensures ScorePage.Genuine(b.slots[j]) {
      assert SlotOk(b.ledger, b.slots[j], j);
    }
  }

  // ----- and a larger fleet does not -----

  function Lift(a: ScorePage.Action, j: nat): Action {
    match a
    case Load(p, goal) => Load(p, goal)
    case Store(p) => Store(p)
    case Finish(p) => Finish(p)
    case _ => Look(j)
  }

  function LiftAll(actions: seq<ScorePage.Action>, j: nat): seq<Action> {
    if actions == [] then [] else [Lift(actions[0], j)] + LiftAll(actions[1..], j)
  }

  /** Every action is a look, or a store of a live worker of slot `j`. */
  ghost predicate Local(l: Fleet.Ledger, actions: seq<ScorePage.Action>, j: nat) {
    forall i :: 0 <= i < |actions| ==>
      && !actions[i].Die?
      && (!actions[i].Look? ==> actions[i].pid in l.children && Home(l, actions[i].pid) == j)
  }

  lemma {:induction false} LiftRuns(b: Board, actions: seq<ScorePage.Action>, j: nat)
    requires j < |b.slots| && Local(b.ledger, actions, j)
    ensures CleanRun(b, LiftAll(actions, j))
    ensures Run(b, LiftAll(actions, j)) == b.(slots := b.slots[j := ScorePage.Acts(b.slots[j], actions)])
    decreases |actions|
  {
    hide ScorePage.Act;
    if actions == [] {
    } else {
      var a, rest, lifted := actions[0], actions[1..], LiftAll(actions, j);
      var b1 := Act(b, Lift(a, j));
      assert b1 == On(b, j, a);
      assert lifted[0] == Lift(a, j) && lifted[1..] == LiftAll(rest, j);
      assert forall i :: 0 <= i < |rest| ==> rest[i] == actions[i + 1];
      LiftRuns(b1, rest, j);
    }
  }

  /** Two writers in one slot: the second loads an odd number, makes it even, and a read returns
      although no write was ever finished. */
  lemma TwoWritersTear(p: nat, q: nat) returns (actions: seq<ScorePage.Action>)
    requires p != q
    ensures !ScorePage.Genuine(ScorePage.Acts(ScorePage.FRESH_SLOT, actions))
    ensures forall i :: 0 <= i < |actions| ==>
              !actions[i].Die? && (actions[i].Look? || actions[i].pid == p || actions[i].pid == q)
  {
    var g := ScorePage.NO_FIELDS;
    var start := [ScorePage.Load(p, g), ScorePage.Store(p), ScorePage.Load(q, g), ScorePage.Store(q)];
    var looks := ScorePage.FOUR_LOOKS + ScorePage.FOUR_LOOKS;
    ScorePage.FourActs(ScorePage.FRESH_SLOT, start[0], start[1], start[2], start[3]);
    var t := ScorePage.Acts(ScorePage.FRESH_SLOT, start);
    assert t.seqno == 2 && t.complete == [] && t.log == [] && t.reader.Away?;
    ScorePage.WholeRead(t);
    ScorePage.ActsAppend(ScorePage.FRESH_SLOT, start, looks);
    actions := start + looks;
    assert ScorePage.Acts(ScorePage.FRESH_SLOT, actions).log[0] == t.fields;
  }

  lemma LargeFleetTears(cpus: seq<nat>) returns (actions: seq<Action>)
    requires |cpus| > ScorePage.MAX_WORKERS
    ensures Fleet.FreshForks(Fleet.AllForked(|cpus|))
    ensures var b := Start(cpus, Fleet.AllForked(|cpus|), 0);
            CleanRun(b, actions) && !Genuine(Run(b, actions))
  {
    hide Fleet.Preforked, Fleet.AllForked, ScorePage.Genuine, ScorePage.Acts;
    Fleet.AllForkedFills(cpus);
    var b := Start(cpus, Fleet.AllForked(|cpus|), 0);
    assert b.ledger.children[31].idx == 31 && b.ledger.children[32].idx == 32;
    var local := TwoWritersTear(31, 32);
    actions := LiftAll(local, 31);
    assert Local(b.ledger, local, 31);
    LiftRuns(b, local, 31);
    var s := Run(b, actions).slots[31];
    assert s == ScorePage.Acts(ScorePage.FRESH_SLOT, local);
  }

  /** Over every prefork and every interleaving in which no worker dies in the middle of a write,
      each read of each slot returns exactly one complete write, if and only if there are at most 32
      workers. */
  lemma FleetReadsAreWritesIff(cpus: seq<nat>)
    ensures (forall forks: seq<Option<nat>>, now: nat, actions: seq<Action> ::
              |forks| == |cpus| && Fleet.FreshForks(forks) && CleanRun(Start(cpus, forks, now), actions) ==>
                Genuine(Run(Start(cpus, forks, now), actions)))
            <==> |cpus| <= ScorePage.MAX_WORKERS
  {
    hide Start, Run, CleanRun, Genuine, Inv, Fleet.FreshForks, Fleet.AllForked;
    if |cpus| <= ScorePage.MAX_WORKERS {
      forall forks: seq<Option<nat>>, now: nat, actions: seq<Action>
        | |forks| == |cpus| && Fleet.FreshForks(forks) && CleanRun(Start(cpus, forks, now), actions)
        ensures Genuine(Run(Start(cpus, forks, now), actions))
      {
        StartKeeps(cpus, forks, now);
        RunKeeps(Start(cpus, forks, now), |cpus|, actions);
        InvGenuine(Run(Start(cpus, forks, now), actions), |cpus|);
      }
    } else {
      var actions := LargeFleetTears(cpus);
    }
  }
}
