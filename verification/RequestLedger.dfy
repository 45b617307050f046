/** Where every DNS query is (pkgs/microdoh3/src/worker.rs): the primitive moves the worker
    composes, and what every run of moves keeps. */
module RequestLedger {
  import opened Bytes
  import Dns

  const MAX_QUEUED: nat := 64

  /** A validated query; `ticket` is its arrival number and `at` its arrival time, neither of which the
      program stores. */
  datatype Query = Query(ticket: nat, bytes: seq<u8>, peer: nat, at: nat)
  datatype Queued = Queued(q: Query, deadline: nat)
  datatype Pending = Pending(q: Query, deadline: nat, started: nat)
  datatype Reply = Reply(ticket: nat, peer: nat, bytes: seq<u8>)

  /** `used` and `wire` belong to the current connection: the stream ids opened on it, and the
      ticket whose request went out on each. `hand` is the query a function is working on. */
  datatype State = State(
    queue: seq<Queued>, pending: map<nat, Pending>, hand: Option<Query>,
    used: set<nat>, wire: map<nat, nat>,
    received: seq<Query>, replies: seq<Reply>, dropped: set<nat>)

  const EMPTY := State([], map[], None, {}, map[], [], [], {})

  datatype Move =
    | Receive(bytes: seq<u8>, peer: nat, at: nat)
    | PopFront
    | Take(stream: nat)
    | Answer(bytes: seq<u8>)
    | Enqueue(deadline: nat)
    | Open(stream: nat)
    | Send(stream: nat, deadline: nat, started: nat)
    | Renew

  /** The reply carries the query's own DNS ID (when it is long enough to carry one). */
  predicate OwnId(q: Query, bytes: seq<u8>) {
    |bytes| >= 2 && |q.bytes| >= 2 ==> bytes[..2] == q.bytes[..2]
  }

  predicate Possible(st: State, m: Move) {
    match m
    case Receive(_, _, _) => st.hand.None?
    case PopFront => st.hand.None? && st.queue != []
    case Take(s) => st.hand.None? && s in st.pending
    case Answer(bytes) => st.hand.Some? && OwnId(st.hand.value, bytes)
    case Enqueue(_) => st.hand.Some?
    case Open(s) => s !in st.used
    case Send(s, _, _) => st.hand.Some? && s in st.used && s !in st.wire
    case Renew => true
  }

  /** Effect of a move. `Send` on an id still in `pending` pushes the old entry out; `Renew`
      starts a connection whose stream ids begin again. */
  function Made(st: State, m: Move): State
    requires Possible(st, m)
  {
    match m
    case Receive(bytes, peer, at) =>
      var q := Query(|st.received|, bytes, peer, at);
      st.(received := st.received + [q], hand := Some(q))
    case PopFront => st.(queue := st.queue[1..], hand := Some(st.queue[0].q))
    case Take(s) => st.(pending := st.pending - {s}, hand := Some(st.pending[s].q))
    case Answer(bytes) =>
      var q := st.hand.value;
      st.(replies := st.replies + [Reply(q.ticket, q.peer, bytes)], hand := None)
    case Enqueue(deadline) => st.(queue := st.queue + [Queued(st.hand.value, deadline)], hand := None)
    case Open(s) => st.(used := st.used + {s})
    case Send(s, deadline, started) =>
      var q := st.hand.value;
      st.(pending := st.pending[s := Pending(q, deadline, started)],
          wire := st.wire[s := q.ticket],
          dropped := if s in st.pending then st.dropped + {st.pending[s].q.ticket} else st.dropped,
          hand := None)
    case Renew => st.(used := {}, wire := map[])
  }

  function Step(st: State, m: Move): State {
    if Possible(st, m) then Made(st, m) else st
  }

  // ----- the invariant -----

  ghost predicate InQueue(st: State, t: nat) {
    exists i :: 0 <= i < |st.queue| && st.queue[i].q.ticket == t
  }

  ghost predicate InPending(st: State, t: nat) {
    exists s :: s in st.pending && st.pending[s].q.ticket == t
  }

  ghost predicate Answered(st: State, t: nat) {
    exists i :: 0 <= i < |st.replies| && st.replies[i].ticket == t
  }

  predicate InHand(st: State, t: nat) {
    st.hand.Some? && st.hand.value.ticket == t
  }

  predicate Genuine(st: State, q: Query) {
    q.ticket < |st.received| && st.received[q.ticket] == q
  }

  ghost predicate AllGenuine(st: State) {
    && (forall i :: 0 <= i < |st.received| ==> st.received[i].ticket == i)
    && (forall i :: 0 <= i < |st.queue| ==> Genuine(st, st.queue[i].q))
    && (forall s :: s in st.pending ==> Genuine(st, st.pending[s].q))
    && (st.hand.Some? ==> Genuine(st, st.hand.value))
    && forall t :: t in st.dropped ==> t < |st.received|
  }

  /** Every reply goes to the peer of its own query with that query's ID. */
  ghost predicate RepliesRight(st: State) {
    forall i :: 0 <= i < |st.replies| ==>
      && var r := st.replies[i];
      && r.ticket < |st.received|
      && r.peer == st.received[r.ticket].peer && OwnId(st.received[r.ticket], r.bytes)
  }

  ghost predicate NoDuplicates(st: State) {
    && (forall i, j :: 0 <= i < j < |st.queue| ==> st.queue[i].q.ticket != st.queue[j].q.ticket)
    && (forall s, s' :: s in st.pending && s' in st.pending && s != s' ==>
        st.pending[s].q.ticket != st.pending[s'].q.ticket)
    && forall i, j :: 0 <= i < j < |st.replies| ==> st.replies[i].ticket != st.replies[j].ticket
  }

  ghost predicate Somewhere(st: State, t: nat) {
    InQueue(st, t) || InPending(st, t) || Answered(st, t) || InHand(st, t) || t in st.dropped
  }

  ghost predicate NowhereTwice(st: State, t: nat) {
    && (InQueue(st, t) ==> !InPending(st, t) && !Answered(st, t) && !InHand(st, t) && t !in st.dropped)
    && (InPending(st, t) ==> !Answered(st, t) && !InHand(st, t) && t !in st.dropped)
    && (Answered(st, t) ==> !InHand(st, t) && t !in st.dropped)
    && (InHand(st, t) ==> t !in st.dropped)
  }

  /** Exactly one place. */
  ghost predicate Placed(st: State, t: nat) {
    Somewhere(st, t) && NowhereTwice(st, t)
  }

  /** Streams of this connection that still have a pending entry have their own. */
  ghost predicate WireRight(st: State) {
    && (forall s :: s in st.wire ==> s in st.used)
    && forall s :: s in st.wire && s in st.pending ==> st.pending[s].q.ticket == st.wire[s]
  }

  ghost predicate Ledger(st: State) {
    && AllGenuine(st) && RepliesRight(st) && NoDuplicates(st) && WireRight(st)
    && forall t: nat :: t < |st.received| ==> Placed(st, t)
  }

  // ----- moves keep it -----

  lemma ReceiveKeeps(st: State, bytes: seq<u8>, peer: nat, at: nat)
    requires Ledger(st) && st.hand.None?
    ensures Ledger(Made(st, Receive(bytes, peer, at)))
  {
    var st', n := Made(st, Receive(bytes, peer, at)), |st.received|;
    forall t: nat | t < n + 1 ensures Placed(st', t) {
      assert t < n ==> Placed(st, t);
      assert InQueue(st', t) == InQueue(st, t) && InPending(st', t) == InPending(st, t)
          && Answered(st', t) == Answered(st, t);
      assert InQueue(st, t) || InPending(st, t) || Answered(st, t) || t in st.dropped ==> t < n;
    }
  }

  lemma PopKeeps(st: State)
    requires Ledger(st) && Possible(st, PopFront)
    ensures Ledger(Made(st, PopFront))
  {
    var st' := Made(st, PopFront);
    var front := st.queue[0].q.ticket;
    assert forall i :: 0 <= i < |st'.queue| ==> st'.queue[i] == st.queue[i + 1];
    forall t: nat | t < |st.received| ensures Placed(st', t) {
      assert Placed(st, t);
      assert InPending(st', t) == InPending(st, t) && Answered(st', t) == Answered(st, t);
      if InQueue(st, t) && t != front {
        var i :| 0 <= i < |st.queue| && st.queue[i].q.ticket == t;
        assert st'.queue[i - 1].q.ticket == t;
      }
      assert InQueue(st', t) <==> InQueue(st, t) && t != front;
    }
  }

  lemma TakeKeeps(st: State, s: nat)
    requires Ledger(st) && Possible(st, Take(s))
    ensures Ledger(Made(st, Take(s)))
  {
    var st' := Made(st, Take(s));
    var mine := st.pending[s].q.ticket;
    forall t: nat | t < |st.received| ensures Placed(st', t) {
      assert Placed(st, t);
      assert InQueue(st', t) == InQueue(st, t) && Answered(st', t) == Answered(st, t);
      if InPending(st, t) && t != mine {
        var k :| k in st.pending && st.pending[k].q.ticket == t;
        assert k in st'.pending && st'.pending[k].q.ticket == t;
      }
      assert InPending(st', t) <==> InPending(st, t) && t != mine;
    }
  }

  lemma AnswerKeeps(st: State, bytes: seq<u8>)
    requires Ledger(st) && Possible(st, Answer(bytes))
    ensures Ledger(Made(st, Answer(bytes)))
  {
    var st', n := Made(st, Answer(bytes)), |st.replies|;
    var mine := st.hand.value.ticket;
    assert Placed(st, mine) && InHand(st, mine);
    assert st'.replies[n].ticket == mine;
    forall i | 0 <= i < n ensures st'.replies[i] == st.replies[i] && st.replies[i].ticket != mine {
      assert st.replies[i].ticket == mine ==> Answered(st, mine);
    }
    forall t: nat | t < |st.received| ensures Placed(st', t) {
      assert Placed(st, t);
      assert InQueue(st', t) == InQueue(st, t) && InPending(st', t) == InPending(st, t);
      if Answered(st, t) {
        var i :| 0 <= i < n && st.replies[i].ticket == t;
        assert st'.replies[i].ticket == t;
      }
      assert Answered(st', t) <==> Answered(st, t) || t == mine;
    }
  }

  lemma EnqueueKeeps(st: State, deadline: nat)
    requires Ledger(st) && st.hand.Some?
    ensures Ledger(Made(st, Enqueue(deadline)))
  {
    var st', n := Made(st, Enqueue(deadline)), |st.queue|;
    var mine := st.hand.value.ticket;
    assert Placed(st, mine) && InHand(st, mine);
    assert st'.queue[n].q.ticket == mine;
    forall i | 0 <= i < n ensures st'.queue[i] == st.queue[i] && st.queue[i].q.ticket != mine {
      assert st.queue[i].q.ticket == mine ==> InQueue(st, mine);
    }
    forall t: nat | t < |st.received| ensures Placed(st', t) {
      assert Placed(st, t);
      assert InPending(st', t) == InPending(st, t) && Answered(st', t) == Answered(st, t);
      if InQueue(st, t) {
        var i :| 0 <= i < n && st.queue[i].q.ticket == t;
        assert st'.queue[i].q.ticket == t;
      }
      assert InQueue(st', t) <==> InQueue(st, t) || t == mine;
    }
  }

  lemma SendKeeps(st: State, s: nat, deadline: nat, started: nat)
    requires Ledger(st) && Possible(st, Send(s, deadline, started))
    ensures Ledger(Made(st, Send(s, deadline, started)))
  {
    var st' := Made(st, Send(s, deadline, started));
    var mine := st.hand.value.ticket;
    assert Placed(st, mine) && InHand(st, mine);
    forall k | k in st.pending ensures st.pending[k].q.ticket != mine {
      assert st.pending[k].q.ticket == mine ==> InPending(st, mine);
    }
    hide Placed;
    forall t: nat | t < |st.received| ensures Placed(st', t) {
      SendPlaced(st, s, deadline, started, t);
    }
  }

  lemma SendPlaced(st: State, s: nat, deadline: nat, started: nat, t: nat)
    requires Ledger(st) && Possible(st, Send(s, deadline, started)) && t < |st.received|
    ensures Placed(Made(st, Send(s, deadline, started)), t)
  {
    var st', mine := Made(st, Send(s, deadline, started)), st.hand.value.ticket;
    assert Placed(st, t) && Placed(st, mine) && InHand(st, mine);
    assert InQueue(st', t) == InQueue(st, t) && Answered(st', t) == Answered(st, t);
    assert s in st.pending ==> InPending(st, st.pending[s].q.ticket);
    SendPlaces(st, s, deadline, started, t);
  }

  lemma SendPlaces(st: State, s: nat, deadline: nat, started: nat, t: nat)
    requires NoDuplicates(st) && Possible(st, Send(s, deadline, started))
    ensures var st' := Made(st, Send(s, deadline, started));
            InPending(st', t) <==>
                t == st.hand.value.ticket || (InPending(st, t) && !(s in st.pending && st.pending[s].q.ticket == t))
  {
    var st' := Made(st, Send(s, deadline, started));
    assert s in st'.pending;
    if InPending(st, t) && !(s in st.pending && st.pending[s].q.ticket == t) {
      var k :| k in st.pending && st.pending[k].q.ticket == t;
      assert k in st'.pending && st'.pending[k].q.ticket == t;
    }
    if InPending(st', t) {
      var k :| k in st'.pending && st'.pending[k].q.ticket == t;
      if k != s {
        assert k in st.pending && st.pending[k].q.ticket == t;
      }
    }
  }

  lemma StepKeeps(st: State, m: Move)
    requires Ledger(st)
    ensures Ledger(Step(st, m))
  {
    if Possible(st, m) {
      hide Ledger;
      match m
      case Receive(bytes, peer, at) => ReceiveKeeps(st, bytes, peer, at);
      case PopFront => PopKeeps(st);
      case Take(s) => TakeKeeps(st, s);
      case Answer(bytes) => AnswerKeeps(st, bytes);
      case Enqueue(deadline) => EnqueueKeeps(st, deadline);
      case Open(s) => ConnectionKeeps(st, m);
      case Send(s, deadline, started) => SendKeeps(st, s, deadline, started);
      case Renew => ConnectionKeeps(st, m);
    }
  }

  lemma ConnectionKeeps(st: State, m: Move)
    requires Ledger(st) && Possible(st, m) && (m.Open? || m.Renew?)
    ensures Ledger(Made(st, m))
  {
    var st' := Made(st, m);
    forall t: nat | t < |st.received| ensures Placed(st', t) {
      assert Placed(st, t);
      assert InQueue(st', t) == InQueue(st, t) && InPending(st', t) == InPending(st, t)
          && Answered(st', t) == Answered(st, t);
    }
  }

  // ----- whole runs -----

  function Run(moves: seq<Move>): State {
    if moves == [] then EMPTY else Step(Run(moves[..|moves| - 1]), moves[|moves| - 1])
  }

  /** Every connection replacement finds nothing pending. */
  predicate CleanRenewals(moves: seq<Move>) {
    moves == []
    || (&& CleanRenewals(moves[..|moves| - 1])
        && (moves[|moves| - 1] == Renew ==> Run(moves[..|moves| - 1]).pending == map[]))
  }

  ghost predicate NothingStale(st: State) {
    st.dropped == {} && forall s :: s in st.pending ==> s in st.wire
  }

  /** In every run each query is in exactly one place, is answered at most once, to its own peer
      with its own ID; and none is dropped as long as renewals find nothing pending. */
  lemma {:induction false} EveryRun(moves: seq<Move>)
    ensures Ledger(Run(moves))
    ensures CleanRenewals(moves) ==> NothingStale(Run(moves))
  {
    hide Ledger;
    if moves == [] {
      EmptyLedger();
    } else {
      var init, m := moves[..|moves| - 1], moves[|moves| - 1];
      EveryRun(init);
      StepKeeps(Run(init), m);
      if CleanRenewals(moves) {
        FreshStaysFresh(Run(init), m);
      }
    }
  }

  lemma EmptyLedger()
    ensures Ledger(EMPTY)
  {
  }

  lemma FreshStaysFresh(st: State, m: Move)
    requires NothingStale(st) && (m == Renew ==> st.pending == map[])
    ensures NothingStale(Step(st, m))
  {
  }

  /** Exactly one of waiting, sent and answered. */
  ghost predicate InOnePlace(st: State, t: nat) {
    && (InQueue(st, t) || InPending(st, t) || Answered(st, t))
    && !(InQueue(st, t) && InPending(st, t)) && !(InQueue(st, t) && Answered(st, t))
    && !(InPending(st, t) && Answered(st, t))
  }

  /** Between calls every query is in one place, as long as renewals find nothing pending. */
  lemma OnePlace(moves: seq<Move>, t: nat)
    requires CleanRenewals(moves) && Run(moves).hand.None? && t < |Run(moves).received|
    ensures InOnePlace(Run(moves), t)
  {
    EveryRun(moves);
    var st := Run(moves);
    assert Placed(st, t);
  }

  // ----- replacing a connection over pending requests -----

  /** What the worker demands of a move at time `now`: queries are validated, the queue is bounded,
      deadlines are a timeout away, a query waits no longer than a timeout before it is sent, and the
      connection stays. */
  predicate Permitted(st: State, m: Move, now: nat, timeout: nat) {
    match m
    case Receive(bytes, _, at) => Dns.ValidateQuery(bytes).Ok? && at == now
    case Enqueue(deadline) =>
      |st.queue| < MAX_QUEUED && deadline == now + timeout && (st.hand.Some? ==> now <= st.hand.value.at)
    case Send(_, deadline, started) =>
      deadline == now + timeout && started == now && (st.hand.Some? ==> now <= st.hand.value.at + timeout)
    case Renew => false
    case _ => true
  }

  function From(st: State, moves: seq<Move>): State
    decreases |moves|
  {
    if moves == [] then st else From(Step(st, moves[0]), moves[1..])
  }

  predicate AllPermitted(st: State, moves: seq<Move>, now: nat, timeout: nat)
    decreases |moves|
  {
    moves == [] || (Permitted(st, moves[0], now, timeout) && AllPermitted(Step(st, moves[0]), moves[1..], now, timeout))
  }

  lemma {:induction false} FreshForever(st: State, moves: seq<Move>, now: nat, timeout: nat)
    requires NothingStale(st) && AllPermitted(st, moves, now, timeout)
    ensures NothingStale(From(st, moves))
    decreases |moves|
  {
    hide NothingStale, Step;
    if moves != [] {
      FreshStaysFresh(st, moves[0]);
      FreshForever(Step(st, moves[0]), moves[1..], now, timeout);
    }
  }

  const BARE_QUERY: seq<u8> := [0, 0, 0, 0, 0, 1, 0, 0, 0, 0, 0, 0]

  /** The next query sent on a stream id that is still pending pushes the old one out. */
  function Overwrite(s: nat, now: nat, timeout: nat): seq<Move> {
    [Receive(BARE_QUERY, 0, now), Open(s), Send(s, now + timeout, now)]
  }

  lemma OverwriteSteps(st: State, s: nat, now: nat, timeout: nat)
    requires st.hand.None? && s !in st.used && s !in st.wire && s in st.pending
    ensures AllPermitted(st, Overwrite(s, now, timeout), now, timeout)
    ensures var end := From(st, Overwrite(s, now, timeout));
            end.hand.None? && end.dropped == st.dropped + {st.pending[s].q.ticket}
  {
    var ms := Overwrite(s, now, timeout);
    var a := Step(st, ms[0]);
    var b := Step(a, ms[1]);
    var c := Step(b, ms[2]);
    assert ms[1..][1..] == [ms[2]] && [ms[2]][1..] == [] && ms[1..][0] == ms[1];
    assert From(c, []) == c && From(b, [ms[2]]) == c && From(a, ms[1..]) == c;
    assert AllPermitted(b, [ms[2]], now, timeout) && AllPermitted(a, ms[1..], now, timeout);
  }

  /** Exactly when replacing the connection is harmless: whatever the worker then does on the new
      connection, no query is dropped, if and only if nothing was pending. */
  lemma RenewalHarmlessIff(st: State, now: nat, timeout: nat)
    requires Ledger(st) && NothingStale(st) && st.hand.None?
    ensures (forall moves :: AllPermitted(Step(st, Renew), moves, now, timeout) ==>
              From(Step(st, Renew), moves).dropped == {})
            <==> st.pending == map[]
  {
    hide Ledger, From, AllPermitted, Overwrite;
    var renewed := Step(st, Renew);
    if st.pending == map[] {
      forall moves | AllPermitted(renewed, moves, now, timeout) ensures From(renewed, moves).dropped == {} {
        FreshForever(renewed, moves, now, timeout);
      }
    } else {
      var s :| s in st.pending;
      OverwriteSteps(renewed, s, now, timeout);
      assert From(renewed, Overwrite(s, now, timeout)).dropped != {};
    }
  }

  /** A query pushed out that way is nowhere and never answered, whatever follows. */
  lemma DirtyRenewalDrops(st: State, s: nat, now: nat, timeout: nat, more: seq<Move>)
    requires Ledger(st) && st.hand.None? && s in st.pending
    ensures var end := From(From(Step(st, Renew), Overwrite(s, now, timeout)), more);
            var t := st.pending[s].q.ticket;
            t in end.dropped && !Answered(end, t) && !InPending(end, t) && !InQueue(end, t)
  {
    hide Ledger, Overwrite;
    var renewed := Step(st, Renew);
    StepKeeps(st, Renew);
    OverwriteSteps(renewed, s, now, timeout);
    FromKeeps(renewed, Overwrite(s, now, timeout));
    var mid := From(renewed, Overwrite(s, now, timeout));
    FromKeeps(mid, more);
    DroppedIsGone(From(mid, more), st.pending[s].q.ticket);
  }

  lemma {:induction false} FromKeeps(st: State, moves: seq<Move>)
    requires Ledger(st)
    ensures Ledger(From(st, moves)) && st.dropped <= From(st, moves).dropped
    decreases |moves|
  {
    hide Ledger;
    if moves != [] {
      StepKeeps(st, moves[0]);
      FromKeeps(Step(st, moves[0]), moves[1..]);
    }
  }

  lemma DroppedIsGone(st: State, t: nat)
    requires Ledger(st) && t in st.dropped
    ensures !Answered(st, t) && !InPending(st, t) && !InQueue(st, t)
  {
    assert Placed(st, t);
  }
}
