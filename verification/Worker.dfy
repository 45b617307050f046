/** The worker's request path (pkgs/microdoh3/src/worker.rs) as the functions that make the
    ledger's moves: draining the DNS socket, flushing the handshake queue, applying QUIC and
    HTTP/3 events, housekeeping and shutdown. */
module Worker {
  import opened Bytes
  import opened RequestLedger
  import Dns

  // Times are milliseconds.
  const RETRY: nat := 1000
  const BACKOFF_MAX: nat := 5000

  function NextBackoff(b: nat): nat {
    if 2 * b + 100 < BACKOFF_MAX then 2 * b + 100 else BACKOFF_MAX
  }

  function Losses(n: nat): nat { if n == 0 then 0 else NextBackoff(Losses(n - 1)) }

  /** The delay before the reconnect after `n` losses in a row: 100 ms doubled plus 100 ms each time, up
      to five seconds. */
  lemma {:induction false} BackoffSchedule(n: nat)
    ensures Losses(n) == if 100 * (Pow2(n) - 1) < 5000 then 100 * (Pow2(n) - 1) else 5000
  {
    if n > 0 {
      BackoffSchedule(n - 1);
    }
  }

  /** What QUIC does with one request. */
  datatype Io = NoStream | WriteFails(stream: nat) | FinishFails(stream: nat) | Sent(stream: nat)

  datatype Datagram = Datagram(bytes: seq<u8>, peer: nat, io: Io)

  datatype H3Event = Response(stream: nat, body: seq<u8>) | Failed(stream: nat) | Goaway

  datatype QuicEvent = Connected(ios: seq<Io>) | Lost | Stream(event: H3Event)

  /** Outcome of opening a connection: up, refused, or opened with the first flush failing. */
  datatype Connect = Up(ready: bool) | Refused | Stuck

  /** An event and the ticket whose request went out on its stream. */
  datatype Tagged = Tagged(event: H3Event, ticket: nat)

  // ----- timing -----

  ghost predicate Sorted(queue: seq<Queued>) {
    forall i, j :: 0 <= i < j < |queue| ==> queue[i].deadline <= queue[j].deadline
  }

  /** The handshake queue is short, sorted by deadline, and nothing is due after now + timeout. */
  ghost predicate Timely(st: State, limit: nat) {
    && |st.queue| <= MAX_QUEUED && Sorted(st.queue)
    && (forall i :: 0 <= i < |st.queue| ==> st.queue[i].deadline <= limit)
    && forall s :: s in st.pending ==> st.pending[s].deadline <= limit
  }

  /** A waiting query is due a timeout after it arrived, a sent one at most two timeouts after. */
  ghost predicate Prompt(st: State, timeout: nat) {
    && (forall i :: 0 <= i < |st.queue| ==> st.queue[i].deadline <= st.queue[i].q.at + timeout)
    && forall s :: s in st.pending ==> st.pending[s].deadline <= st.pending[s].q.at + 2 * timeout
  }

  lemma PromptKeeps(st: State, m: Move, now: nat, timeout: nat)
    requires Prompt(st, timeout) && Possible(st, m) && (m != Renew ==> Permitted(st, m, now, timeout))
    ensures Prompt(Made(st, m), timeout)
  {
  }

  lemma FrontPrompt(st: State, timeout: nat)
    requires Prompt(st, timeout) && st.queue != []
    ensures st.queue[0].deadline <= st.queue[0].q.at + timeout
  {
  }

  /** Once nothing tracked is overdue, every query two timeouts old is answered or was dropped. */
  lemma OldAreSettled(st: State, now: nat, timeout: nat)
    requires Ledger(st) && st.hand.None? && Prompt(st, timeout)
    requires forall s :: s in st.pending ==> st.pending[s].deadline > now
    requires forall i :: 0 <= i < |st.queue| ==> st.queue[i].deadline > now
    ensures Settled(st, now, timeout)
  {
    forall t: nat | t < |st.received| && st.received[t].at + 2 * timeout <= now
      ensures Answered(st, t) || t in st.dropped
    {
      assert Placed(st, t);
      TrackedAreYoung(st, now, timeout, t);
    }
  }

  lemma TrackedAreYoung(st: State, now: nat, timeout: nat, t: nat)
    requires AllGenuine(st) && Prompt(st, timeout)
    requires forall s :: s in st.pending ==> st.pending[s].deadline > now
    requires forall i :: 0 <= i < |st.queue| ==> st.queue[i].deadline > now
    ensures InQueue(st, t) || InPending(st, t) ==> t < |st.received| && st.received[t].at + 2 * timeout > now
  {
    if InQueue(st, t) {
      var i :| 0 <= i < |st.queue| && st.queue[i].q.ticket == t;
      assert Genuine(st, st.queue[i].q);
    } else if InPending(st, t) {
      var s :| s in st.pending && st.pending[s].q.ticket == t;
      assert Genuine(st, st.pending[s].q);
    }
  }

  /** Every query that arrived two timeouts ago or earlier has its answer, unless it was dropped. */
  ghost predicate Settled(st: State, now: nat, timeout: nat) {
    forall t: nat :: t < |st.received| && st.received[t].at + 2 * timeout <= now ==> Answered(st, t) || t in st.dropped
  }

  function Earlier(a: Option<nat>, b: nat): Option<nat> {
    if a.Some? && a.value < b then a else Some(b)
  }

  /** The timer the loop arms: QUIC, reconnect, earliest pending deadline, head of the queue. */
  ghost function NextWake(st: State, quic: Option<nat>, reconnectAt: Option<nat>): Option<nat> {
    var a := if reconnectAt.Some? then Earlier(quic, reconnectAt.value) else quic;
    var b := if st.pending == map[] then a else Earlier(a, EarliestPending(st.pending));
    if st.queue == [] then b else Earlier(b, st.queue[0].deadline)
  }

  ghost function EarliestPending(pending: map<nat, Pending>): (d: nat)
    requires pending != map[]
    ensures forall s :: s in pending ==> d <= pending[s].deadline
    ensures exists s :: s in pending && pending[s].deadline == d
    decreases |pending|
  {
    var s :| s in pending;
    var rest := pending - {s};
    assert pending == rest[s := pending[s]];
    if rest == map[] then pending[s].deadline
    else
      var d := EarliestPending(rest);
      var k :| k in rest && rest[k].deadline == d;
      assert k in pending && pending[k] == rest[k];
      if d < pending[s].deadline then d else pending[s].deadline
  }

  /** The armed timer is never later than any tracked query's deadline: front-only is enough
      because the queue is sorted. */
  lemma TimerCoversDeadlines(st: State, quic: Option<nat>, reconnectAt: Option<nat>)
    requires Sorted(st.queue)
    ensures forall s :: s in st.pending ==>
              NextWake(st, quic, reconnectAt).Some? && NextWake(st, quic, reconnectAt).value <= st.pending[s].deadline
    ensures forall i :: 0 <= i < |st.queue| ==>
              NextWake(st, quic, reconnectAt).Some? && NextWake(st, quic, reconnectAt).value <= st.queue[i].deadline
    ensures quic.Some? ==> NextWake(st, quic, reconnectAt).Some? && NextWake(st, quic, reconnectAt).value <= quic.value
    ensures reconnectAt.Some? ==>
              NextWake(st, quic, reconnectAt).Some? && NextWake(st, quic, reconnectAt).value <= reconnectAt.value
    ensures NextWake(st, quic, reconnectAt).Some? ==>
              var t := NextWake(st, quic, reconnectAt).value;
              quic == Some(t) || reconnectAt == Some(t)
              || (exists s :: s in st.pending && st.pending[s].deadline == t)
              || (st.queue != [] && st.queue[0].deadline == t)
  {
    forall i | 0 <= i < |st.queue| ensures st.queue[0].deadline <= st.queue[i].deadline {
      assert i > 0 ==> st.queue[0].deadline <= st.queue[i].deadline;
    }
  }

  // ----- answers -----

  /** An upstream body with the client's ID put back. */
  function WithId(body: seq<u8>, query: seq<u8>): seq<u8> {
    if |body| >= 2 && |query| >= 2 then [query[0], query[1]] + body[2..] else body
  }

  /** The client gets the upstream's message, octet for octet, under its own ID. */
  ghost predicate Answers(r: Reply, q: Query, body: seq<u8>) {
    && r.ticket == q.ticket && r.peer == q.peer && |r.bytes| == |body|
    && if |body| >= 2 && |q.bytes| >= 2 then r.bytes[..2] == q.bytes[..2] && r.bytes[2..] == body[2..]
       else r.bytes == body
  }

  /** One more reply, and it is this answer. */
  ghost predicate Delivered(before: seq<Reply>, after: seq<Reply>, q: Query, body: seq<u8>) {
    |after| == |before| + 1 && before <= after && Answers(after[|before|], q, body)
  }

  lemma WithIdAnswers(q: Query, body: seq<u8>)
    ensures Answers(Reply(q.ticket, q.peer, WithId(body, q.bytes)), q, body)
  {
  }

  ghost predicate AllValidated(st: State) {
    forall i :: 0 <= i < |st.received| ==> Dns.ValidateQuery(st.received[i].bytes).Ok?
  }

  lemma HandValidated(st: State)
    requires Ledger(st) && AllValidated(st) && st.hand.Some?
    ensures |st.hand.value.bytes| >= Dns.HEADER
    ensures OwnId(st.hand.value, Dns.Servfail(st.hand.value.bytes))
    ensures Genuine(st, st.hand.value)
  {
    var q := st.hand.value;
    assert st.received[q.ticket] == q;
    Dns.ServfailAnswers(q.bytes);
  }

  class Loop {
    const timeout: nat
    var st: State
    var conn: bool
    var ready: bool
    var goaway: bool
    var reconnectAt: Option<nat>
    var backoff: nat
    var clock: nat
    ghost var moves: seq<Move>
    ghost var dirty: bool

    /** Everything the loop maintains with a query possibly in hand. */
    ghost predicate Core()
      reads this
    {
      && st == Run(moves) && Ledger(st)
      && AllValidated(st)
      && Timely(st, clock + timeout) && Prompt(st, timeout)
      && (!conn ==> st.used == {} && st.wire == map[] && (st.pending == map[] || dirty))
      && (ready ==> conn || dirty)
      && (!dirty ==> CleanRenewals(moves))
      && backoff <= BACKOFF_MAX
    }

    /** Between calls; while no connection was replaced under pending requests, a scheduled
        reconnect of a live connection finds nothing pending. */
    ghost predicate Valid()
      reads this
    {
      && Core() && st.hand.None?
      && (!dirty && conn && reconnectAt.Some? ==> st.pending == map[] && (goaway || !ready))
    }

    /** Nothing recorded is ever taken back. */
    twostate predicate Grows()
      reads this
    {
      old(st.received) <= st.received && old(st.replies) <= st.replies && old(moves) <= moves
    }

    constructor (timeout: nat, now: nat, ready: bool)
      ensures Valid() && conn && !dirty && st == EMPTY && this.timeout == timeout && clock == now
      ensures this.ready == ready && !goaway && reconnectAt == None
    {
      this.timeout, st, conn, this.ready, goaway, reconnectAt := timeout, EMPTY, true, ready, false, None;
      backoff, clock, moves, dirty := 0, now, [], false;
      new;
      EveryRun([]);
    }

    method Advance(now: nat)
      requires Core() && clock <= now
      modifies this`clock
      ensures Core() && clock == now
    {
      clock := now;
    }

    /** Make one move; the ledger follows from the run so far. */
    method Do(m: Move)
      requires Core() && Possible(st, m)
      requires m != Renew ==> Permitted(st, m, clock, timeout)
      requires m.Send? || m.Open? ==> conn
      requires m.Renew? ==> st.pending == map[] || dirty
      modifies this`st, this`moves
      ensures Core() && st == Made(old(st), m) && moves == old(moves) + [m]
    {
      hide Ledger, CleanRenewals, Run, Prompt;
      PromptKeeps(st, m, clock, timeout);
      assert (moves + [m])[..|moves|] == moves;
      StepKeeps(st, m);
      ExtendRun(moves, m);
      st := Made(st, m);
      moves := moves + [m];
    }

    /** `send_servfail`. */
    method SendServfail()
      requires Core() && st.hand.Some?
      modifies this`st, this`moves
      ensures Core() && Grows()
      ensures |old(st.hand.value.bytes)| >= Dns.HEADER
      ensures st == Made(old(st), Answer(Dns.Servfail(old(st.hand.value.bytes))))
      ensures OnlyFailures(st.received, old(st.replies), st.replies)
    {
      HandValidated(st);
      hide Ledger, Prompt;
      var ok, out := Dns.BuildServfail(st.hand.value.bytes, []);
      Do(Answer(out));
    }

    /** `dispatch_query` once the request bytes are built. */
    method DispatchQuery(io: Io)
      requires Core() && st.hand.Some? && clock <= st.hand.value.at + timeout
      modifies this`st, this`moves
      ensures Core() && Grows() && st.hand.None? && st.queue == old(st.queue) && st.received == old(st.received)
      ensures if conn && io.Sent? && io.stream !in old(st.used)
              then && st.pending == old(st.pending)[io.stream := Pending(old(st.hand.value), clock + timeout, clock)]
                   && io.stream in st.wire && st.wire[io.stream] == old(st.hand.value.ticket)
                   && st.replies == old(st.replies)
                   && st.dropped == old(st.dropped)
                      + if io.stream in old(st.pending) then {old(st.pending)[io.stream].q.ticket} else {}
              else && st.pending == old(st.pending) && st.dropped == old(st.dropped)
                   && |old(st.hand.value.bytes)| >= Dns.HEADER
                   && st.replies == old(st.replies)
                      + [Reply(old(st.hand.value.ticket), old(st.hand.value.peer),
                          Dns.Servfail(old(st.hand.value.bytes)))]
      ensures forall s :: s in old(st.wire) ==> s in st.wire && st.wire[s] == old(st.wire)[s]
      ensures st.used <= old(st.used) + if io.NoStream? then {} else {io.stream}
      ensures OnlyFailures(st.received, old(st.replies), st.replies)
    {
      hide Ledger, CleanRenewals, Run, AllValidated, Timely, Prompt;
      if !conn || io.NoStream? || io.stream in st.used {
        SendServfail();
        return;
      }
      WireInUse(st);
      Do(Open(io.stream));
      if io.WriteFails? || io.FinishFails? {
        SendServfail();
        return;
      }
      Do(Send(io.stream, clock + timeout, clock));
    }

    /** One acceptable datagram: failed, queued while handshaking, or sent. */
    method HandleQuery(d: Datagram)
      requires Valid() && Dns.ValidateQuery(d.bytes).Ok?
      modifies this`st, this`moves
      ensures Valid() && Grows()
      ensures AcceptedInto(old(st), st, [Query(|old(st.received)|, d.bytes, d.peer, clock)], goaway || !conn, ready)
      ensures Handles(old(st), st, d, goaway || !conn, ready, clock, timeout)
    {
      hide Ledger, CleanRenewals, Run, AllValidated, Timely, Prompt;
      hide OnlyFailures, AcceptedInto, OwnId;
      Do(Receive(d.bytes, d.peer, clock));
      if goaway || !conn {
        SendServfail();
      } else if !ready {
        if |st.queue| >= MAX_QUEUED {
          SendServfail();
        } else {
          Do(Enqueue(clock + timeout));
        }
      } else {
        DispatchQuery(d.io);
      }
      HandlesAccepts(old(st), st, d, goaway || !conn, ready, clock, timeout);
    }

    /** `drain_dns`: every acceptable datagram becomes a received query, the rest are ignored. `trail`
        lists the states between the datagrams. */
    method DrainDns(datagrams: seq<Datagram>) returns (ghost trail: seq<State>)
      requires Valid()
      modifies this`st, this`moves
      ensures Valid() && Grows()
      ensures |trail| == |datagrams| + 1 && trail[0] == old(st) && trail[|datagrams|] == st
      ensures forall k :: 0 <= k < |datagrams| ==>
                Handles(trail[k], trail[k + 1], datagrams[k], goaway || !conn, ready, clock, timeout)
      ensures AcceptedInto(old(st), st, Accepted(datagrams, |old(st.received)|, clock), goaway || !conn, ready)
    {
      hide Valid, Dns.ValidateQuery, FailureTo, Accepted, AcceptedInto, Handles;
      ghost var start, qs := st, [];
      trail := [st];
      AcceptedNothing(st, datagrams, goaway || !conn, ready, clock);
      for k := 0 to |datagrams|
        invariant Valid() && Grows()
        invariant qs == Accepted(datagrams[..k], |start.received|, clock)
        invariant AcceptedInto(start, st, qs, goaway || !conn, ready)
        invariant |trail| == k + 1 && trail[0] == start && trail[k] == st
        invariant forall i :: 0 <= i < k ==>
                    Handles(trail[i], trail[i + 1], datagrams[i], goaway || !conn, ready, clock, timeout)
      {
        var d := datagrams[k];
        AcceptedStep(datagrams, k, |start.received|, clock);
        if Dns.ValidateQuery(d.bytes).Ok? {
          ghost var mid := st;
          HandleQuery(d);
          AcceptedAgain(start, mid, st, qs, Query(|mid.received|, d.bytes, d.peer, clock), goaway || !conn, ready);
          qs := qs + [Query(|mid.received|, d.bytes, d.peer, clock)];
        } else {
          HandlesNothing(st, d, goaway || !conn, ready, clock, timeout);
        }
        trail := trail + [st];
      }
      assert datagrams[..|datagrams|] == datagrams;
    }

    /** `flush_queue`: everything waiting is sent, or failed if it is already late. */
    method FlushQueue(ios: seq<Io>)
      requires Core() && st.hand.None?
      modifies this`st, this`moves
      ensures Core() && Grows() && st.hand.None? && st.queue == [] && st.received == old(st.received)
      ensures forall s :: s in old(st.wire) ==> s in st.wire && st.wire[s] == old(st.wire)[s]
      ensures FreshStreams(ios, old(st.used)) ==>
                forall i :: 0 <= i < |old(st.queue)| ==>
                    Flushed(st, old(st.queue)[i], IoAt(ios, i), conn, clock, timeout)
      ensures OnlyFailures(st.received, old(st.replies), st.replies)
      ensures !conn ==> st.pending == old(st.pending)
    {
      hide Ledger, CleanRenewals, Run, AllValidated, Timely, Prompt, FailureTo;
      var k := 0;
      while st.queue != []
        invariant OnlyFailures(st.received, old(st.replies), st.replies)
        invariant !conn ==> st.pending == old(st.pending)
        invariant Core() && Grows() && st.hand.None? && st.received == old(st.received)
        invariant forall s :: s in old(st.wire) ==> s in st.wire && st.wire[s] == old(st.wire)[s]
        invariant 0 <= k <= |old(st.queue)| && st.queue == old(st.queue)[k..]
        invariant FreshStreams(ios, old(st.used)) ==> Unopened(ios, k, st.used)
        invariant FreshStreams(ios, old(st.used)) ==>
                    forall i :: 0 <= i < k ==> Flushed(st, old(st.queue)[i], IoAt(ios, i), conn, clock, timeout)
        decreases |st.queue|
      {
        FlushOne(IoAt(ios, k));
        k := k + 1;
      }
    }

    /** The front of the queue is sent, or failed when late or when its stream does not work. */
    method FlushOne(io: Io)
      requires Core() && st.hand.None? && st.queue != []
      modifies this`st, this`moves
      ensures Core() && Grows() && st.hand.None? && st.received == old(st.received)
      ensures st.queue == old(st.queue)[1..]
      ensures forall s :: s in old(st.wire) ==> s in st.wire && st.wire[s] == old(st.wire)[s]
      ensures st.used <= old(st.used) + if io.NoStream? then {} else {io.stream}
      ensures io.NoStream? || io.stream !in old(st.used) ==> Flushed(st, old(st.queue)[0], io, conn, clock, timeout)
      ensures forall s :: s in old(st.wire) && s in old(st.pending) ==>
                s in st.pending && st.pending[s] == old(st.pending)[s]
      ensures OnlyFailures(st.received, old(st.replies), st.replies)
      ensures !conn ==> st.pending == old(st.pending)
    {
      hide Ledger, CleanRenewals, Run, AllValidated, Timely, Prompt;
      var deadline := st.queue[0].deadline;
      assert deadline <= st.queue[0].q.at + timeout by { FrontPrompt(st, timeout); }
      WireInUse(st);
      Do(PopFront);
      if deadline <= clock {
        SendServfail();
      } else {
        DispatchQuery(io);
      }
    }

    /** Fail the pending request on stream `s`. */
    method FailPending(s: nat)
      requires Core() && st.hand.None? && s in st.pending
      modifies this`st, this`moves
      ensures Core() && Grows() && st.hand.None?
      ensures st.pending == old(st.pending) - {s} && st.queue == old(st.queue) && st.received == old(st.received)
      ensures st.wire == old(st.wire) && st.used == old(st.used)
      ensures |old(st.pending[s].q.bytes)| >= Dns.HEADER
                && st.replies == old(st.replies) + [FailureTo(old(st.pending[s].q))]
      ensures OnlyFailures(st.received, old(st.replies), st.replies) && st.dropped == old(st.dropped)
    {
      hide Ledger, Prompt;
      Do(Take(s));
      SendServfail();
    }

    /** `fail_all_pending`: each pending request gets one SERVFAIL of its own. */
    method FailAllPending()
      requires Core() && st.hand.None?
      modifies this`st, this`moves
      ensures Core() && Grows() && st.hand.None? && st.pending == map[]
      ensures st.queue == old(st.queue) && st.received == old(st.received)
      ensures st.wire == old(st.wire) && st.used == old(st.used)
      ensures forall s :: s in old(st.pending) ==> FailureTo(old(st.pending[s].q)) in st.replies
      ensures OnlyFailures(st.received, old(st.replies), st.replies) && st.dropped == old(st.dropped)
    {
      hide Ledger, Prompt, FailureTo;
      while st.pending != map[]
        invariant OnlyFailures(st.received, old(st.replies), st.replies) && st.dropped == old(st.dropped)
        invariant Core() && Grows() && st.hand.None?
        invariant st.queue == old(st.queue) && st.received == old(st.received)
        invariant st.wire == old(st.wire) && st.used == old(st.used)
        invariant forall s :: s in st.pending ==> s in old(st.pending) && st.pending[s] == old(st.pending)[s]
        invariant forall s :: s in old(st.pending) && s !in st.pending ==> FailureTo(old(st.pending[s].q)) in st.replies
        decreases |st.pending|
      {
        var s :| s in st.pending;
        FailPending(s);
      }
    }

    /** Forget the connection: its stream ids and the HTTP/3 state go with it. */
    method DropConn()
      requires Core() && (st.pending == map[] || dirty)
      modifies this
      ensures Core() && Grows() && !conn && !ready && !goaway
      ensures st == Made(old(st), Renew)
      ensures reconnectAt == old(reconnectAt) && backoff == old(backoff) && clock == old(clock) && dirty == old(dirty)
    {
      Do(Renew);
      conn, ready, goaway := false, false, false;
    }

    /** One HTTP/3 event: the request that went out on its stream is answered, if still pending. */
    method ApplyEvent(tg: Tagged)
      requires Valid() && TagRight(st, tg)
      modifies this
      ensures Valid() && Grows()
      ensures st.queue == old(st.queue) && st.received == old(st.received) && st.wire == old(st.wire)
      ensures conn == old(conn) && ready == old(ready) && clock == old(clock) && dirty == old(dirty)
      ensures old(reconnectAt).Some? ==> reconnectAt.Some?
      ensures tg.event.Goaway? ==> st == old(st)
      ensures !tg.event.Goaway? ==> st.pending == old(st.pending) - {tg.event.stream}
      ensures !tg.event.Goaway? && tg.event.stream in old(st.pending) ==>
        && tg.ticket < |st.received|
        && var q := st.received[tg.ticket];
        && q.ticket == tg.ticket && |q.bytes| >= Dns.HEADER
        && if tg.event.Response? then Delivered(old(st.replies), st.replies, q, tg.event.body)
           else st.replies == old(st.replies) + [FailureTo(q)]
      ensures !tg.event.Goaway? && tg.event.stream !in old(st.pending) ==> st == old(st)
    {
      hide Ledger, CleanRenewals, Run, AllValidated, Timely, Prompt;
      match tg.event
      case Response(s, body) =>
        if s in st.pending {
          TakenIs(st, tg);
          Deliver(s, body);
        } else {
          assert st.pending - {s} == st.pending;
        }
      case Failed(s) =>
        if s in st.pending {
          TakenIs(st, tg);
          FailPending(s);
        } else {
          assert st.pending - {s} == st.pending;
        }
      case Goaway =>
        if conn {
          goaway := true;
          if st.pending == map[] {
            reconnectAt := Some(clock);
          }
        }
    }

    /** Answer the pending request on stream `s` with an upstream body. */
    method Deliver(s: nat, body: seq<u8>)
      requires Core() && st.hand.None? && s in st.pending
      modifies this`st, this`moves
      ensures Core() && Grows() && st.hand.None?
      ensures st.pending == old(st.pending) - {s} && st.queue == old(st.queue) && st.received == old(st.received)
      ensures st.wire == old(st.wire) && st.used == old(st.used)
      ensures Delivered(old(st.replies), st.replies, old(st.pending[s].q), body)
    {
      hide Ledger, CleanRenewals, Run, AllValidated, Timely, Prompt;
      Do(Take(s));
      WithIdAnswers(st.hand.value, body);
      Do(Answer(WithId(body, st.hand.value.bytes)));
    }

    /** The handshake is done: the first time round the waiting queries go out. The code does not ask
        whether the connection still exists; if it does not, the flag is left wrong. */
    method OnConnected(ios: seq<Io>)
      requires Valid()
      modifies this
      ensures Valid() && Grows() && conn == old(conn) && ready && backoff == 0 && reconnectAt == None
      ensures clock == old(clock) && dirty == (old(dirty) || !conn) && st.received == old(st.received)
      ensures OnlyFailures(st.received, old(st.replies), st.replies)
      ensures !conn ==> st.pending == old(st.pending)
      ensures old(ready) ==> st == old(st)
      ensures !old(ready) ==> st.queue == []
      ensures !old(ready) && FreshStreams(ios, old(st.used)) ==>
                forall i :: 0 <= i < |old(st.queue)| ==>
                    Flushed(st, old(st.queue)[i], IoAt(ios, i), conn, clock, timeout)
      ensures forall s :: s in old(st.wire) ==> s in st.wire && st.wire[s] == old(st.wire)[s]
    {
      hide Ledger, CleanRenewals, Run, AllValidated, Timely, Prompt, FailureTo, Flushed, FreshStreams, OnlyFailures;
      backoff, reconnectAt := 0, None;
      NoFailures(st.received, st.replies);
      if !conn {
        dirty := true;
      }
      if !ready {
        ready := true;
        FlushQueue(ios);
      }
    }

    /** The connection is lost: its requests fail and a retry is scheduled. */
    method OnLost()
      requires Valid()
      modifies this
      ensures Valid() && Grows() && !conn && st.pending == map[]
      ensures reconnectAt == Some(clock + old(backoff)) && backoff == NextBackoff(old(backoff))
      ensures clock == old(clock) && dirty == old(dirty) && st.received == old(st.received)
      ensures forall s :: s in old(st.pending) ==> FailureTo(old(st.pending[s].q)) in st.replies
      ensures OnlyFailures(st.received, old(st.replies), st.replies)
    {
      hide Ledger, Prompt, FailureTo;
      FailAllPending();
      DropConn();
      reconnectAt := Some(clock + backoff);
      backoff := NextBackoff(backoff);
    }

    /** `process_quic_events`: first the whole batch, then the HTTP/3 events it produced. Without a
        connection there are no events. */
    method ProcessQuicEvents(events: seq<QuicEvent>)
      requires Valid() && (conn || events == [])
      modifies this
      ensures Valid() && Grows() && clock == old(clock) && st.received == old(st.received)
      ensures dirty == (old(dirty) || Revived(events))
      ensures Lost in events ==> !conn && st.pending == map[] && (Revived(events) || reconnectAt.Some?)
      ensures forall i :: |old(st.replies)| <= i < |st.replies| ==>
                FailureReply(st.received, st.replies[i]) || ResponseReply(st, st.replies[i], events)
    {
      hide Ledger, FailureTo, ResponseReply, Valid, Revived, Answers;
      var acc := ReadEvents(events);
      for i := 0 to |acc|
        invariant Valid() && Grows() && clock == old(clock) && st.received == old(st.received)
        invariant dirty == (old(dirty) || Revived(events))
        invariant Lost in events ==> !conn && st.pending == map[] && (Revived(events) || reconnectAt.Some?)
        invariant forall k :: 0 <= k < |acc| ==> Traced(st, acc[k]) || (!conn && st.pending == map[])
        invariant forall k :: |old(st.replies)| <= k < |st.replies| ==>
                    FailureReply(st.received, st.replies[k]) || ResponseReply(st, st.replies[k], events)
      {
        ghost var was := st;
        assert TagRight(st, acc[i]) by { ValidLedger(); TracedIsRight(st, acc[i]); }
        ApplyEvent(acc[i]);
        EventExplained(was, st, acc[i], events);
      }
    }

    lemma ValidLedger()
      requires Valid()
      ensures Ledger(st)
    {
    }

    /** The first half: every event of the batch in turn. */
    method ReadEvents(events: seq<QuicEvent>) returns (acc: seq<Tagged>)
      requires Valid() && (conn || events == [])
      modifies this
      ensures Valid() && Grows() && clock == old(clock) && st.received == old(st.received)
      ensures dirty == (old(dirty) || Revived(events))
      ensures Lost in events ==> !conn && st.pending == map[] && (Revived(events) || reconnectAt.Some?)
      ensures OnlyFailures(st.received, old(st.replies), st.replies)
      ensures forall k :: 0 <= k < |acc| ==>
                (Traced(st, acc[k]) || (!conn && st.pending == map[])) && Stream(acc[k].event) in events
    {
      hide Ledger, FailureTo, Valid, Revived;
      acc := [];
      RevivedNone(events);
      for i := 0 to |events|
        invariant Valid() && Grows() && clock == old(clock) && st.received == old(st.received)
        invariant dirty == (old(dirty) || Revived(events[..i]))
        invariant if Lost in events[..i] then !conn && st.pending == map[]
                  && (Revived(events[..i]) || reconnectAt.Some?)
                  else conn || events == []
        invariant OnlyFailures(st.received, old(st.replies), st.replies)
        invariant forall k :: 0 <= k < |acc| ==>
                    (Traced(st, acc[k]) || (!conn && st.pending == map[])) && Stream(acc[k].event) in events
      {
        RevivedStep(events, i);
        match events[i]
        case Connected(ios) =>
          OnConnected(ios);
        case Lost =>
          OnLost();
        case Stream(ev) =>
          if ev.Goaway? {
            acc := acc + [Tagged(ev, 0)];
          } else if ev.stream in st.wire {
            acc := acc + [Tagged(ev, st.wire[ev.stream])];
          }
      }
      assert events[..|events|] == events;
    }

    /** Expire every pending request that is due, in any order. */
    method ExpirePending()
      requires Core() && st.hand.None?
      modifies this`st, this`moves
      ensures Core() && Grows() && st.hand.None?
      ensures st.queue == old(st.queue) && st.received == old(st.received)
      ensures forall s :: s in st.pending <==> s in old(st.pending) && old(st.pending)[s].deadline > clock
      ensures forall s :: s in st.pending ==> st.pending[s] == old(st.pending)[s]
      ensures forall s :: s in old(st.pending) && s !in st.pending ==> FailureTo(old(st.pending[s].q)) in st.replies
      ensures st.used == old(st.used) && st.wire == old(st.wire)
    {
      hide Ledger, CleanRenewals, Run, AllValidated, Timely, Prompt, FailureTo;
      var due: set<nat> := set s: nat | s in st.pending && st.pending[s].deadline <= clock;
      while due != {}
        invariant st.used == old(st.used) && st.wire == old(st.wire)
        invariant Core() && Grows() && st.hand.None?
        invariant st.queue == old(st.queue) && st.received == old(st.received)
        invariant forall s :: s in due ==>
                  s in st.pending && s in old(st.pending) && old(st.pending)[s].deadline <= clock
        invariant forall s :: s in st.pending <==>
                  s in old(st.pending) && (old(st.pending)[s].deadline > clock || s in due)
        invariant forall s :: s in st.pending ==> st.pending[s] == old(st.pending)[s]
        invariant forall s :: s in old(st.pending) && s !in st.pending ==> FailureTo(old(st.pending[s].q)) in st.replies
        decreases |due|
      {
        var s :| s in due;
        FailPending(s);
        due := due - {s};
      }
    }

    /** Expire from the front of the queue only; the order makes that enough. */
    method ExpireQueue()
      requires Core() && st.hand.None?
      modifies this`st, this`moves
      ensures Core() && Grows() && st.hand.None?
      ensures st.pending == old(st.pending) && st.received == old(st.received)
      ensures |st.queue| <= |old(st.queue)| && st.queue == old(st.queue)[|old(st.queue)| - |st.queue|..]
      ensures forall i :: 0 <= i < |st.queue| ==> st.queue[i].deadline > clock
      ensures forall i :: 0 <= i < |old(st.queue)| - |st.queue| ==>
                old(st.queue)[i].deadline <= clock && FailureTo(old(st.queue)[i].q) in st.replies
      ensures st.used == old(st.used) && st.wire == old(st.wire)
    {
      hide Ledger, CleanRenewals, Run, AllValidated, Timely, Prompt, OnlyFailures;
      ghost var k := 0;
      while st.queue != [] && st.queue[0].deadline <= clock
        invariant st.used == old(st.used) && st.wire == old(st.wire)
        invariant Core() && Grows() && st.hand.None?
        invariant st.pending == old(st.pending) && st.received == old(st.received)
        invariant 0 <= k <= |old(st.queue)| && st.queue == old(st.queue)[k..]
        invariant forall i :: 0 <= i < k ==>
                  old(st.queue)[i].deadline <= clock && FailureTo(old(st.queue)[i].q) in st.replies
        decreases |st.queue|
      {
        Do(PopFront);
        SendServfail();
        assert st.queue == old(st.queue)[k + 1..];
        k := k + 1;
      }
      FrontIsEarliest(st, clock + timeout);
    }

    /** Both kinds of tracked query. */
    method Expire()
      requires Core() && st.hand.None?
      modifies this`st, this`moves
      ensures Core() && Grows() && st.hand.None? && st.received == old(st.received)
      ensures st.used == old(st.used) && st.wire == old(st.wire)
      ensures forall s :: s in st.pending <==> s in old(st.pending) && old(st.pending)[s].deadline > clock
      ensures forall s :: s in st.pending ==> st.pending[s] == old(st.pending)[s]
      ensures forall s :: s in old(st.pending) && s !in st.pending ==> FailureTo(old(st.pending[s].q)) in st.replies
      ensures |st.queue| <= |old(st.queue)| && st.queue == old(st.queue)[|old(st.queue)| - |st.queue|..]
      ensures forall i :: 0 <= i < |st.queue| ==> st.queue[i].deadline > clock
      ensures forall i :: 0 <= i < |old(st.queue)| - |st.queue| ==>
                old(st.queue)[i].deadline <= clock && FailureTo(old(st.queue)[i].q) in st.replies
      ensures old(st.pending) == map[] ==> st.pending == map[]
    {
      hide Ledger, CleanRenewals, Run, AllValidated, Timely, Prompt, FailureTo;
      ExpirePending();
      ExpireQueue();
    }

    /** The reconnect step. Closing a live connection forgets its streams; requests still pending
        are left behind, which only a migration does. */
    method Reconnect(connect: Connect)
      requires Core() && st.hand.None?
      modifies this
      ensures Core() && st.hand.None? && Grows() && clock == old(clock)
      ensures st.queue == old(st.queue) && st.pending == old(st.pending) && st.received == old(st.received)
      ensures reconnectAt == if connect.Up? then None else Some(clock + RETRY)
      ensures dirty == (old(dirty) || (old(conn) && st.pending != map[]))
      ensures conn && reconnectAt.Some? ==> !ready || dirty
      ensures conn == !connect.Refused? && st.used == {} && st.wire == map[]
      ensures connect.Up? ==> ready == connect.ready
      ensures old(conn) ==> !goaway && (!connect.Up? ==> !ready)
    {
      hide Ledger, CleanRenewals, Run, AllValidated, Timely, Prompt;
      if conn {
        if st.pending != map[] {
          dirty := true;
        }
        DropConn();
      }
      match connect {
        case Up(r) => conn, ready, reconnectAt := true, r, None;
        case Refused => reconnectAt := Some(clock + RETRY);
        case Stuck => conn, reconnectAt := true, Some(clock + RETRY);
      }
    }

    /** `housekeeping`. `migrate` is the migration policy's verdict. Afterwards nothing tracked is
        past its deadline, and only a migration can have left requests behind. */
    method Housekeeping(migrate: bool, connect: Connect)
      requires Valid()
      modifies this
      ensures Valid() && Grows() && clock == old(clock) && st.received == old(st.received)
      ensures forall s :: s in st.pending <==> s in old(st.pending) && old(st.pending)[s].deadline > clock
      ensures forall s :: s in st.pending ==> st.pending[s] == old(st.pending)[s]
      ensures forall s :: s in old(st.pending) && s !in st.pending ==> FailureTo(old(st.pending[s].q)) in st.replies
      ensures |st.queue| <= |old(st.queue)| && st.queue == old(st.queue)[|old(st.queue)| - |st.queue|..]
      ensures forall i :: 0 <= i < |st.queue| ==> st.queue[i].deadline > clock
      ensures forall i :: 0 <= i < |old(st.queue)| - |st.queue| ==>
                old(st.queue)[i].deadline <= clock && FailureTo(old(st.queue)[i].q) in st.replies
      ensures Settled(st, clock, timeout)
      ensures if ReconnectDue(old(reconnectAt), old(goaway), st.pending == map[], migrate, clock) then
                && reconnectAt == (if connect.Up? then None else Some(clock + 1000))
                && conn == !connect.Refused? && (connect.Up? ==> ready == connect.ready)
                && (old(conn) ==> !goaway && (!connect.Up? ==> !ready)) && st.used == {} && st.wire == map[]
              else
                && conn == old(conn) && ready == old(ready) && goaway == old(goaway)
                && reconnectAt == old(reconnectAt) && st.used == old(st.used) && st.wire == old(st.wire)
      ensures old(dirty) ==> dirty
      ensures dirty ==> old(dirty) || (migrate && old(conn) && old(reconnectAt).None? && st.pending != map[])
      ensures migrate && old(conn) && old(reconnectAt).None? && connect.Up? ==>
                && conn && !goaway && ready == connect.ready && reconnectAt == None && st.used == {}
                && (st.pending != map[] ==> dirty)
    {
      hide Ledger, CleanRenewals, Run, AllValidated, Timely, Prompt, FailureTo;
      Expire();
      if goaway && st.pending == map[] {
        reconnectAt := Some(clock);
      }
      if reconnectAt.None? && migrate {
        reconnectAt := Some(clock);
      }
      if reconnectAt.Some? && reconnectAt.value <= clock {
        Reconnect(connect);
      }
      hide Settled;
      OldAreSettled(st, clock, timeout);
    }

    /** The connection is fully drained. */
    method Drained()
      requires Valid()
      modifies this
      ensures Valid() && Grows() && clock == old(clock) && dirty == old(dirty) && st.received == old(st.received)
      ensures old(conn) ==> !conn && st.pending == map[]
      ensures reconnectAt == if old(conn) && old(reconnectAt).None? then Some(clock + backoff) else old(reconnectAt)
      ensures !old(conn) ==> st == old(st) && !conn
      ensures backoff == old(backoff)
      ensures old(conn) ==> forall s :: s in old(st.pending) ==> FailureTo(old(st.pending[s].q)) in st.replies
    {
      hide Ledger, CleanRenewals, Run, AllValidated, Timely, Prompt, FailureTo;
      if conn {
        FailAllPending();
        DropConn();
        if reconnectAt.None? {
          reconnectAt := Some(clock + backoff);
        }
      }
    }

    /** Shutdown answers everything pending. The handshake queue is not answered, so every query ever
        received has its answer if and only if that queue was empty and nothing had been dropped. */
    method Shutdown()
      requires Valid()
      modifies this`st, this`moves
      ensures Core() && Grows() && st.pending == map[] && st.queue == old(st.queue) && st.received == old(st.received)
      ensures forall s :: s in old(st.pending) ==> FailureTo(old(st.pending[s].q)) in st.replies
      ensures (forall t: nat :: t < |st.received| ==> Answered(st, t)) <==> old(st.queue) == [] && old(st.dropped) == {}
    {
      hide Ledger, CleanRenewals, Run, AllValidated, Timely, Prompt, FailureTo;
      FailAllPending();
      AllAnsweredIff(st);
    }

    /** The event loop over any inputs. After every one of them the ledger holds, so each accepted query is
        in exactly one place and answered at most once, to its own peer with its own ID; and after a timer
        pass every query two timeouts old has its answer. */
    method Iterate(inputs: seq<Input>)
      requires Valid()
      modifies this
      ensures Valid() && Grows()
      ensures (forall k :: 0 <= k < |inputs| ==> Calm(inputs[k])) ==> dirty == old(dirty)
      ensures CleanRenewals(moves) ==> forall t: nat :: t < |st.received| ==> InOnePlace(st, t)
      ensures inputs != [] && inputs[|inputs| - 1].Timer? ==> Settled(st, clock, timeout)
    {
      hide Ledger, CleanRenewals, Run, AllValidated, Prompt, InOnePlace, Settled;
      for k := 0 to |inputs|
        invariant Valid() && Grows()
        invariant (forall i :: 0 <= i < k ==> Calm(inputs[i])) ==> dirty == old(dirty)
        invariant k > 0 && inputs[k - 1].Timer? ==> Settled(st, clock, timeout)
      {
        Advance(clock + inputs[k].elapsed);
        match inputs[k]
        case DnsReady(_, datagrams) => ghost var trail := DrainDns(datagrams);
        case Quic(_, events) => ProcessQuicEvents(if conn then events else []);
        case Timer(_, migrate, connect) => Housekeeping(migrate, connect);
        case ConnDrained(_) => Drained();
      }
      if CleanRenewals(moves) {
        forall t: nat | t < |st.received| ensures InOnePlace(st, t) {
          OnePlace(moves, t);
        }
      }
    }
  }

  /** The two calls by which the worker itself drops a request: a migration closes the connection while
      the request is pending, and the next query gets the same stream id on the new connection. */
  method MigrationDropsRequest(w: Loop, d: Datagram)
    requires w.Valid() && w.conn && w.reconnectAt == None
    requires Dns.ValidateQuery(d.bytes).Ok? && d.io.Sent? && d.io.stream in w.st.pending
    requires w.st.pending[d.io.stream].deadline > w.clock
    modifies w
    ensures w.Valid() && w.dirty && old(w.st.received) <= w.st.received
    ensures var t := old(w.st.pending[d.io.stream].q.ticket);
            t in w.st.dropped && !Answered(w.st, t) && !InPending(w.st, t) && !InQueue(w.st, t)
  {
    hide Ledger, CleanRenewals, Run, AllValidated, Timely, Prompt, FailureTo, Answered, InPending, InQueue, Accepted,
        AcceptedInto;
    w.Housekeeping(true, Up(true));
    ghost var mid := w.st;
    ghost var trail := w.DrainDns([d]);
    assert Handles(trail[0], trail[1], [d][0], false, true, w.clock, w.timeout);
    DroppedIsGone(w.st, mid.pending[d.io.stream].q.ticket);
  }

  /** The same from a new worker: its first query is dropped. */
  method FirstRequestDropped(timeout: nat, now: nat) returns (w: Loop)
    requires timeout > 0
    ensures fresh(w) && w.Valid() && |w.st.received| >= 1 && 0 in w.st.dropped && !Answered(w.st, 0)
  {
    hide Ledger, CleanRenewals, Run, AllValidated, Timely, Prompt, FailureTo, Answered, InPending, InQueue;
    hide Accepted, AcceptedInto;
    w := new Loop(timeout, now, true);
    var first := Datagram(BARE_QUERY, 0, Sent(0));
    ghost var trail := w.DrainDns([first]);
    assert Handles(trail[0], trail[1], [first][0], false, true, w.clock, w.timeout);
    MigrationDropsRequest(w, Datagram(BARE_QUERY, 1, Sent(0)));
  }

  /** A query that arrives during the handshake is left unanswered by a shutdown. */
  method ShutdownLeavesQuery(timeout: nat, now: nat) returns (w: Loop)
    ensures fresh(w) && |w.st.received| == 1 && InQueue(w.st, 0) && !Answered(w.st, 0)
  {
    hide Ledger, CleanRenewals, Run, AllValidated, Timely, Prompt, FailureTo, Accepted, AcceptedInto, Answered;
    w := new Loop(timeout, now, false);
    var first := Datagram(BARE_QUERY, 0, NoStream);
    ghost var trail := w.DrainDns([first]);
    assert Handles(trail[0], trail[1], [first][0], false, false, w.clock, w.timeout);
    w.Shutdown();
    assert w.st.queue[0].q.ticket == 0;
    QueuedUnanswered(w.st, 0);
  }

  lemma QueuedUnanswered(st: State, t: nat)
    requires Ledger(st) && InQueue(st, t)
    ensures !Answered(st, t)
  {
    var i :| 0 <= i < |st.queue| && st.queue[i].q.ticket == t;
    assert Genuine(st, st.queue[i].q) && Placed(st, t);
  }

  /** A reconnect is made in this pass: it was scheduled and is due, a GOAWAY has drained, or the policy
      migrates while none is scheduled. */
  predicate ReconnectDue(reconnectAt: Option<nat>, goaway: bool, idle: bool, migrate: bool, clock: nat) {
    || (goaway && idle)
    || (reconnectAt.Some? && reconnectAt.value <= clock)
    || (reconnectAt.None? && migrate)
  }

  /** An input that cannot leave requests behind on a replaced connection. */
  predicate Calm(input: Input) { (input.Timer? ==> !input.migrate) && (input.Quic? ==> !Revived(input.events)) }

  /** A batch reports the handshake done after reporting the connection lost. */
  predicate Revived(events: seq<QuicEvent>) {
    exists i, j :: 0 <= i < j < |events| && events[i].Lost? && events[j].Connected?
  }

  lemma RevivedNone(events: seq<QuicEvent>)
    ensures !Revived(events[..0])
  {
  }

  lemma RevivedStep(events: seq<QuicEvent>, i: nat)
    requires i < |events|
    ensures Revived(events[..i + 1]) <==> Revived(events[..i]) || (events[i].Connected? && Lost in events[..i])
    ensures Lost in events[..i + 1] <==> Lost in events[..i] || events[i] == Lost
    ensures events[i] in events
  {
    var a, b := events[..i], events[..i + 1];
    assert b == a + [events[i]];
    if Revived(a) {
      var x, y :| 0 <= x < y < |a| && a[x].Lost? && a[y].Connected?;
      assert b[x].Lost? && b[y].Connected?;
    }
    if events[i].Connected? && Lost in a {
      var x :| 0 <= x < |a| && a[x] == Lost;
      assert b[x].Lost? && b[i].Connected?;
    }
    if Revived(b) {
      var x, y :| 0 <= x < y < |b| && b[x].Lost? && b[y].Connected?;
      assert a[x] == b[x] && a[x] == Lost;
      if y < i { assert a[y] == b[y]; }
    }
  }

  lemma AllAnsweredIff(st: State)
    requires Ledger(st) && st.hand.None? && st.pending == map[]
    ensures (forall t: nat :: t < |st.received| ==> Answered(st, t)) <==> st.queue == [] && st.dropped == {}
  {
    if st.queue != [] {
      var t := st.queue[0].q.ticket;
      assert InQueue(st, t) && Genuine(st, st.queue[0].q) && Placed(st, t);
    } else if st.dropped != {} {
      var t :| t in st.dropped;
      assert Placed(st, t);
    } else {
      forall t: nat | t < |st.received| ensures Answered(st, t) {
        assert Placed(st, t);
      }
    }
  }

  // ----- replies -----

  predicate FailureReply(received: seq<Query>, r: Reply) {
    r.ticket < |received| && r == FailureTo(received[r.ticket])
  }

  /** Everything sent since is a SERVFAIL to the query it answers. */
  ghost predicate OnlyFailures(received: seq<Query>, before: seq<Reply>, after: seq<Reply>) {
    before <= after && forall i :: |before| <= i < |after| ==> FailureReply(received, after[i])
  }

  lemma NoFailures(received: seq<Query>, replies: seq<Reply>)
    ensures OnlyFailures(received, replies, replies)
  {
  }

  /** The reply is the body of a response in the batch, with the ID of the query that went out on
      that response's stream of this connection. */
  ghost predicate ResponseReply(st: State, r: Reply, events: seq<QuicEvent>) {
    exists s, body :: s in st.wire && st.wire[s] == r.ticket && Stream(Response(s, body)) in events
        && r.ticket < |st.received| && Answers(r, st.received[r.ticket], body)
  }

  /** What one HTTP/3 event adds is explained by the batch it came in. */
  lemma EventExplained(a: State, b: State, tg: Tagged, events: seq<QuicEvent>)
    requires Stream(tg.event) in events && b.received == a.received && b.wire == a.wire
    requires Traced(a, tg) || a.pending == map[]
    requires tg.event.Goaway? || tg.event.stream !in a.pending ==> b == a
    requires !tg.event.Goaway? && tg.event.stream in a.pending ==>
      && tg.ticket < |b.received| && b.received[tg.ticket].ticket == tg.ticket
      && var q := b.received[tg.ticket];
      && if tg.event.Response? then Delivered(a.replies, b.replies, q, tg.event.body)
         else b.replies == a.replies + [FailureTo(q)]
    ensures forall i :: |a.replies| <= i < |b.replies| ==>
              FailureReply(b.received, b.replies[i]) || ResponseReply(b, b.replies[i], events)
    ensures forall r :: ResponseReply(a, r, events) <==> ResponseReply(b, r, events)
    ensures a.replies <= b.replies
  {
    if !tg.event.Goaway? && tg.event.stream in a.pending && tg.event.Response? {
      assert ResponseReply(b, b.replies[|a.replies|], events) by {
        assert Stream(Response(tg.event.stream, tg.event.body)) in events;
      }
    }
  }

  /** What one datagram does. */
  predicate Handles(a: State, b: State, d: Datagram, failing: bool, ready: bool, clock: nat, timeout: nat) {
    if Dns.ValidateQuery(d.bytes).Err? then b == a
    else
      var q := Query(|a.received|, d.bytes, d.peer, clock);
      && b.received == a.received + [q]
      && if failing || (if ready then !d.io.Sent? || d.io.stream in a.used else |a.queue| >= 64) then
           && b.replies == a.replies + [FailureTo(q)]
           && b.queue == a.queue && b.pending == a.pending && b.dropped == a.dropped
         else if !ready then
           && b.queue == a.queue + [Queued(q, clock + timeout)]
           && b.replies == a.replies && b.pending == a.pending && b.dropped == a.dropped
         else
           && b.pending == a.pending[d.io.stream := Pending(q, clock + timeout, clock)]
           && b.replies == a.replies && b.queue == a.queue
           && b.dropped == a.dropped + if d.io.stream in a.pending then {a.pending[d.io.stream].q.ticket} else {}
  }

  lemma HandlesAccepts(a: State, b: State, d: Datagram, failing: bool, ready: bool, clock: nat, timeout: nat)
    requires Handles(a, b, d, failing, ready, clock, timeout) && Dns.ValidateQuery(d.bytes).Ok?
    ensures AcceptedInto(a, b, [Query(|a.received|, d.bytes, d.peer, clock)], failing, ready)
  {
    FailuresOne(Query(|a.received|, d.bytes, d.peer, clock));
    hide Failures, FailureTo, Dns.ValidateQuery;
  }

  lemma HandlesNothing(a: State, d: Datagram, failing: bool, ready: bool, clock: nat, timeout: nat)
    requires Dns.ValidateQuery(d.bytes).Err?
    ensures Handles(a, a, d, failing, ready, clock, timeout)
  {
  }

  datatype Input =
    | DnsReady(elapsed: nat, datagrams: seq<Datagram>)
    | Quic(elapsed: nat, events: seq<QuicEvent>)
    | Timer(elapsed: nat, migrate: bool, connect: Connect)
    | ConnDrained(elapsed: nat)

  lemma FrontIsEarliest(st: State, limit: nat)
    requires Timely(st, limit)
    ensures forall i :: 0 <= i < |st.queue| ==> st.queue[0].deadline <= st.queue[i].deadline
  {
    assert forall i :: 0 < i < |st.queue| ==> st.queue[0].deadline <= st.queue[i].deadline;
  }

  function IoAt(ios: seq<Io>, i: nat): Io { if i < |ios| then ios[i] else NoStream }

  /** The connection hands out stream ids it has not used yet. */
  ghost predicate FreshStreams(ios: seq<Io>, used: set<nat>) {
    && Unopened(ios, 0, used)
    && forall i, j :: 0 <= i < j < |ios| && !ios[i].NoStream? && !ios[j].NoStream? ==> ios[i].stream != ios[j].stream
  }

  ghost predicate Unopened(ios: seq<Io>, k: nat, used: set<nat>) {
    forall i :: k <= i < |ios| && !ios[i].NoStream? ==> ios[i].stream !in used
  }

  /** What flushing makes of one queued query. */
  ghost predicate Flushed(st: State, item: Queued, io: Io, conn: bool, clock: nat, timeout: nat) {
    if item.deadline > clock && conn && io.Sent?
    then io.stream in st.wire && io.stream in st.pending
        && st.pending[io.stream] == Pending(item.q, clock + timeout, clock)
    else FailureTo(item.q) in st.replies
  }

  /** The SERVFAIL a query gets. */
  function FailureTo(q: Query): Reply {
    Reply(q.ticket, q.peer, if |q.bytes| >= Dns.HEADER then Dns.Servfail(q.bytes) else [])
  }

  function Failures(qs: seq<Query>): seq<Reply> {
    if qs == [] then [] else Failures(qs[..|qs| - 1]) + [FailureTo(qs[|qs| - 1])]
  }

  lemma FailuresOne(q: Query)
    ensures Failures([q]) == [FailureTo(q)]
  {
    assert [q][..0] == [];
  }

  lemma FailuresLast(qs: seq<Query>, q: Query)
    ensures Failures(qs + [q]) == Failures(qs) + [FailureTo(q)]
  {
    assert (qs + [q])[..|qs|] == qs;
  }

  /** Received queries among the datagrams, numbered from `n`. */
  function Accepted(ds: seq<Datagram>, n: nat, at: nat): seq<Query> {
    if ds == [] then []
    else
      var init, d := Accepted(ds[..|ds| - 1], n, at), ds[|ds| - 1];
      if Dns.ValidateQuery(d.bytes).Ok? then init + [Query(n + |init|, d.bytes, d.peer, at)] else init
  }

  /** Going from `a` to `b` accepts exactly `qs`; while failing, each gets a SERVFAIL at once and
      nothing is tracked; otherwise they wait in the queue before the handshake and never after. */
  predicate AcceptedInto(a: State, b: State, qs: seq<Query>, failing: bool, ready: bool) {
    && b.received == a.received + qs
    && (failing ==> b.queue == a.queue && b.pending == a.pending && b.replies == a.replies + Failures(qs))
    && (!ready ==> b.pending == a.pending)
    && (ready ==> b.queue == a.queue)
  }

  lemma AcceptedAgain(a: State, b: State, c: State, qs: seq<Query>, q: Query, failing: bool, ready: bool)
    requires AcceptedInto(a, b, qs, failing, ready) && AcceptedInto(b, c, [q], failing, ready)
    ensures AcceptedInto(a, c, qs + [q], failing, ready)
    ensures b.received == a.received + qs
  {
    FailuresOne(q);
    FailuresLast(qs, q);
    hide Failures, FailureTo;
    assert c.received == a.received + (qs + [q]);
    assert failing ==> c.replies == a.replies + (Failures(qs) + [FailureTo(q)]);
  }

  lemma AcceptedNothing(a: State, ds: seq<Datagram>, failing: bool, ready: bool, at: nat)
    ensures AcceptedInto(a, a, [], failing, ready) && Accepted(ds[..0], |a.received|, at) == []
  {
  }

  lemma AcceptedStep(ds: seq<Datagram>, k: nat, n: nat, at: nat)
    requires k < |ds|
    ensures var sofar := Accepted(ds[..k], n, at);
            Accepted(ds[..k + 1], n, at)
            == if Dns.ValidateQuery(ds[k].bytes).Ok? then sofar + [Query(n + |sofar|, ds[k].bytes, ds[k].peer, at)]
                else sofar
  {
    assert ds[..k + 1][..k] == ds[..k];
  }

  /** The event's stream carries the tagged ticket on the current connection. */
  predicate Traced(st: State, tg: Tagged) {
    tg.event.Goaway? || (tg.event.stream in st.wire && st.wire[tg.event.stream] == tg.ticket)
  }

  /** If the event finds a pending entry, it is the tagged query's. */
  predicate TagRight(st: State, tg: Tagged) {
    !tg.event.Goaway? && tg.event.stream in st.pending ==> st.pending[tg.event.stream].q.ticket == tg.ticket
  }

  lemma TracedIsRight(st: State, tg: Tagged)
    requires Ledger(st) && (Traced(st, tg) || st.pending == map[])
    ensures TagRight(st, tg)
  {
  }

  lemma TakenIs(st: State, tg: Tagged)
    requires Ledger(st) && AllValidated(st) && TagRight(st, tg) && !tg.event.Goaway? && tg.event.stream in st.pending
    ensures tg.ticket < |st.received| && st.pending[tg.event.stream].q == st.received[tg.ticket]
    ensures st.received[tg.ticket].ticket == tg.ticket && |st.received[tg.ticket].bytes| >= Dns.HEADER
  {
  }

  lemma WireInUse(st: State)
    requires Ledger(st)
    ensures forall s :: s in st.wire ==> s in st.used
  {
  }

  lemma ExtendRun(moves: seq<Move>, m: Move)
    requires Possible(Run(moves), m)
    ensures Run(moves + [m]) == Made(Run(moves), m)
    ensures CleanRenewals(moves) && (m == Renew ==> Run(moves).pending == map[]) ==> CleanRenewals(moves + [m])
  {
    assert (moves + [m])[..|moves|] == moves;
  }
}
