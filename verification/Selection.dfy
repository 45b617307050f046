/** From the supervisor's publications through the shared page to a worker's migrations: the three
    components joined (pkgs/microdoh3/src/main.rs, shared.rs and worker.rs). */
module Selection {
  import opened Upstream
  import Publish
  import ResolvePage
  import Migration

  /** The call of `publish` that announces a publication. */
  function RequestOf(pub: Publish.Publication, expires: nat): ResolvePage.Request {
    var u := pub.upstream;
    ResolvePage.Request(u.addrs, u.weights, u.workers, u.published, expires)
  }

  /** The publishes begun in a run, in order; the writer begins one only when the last is done. */
  ghost function Begun(readers: set<nat>, actions: seq<ResolvePage.Action>): seq<ResolvePage.Request> {
    if actions == [] then []
    else
      var init, a := actions[..|actions| - 1], actions[|actions| - 1];
      Begun(readers, init) + if a.Begin? && ResolvePage.Run(readers, init).writer.Quiet? then [a.request] else []
  }

  /** The supervisor publishes its history in order. */
  ghost predicate Follows(begun: seq<ResolvePage.Request>, history: seq<Publish.Publication>) {
    |begun| <= |history| && forall i :: 0 <= i < |begun| ==> begun[i] == RequestOf(history[i], begun[i].expires)
  }

  /** Commits are the begun publishes, in order. */
  ghost predicate Accounted(m: ResolvePage.Machine, begun: seq<ResolvePage.Request>) {
    && |begun| == |m.committed| + (if m.writer.Busy? then 1 else 0)
    && (m.writer.Busy? ==> m.writer.request == begun[|m.committed|])
    && forall i :: 0 <= i < |m.committed| ==> m.committed[i] == ResolvePage.Announced(begun[i], i + 1)
  }

  lemma {:induction false} CommitsAreBegun(readers: set<nat>, actions: seq<ResolvePage.Action>)
    ensures Accounted(ResolvePage.Run(readers, actions), Begun(readers, actions))
  {
    hide ResolvePage.Act, ResolvePage.Ready, ResolvePage.Inv, Accounted;
    if actions == [] {
      NoneBegun(readers);
    } else {
      var init, a := actions[..|actions| - 1], actions[|actions| - 1];
      CommitsAreBegun(readers, init);
      ResolvePage.RunKeeps(readers, init);
      ActAccounts(ResolvePage.Run(readers, init), Begun(readers, init), a);
    }
  }

  lemma NoneBegun(readers: set<nat>)
    ensures Accounted(ResolvePage.Start(readers), [])
  {
  }

  lemma ActAccounts(m: ResolvePage.Machine, begun: seq<ResolvePage.Request>, a: ResolvePage.Action)
    requires ResolvePage.Ready(m) && Accounted(m, begun)
    ensures Accounted(ResolvePage.Act(m, a), begun + if a.Begin? && m.writer.Quiet? then [a.request] else [])
  {
    hide ResolvePage.Load, ResolvePage.Program, ResolvePage.Put, ResolvePage.Announced;
    assert begun + [] == begun;
  }

  lemma SoundShape(pub: Publish.Publication, workers: nat)
    requires Publish.Sound(pub, workers)
    ensures 1 <= |pub.upstream.addrs| <= MAX_ADDRS && Migration.Positive(pub.upstream)
  {
    var ws, p :| Publish.Listing(pub.candidates, pub.upstream, ws, p);
  }

  lemma AnnouncesItself(pub: Publish.Publication, expires: nat)
    requires |pub.upstream.addrs| <= MAX_ADDRS && Migration.Positive(pub.upstream)
    ensures ResolvePage.Announced(RequestOf(pub, expires), pub.upstream.revision) == pub.upstream
  {
    var u, r := pub.upstream, RequestOf(pub, expires);
    assert u.addrs[..|u.addrs|] == u.addrs;
    assert ResolvePage.Announced(r, u.revision).weights == u.weights;
  }

  /** Over all refresh and scoring rounds and every interleaving of stores and loads: what a worker
      reads is exactly the supervisor's publication of that revision, so it is nonempty and all its
      weights are positive. */
  lemma ReadsArePublications(resolved: seq<IpAddr>, rounds: seq<Publish.Round>, preferV4: bool, workers: nat, now: nat,
                             readers: set<nat>, actions: seq<ResolvePage.Action>, i: nat)
    requires resolved != []
    requires var b := Publish.Play(Publish.FirstBoard(resolved, preferV4, workers, now), rounds, preferV4, workers);
             Follows(Begun(readers, actions), b.history)
    requires i < |ResolvePage.Run(readers, actions).log|
    ensures var b := Publish.Play(Publish.FirstBoard(resolved, preferV4, workers, now), rounds, preferV4, workers);
            var got := ResolvePage.Run(readers, actions).log[i].got;
            && 1 <= got.revision <= |b.history| && got == b.history[got.revision - 1].upstream
            && Publish.Sound(b.history[got.revision - 1], workers)
            && got.addrs != [] && Migration.Positive(got)
  {
    hide Publish.Play, Publish.FirstBoard, ResolvePage.Run, Begun, ResolvePage.Announced, Publish.Sound;
    hide ResolvePage.WriterOk, ResolvePage.ReaderOk, ResolvePage.Shaped;
    var b := Publish.Play(Publish.FirstBoard(resolved, preferV4, workers, now), rounds, preferV4, workers);
    var m := ResolvePage.Run(readers, actions);
    Publish.EveryPublicationSound(resolved, rounds, preferV4, workers, now);
    ResolvePage.RunKeeps(readers, actions);
    CommitsAreBegun(readers, actions);
    var got, begun := m.log[i].got, Begun(readers, actions);
    var k := got.revision - 1;
    assert got == m.committed[k] == ResolvePage.Announced(begun[k], k + 1);
    SoundShape(b.history[k], workers);
    AnnouncesItself(b.history[k], begun[k].expires);
  }

  /** So a worker that keeps a set it has read never returns to an address, whatever its failures. */
  lemma WorkerNeverPingPongs(resolved: seq<IpAddr>, rounds: seq<Publish.Round>, preferV4: bool, workers: nat, now: nat,
                             readers: set<nat>, actions: seq<ResolvePage.Action>, i: nat,
                             h: Migration.History, events: seq<Migration.Event>)
    requires resolved != []
    requires var b := Publish.Play(Publish.FirstBoard(resolved, preferV4, workers, now), rounds, preferV4, workers);
             Follows(Begun(readers, actions), b.history)
    requires i < |ResolvePage.Run(readers, actions).log|
    requires h.rt.upstream == ResolvePage.Run(readers, actions).log[i].got
    requires h.log == [] && Migration.NoAdoption(events)
    ensures var log := Migration.Play(h, events).log;
            && (forall i :: 0 <= i < |log| ==> log[i].to != h.rt.remote)
            && (forall i, j :: 0 <= i < j < |log| ==> log[i].to != log[j].to)
            && |log| <= |h.rt.upstream.addrs| <= MAX_ADDRS
  {
    hide Publish.Play, Publish.FirstBoard, ResolvePage.Run, Begun, Migration.Play, Follows;
    ReadsArePublications(resolved, rounds, preferV4, workers, now, readers, actions, i);
    Migration.NoPingPong(h, events);
    var b := Publish.Play(Publish.FirstBoard(resolved, preferV4, workers, now), rounds, preferV4, workers);
    SoundShape(b.history[h.rt.upstream.revision - 1], workers);
  }
}
