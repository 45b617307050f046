/** The resolve page (pkgs/microdoh3/src/shared.rs): one writer publishing field by field, any
    number of readers copying field by field, every interleaving of single loads and stores.
    Memory is sequentially consistent and the sequence counter unbounded. */
module ResolvePage {
  import opened Bytes
  import opened Upstream

  datatype Page = Page(
    seqno: nat, count: nat, revision: nat, workers: nat, published: nat, expires: nat,
    addrs: seq<RawAddr>, weights: seq<nat>)

  /** A freshly mapped page: all zero. */
  function Blank(): Page {
    Page(0, 0, 0, 0, 0, 0, seq(MAX_ADDRS, i => ZERO_ADDR), seq(MAX_ADDRS, i => 0))
  }

  datatype Request = Request(addrs: seq<IpAddr>, weights: seq<nat>, workers: nat, now: nat, expires: nat)

  // ----- the writer's stores -----

  datatype Store =
    | SetCount(n: nat)
    | BumpRevision
    | SetWorkers(n: nat)
    | SetAddr(i: nat, raw: RawAddr)
    | SetWeight(i: nat, n: nat)
    | SetPublished(n: nat)
    | SetExpires(n: nat)

  function Put(p: Page, st: Store): Page {
    match st
    case SetCount(n) => p.(count := n)
    case BumpRevision => p.(revision := p.revision + 1)
    case SetWorkers(n) => p.(workers := n)
    case SetAddr(i, raw) => if i < |p.addrs| then p.(addrs := p.addrs[i := raw]) else p
    case SetWeight(i, n) => if i < |p.weights| then p.(weights := p.weights[i := n]) else p
    case SetPublished(n) => p.(published := n)
    case SetExpires(n) => p.(expires := n)
  }

  function PutAll(p: Page, sts: seq<Store>): Page {
    if sts == [] then p else Put(PutAll(p, sts[..|sts| - 1]), sts[|sts| - 1])
  }

  function Kept(r: Request): (n: nat)
    ensures n <= MAX_ADDRS && n <= |r.addrs|
  {
    if |r.addrs| < MAX_ADDRS then |r.addrs| else MAX_ADDRS
  }

  function WeightFor(r: Request, i: nat): nat { if i < |r.weights| then r.weights[i] else 1 }

  function EntryStores(r: Request, k: nat): seq<Store>
    requires k <= |r.addrs|
  {
    if k == 0 then []
    else EntryStores(r, k - 1) + [SetAddr(k - 1, FromIp(r.addrs[k - 1])), SetWeight(k - 1, WeightFor(r, k - 1))]
  }

  function ClearStores(lo: nat, hi: nat): seq<Store>
    requires lo <= hi
    decreases hi
  {
    if lo == hi then [] else ClearStores(lo, hi - 1) + [SetWeight(hi - 1, 0)]
  }

  /** Everything `publish` stores between its two sequence updates, in order. */
  function Program(r: Request): seq<Store> {
    [SetCount(Kept(r)), BumpRevision, SetWorkers(r.workers)]
    + EntryStores(r, Kept(r)) + ClearStores(Kept(r), MAX_ADDRS)
    + [SetPublished(r.now), SetExpires(r.expires)]
  }

  predicate Shaped(p: Page) {
    |p.addrs| == MAX_ADDRS && |p.weights| == MAX_ADDRS && p.count <= MAX_ADDRS
  }

  /** What a reader makes of a quiet page. */
  function View(p: Page): UpstreamSet
    requires Shaped(p)
  {
    UpstreamSet(
      seq(p.count, i requires 0 <= i < p.count => ToIp(p.addrs[i])),
      p.weights[..p.count], p.revision, p.workers, p.published)
  }

  /** The set a publish is meant to announce. */
  function Announced(r: Request, revision: nat): UpstreamSet {
    UpstreamSet(r.addrs[..Kept(r)], seq(Kept(r), i requires 0 <= i => WeightFor(r, i)), revision, r.workers, r.now)
  }

  lemma {:induction false} PutAppend(p: Page, a: seq<Store>, b: seq<Store>)
    ensures PutAll(p, a + b) == PutAll(PutAll(p, a), b)
  {
    hide Put;
    if b == [] {
      assert a + b == a;
    } else {
      PutAppend(p, a, b[..|b| - 1]);
      assert (a + b)[..|a + b| - 1] == a + b[..|b| - 1];
    }
  }

  lemma PutTwo(p: Page, a: Store, b: Store)
    ensures PutAll(p, [a, b]) == Put(Put(p, a), b)
  {
    hide Put;
    assert [a, b][..1] == [a] && [a][..0] == [];
    assert PutAll(p, [a]) == Put(PutAll(p, []), a);
  }

  lemma {:induction false} EntriesStored(p: Page, r: Request, k: nat)
    requires Shaped(p) && k <= Kept(r)
    ensures var q := PutAll(p, EntryStores(r, k));
            && q == p.(addrs := q.addrs, weights := q.weights) && Shaped(q)
            && forall i :: 0 <= i < k ==> q.addrs[i] == FromIp(r.addrs[i]) && q.weights[i] == WeightFor(r, i)
  {
    hide Put, PutAll;
    if k == 0 {
      PutNone(p);
    } else {
      EntriesStored(p, r, k - 1);
      var a, b := SetAddr(k - 1, FromIp(r.addrs[k - 1])), SetWeight(k - 1, WeightFor(r, k - 1));
      var q := PutAll(p, EntryStores(r, k - 1));
      PutAppend(p, EntryStores(r, k - 1), [a, b]);
      PutTwo(q, a, b);
      StoresHit(q, a, b, k - 1);
    }
  }

  lemma {:induction false} ClearsStored(p: Page, lo: nat, hi: nat)
    requires Shaped(p) && lo <= hi <= MAX_ADDRS
    ensures var q := PutAll(p, ClearStores(lo, hi));
            && q == p.(weights := q.weights) && Shaped(q)
            && (forall i :: 0 <= i < lo ==> q.weights[i] == p.weights[i])
            && forall i :: lo <= i < hi ==> q.weights[i] == 0
    decreases hi
  {
    if lo < hi {
      ClearsStored(p, lo, hi - 1);
      assert ClearStores(lo, hi)[..|ClearStores(lo, hi)| - 1] == ClearStores(lo, hi - 1);
    }
  }

  lemma ProgramFields(p: Page, r: Request)
    requires Shaped(p)
    ensures var q, n := PutAll(p, Program(r)), Kept(r);
            && Shaped(q) && q.seqno == p.seqno && q.count == n && q.revision == p.revision + 1
            && q.workers == r.workers && q.published == r.now && q.expires == r.expires
            && (forall i :: 0 <= i < n ==> q.addrs[i] == FromIp(r.addrs[i]) && q.weights[i] == WeightFor(r, i))
            && forall i :: n <= i < MAX_ADDRS ==> q.weights[i] == 0
  {
    hide EntryStores, ClearStores, Put;
    var n := Kept(r);
    var head, entries, clears := [SetCount(n), BumpRevision, SetWorkers(r.workers)], EntryStores(r, n),
        ClearStores(n, MAX_ADDRS);
    var last := [SetPublished(r.now), SetExpires(r.expires)];
    var p1 := p.(count := n, revision := p.revision + 1, workers := r.workers);
    HeadStored(p, n, r.workers);
    PutAppend(p, head, entries);
    PutAppend(p, head + entries, clears);
    PutAppend(p, head + entries + clears, last);
    hide PutAll;
    EntriesStored(p1, r, n);
    var p2 := PutAll(p1, entries);
    ClearsStored(p2, n, MAX_ADDRS);
    var p3 := PutAll(p2, clears);
    PutTwo(p3, SetPublished(r.now), SetExpires(r.expires));
    StoreTimes(p3, r.now, r.expires);
  }

  /** A complete publish turns any page into the announced set, whatever was there before. */
  lemma ProgramAnnounces(p: Page, r: Request)
    requires Shaped(p)
    ensures var q := PutAll(p, Program(r));
            Shaped(q) && q.seqno == p.seqno && q.revision == p.revision + 1
            && View(q) == Announced(r, q.revision) && q.expires == r.expires
  {
    hide PutAll, Program;
    ProgramFields(p, r);
    var q := PutAll(p, Program(r));
    forall i | 0 <= i < Kept(r) ensures ToIp(q.addrs[i]) == r.addrs[i] && q.weights[i] == WeightFor(r, i) {
      AddrRoundTrip(r.addrs[i]);
    }
    assert View(q).addrs == Announced(r, q.revision).addrs;
    assert View(q).weights == Announced(r, q.revision).weights;
  }

  lemma HeadStored(p: Page, n: nat, w: nat)
    ensures PutAll(p, [SetCount(n), BumpRevision, SetWorkers(w)])
              == p.(count := n, revision := p.revision + 1, workers := w)
  {
    var a := [SetCount(n), BumpRevision, SetWorkers(w)];
    assert a[..2] == [SetCount(n), BumpRevision];
    PutTwo(p, SetCount(n), BumpRevision);
  }

  // ----- the calls, when nobody interferes -----

  class ResolveWriter {
    var page: Page

    constructor ()
      ensures page == Blank()
    {
      page := Blank();
    }

    method Publish(r: Request)
      requires Shaped(page)
      modifies this
      ensures Shaped(page)
      ensures page == PutAll(old(page), Program(r)).(seqno := old(page.seqno) + 2)
    {
      hide Put, PutAll, EntryStores, ClearStores;
      var seqno := page.seqno;
      page := page.(seqno := seqno + 1);
      ghost var first := page;
      var n := if |r.addrs| < MAX_ADDRS then |r.addrs| else MAX_ADDRS;
      page := page.(count := n);
      page := page.(revision := page.revision + 1);
      page := page.(workers := r.workers);
      HeadStored(first, n, r.workers);
      StoreEntries(r, n);
      ClearWeights(n);
      StoreTimes(page, r.now, r.expires);
      PutTwo(page, SetPublished(r.now), SetExpires(r.expires));
      page := page.(published := r.now);
      page := page.(expires := r.expires);
      ghost var head := [SetCount(n), BumpRevision, SetWorkers(r.workers)];
      PutAppend(first, head, EntryStores(r, n));
      PutAppend(first, head + EntryStores(r, n), ClearStores(n, MAX_ADDRS));
      PutAppend(first, head + EntryStores(r, n)
          + ClearStores(n, MAX_ADDRS), [SetPublished(r.now), SetExpires(r.expires)]);
      SeqnoIndependent(old(page), seqno + 1, Program(r));
      page := page.(seqno := seqno + 2);
    }

    method StoreEntries(r: Request, n: nat)
      requires Shaped(page) && n <= Kept(r)
      modifies this
      ensures Shaped(page) && page == PutAll(old(page), EntryStores(r, n))
    {
      hide Put, PutAll;
      assert PutAll(page, []) == page by { PutNone(page); }
      for i := 0 to n
        invariant Shaped(page) && page == PutAll(old(page), EntryStores(r, i))
      {
        ghost var a, b := SetAddr(i, FromIp(r.addrs[i])), SetWeight(i, WeightFor(r, i));
        PutAppend(old(page), EntryStores(r, i), [a, b]);
        PutTwo(page, a, b);
        StoresHit(page, a, b, i);
        page := page.(addrs := page.addrs[i := FromIp(r.addrs[i])]);
        page := page.(weights := page.weights[i := if i < |r.weights| then r.weights[i] else 1]);
      }
    }

    method ClearWeights(n: nat)
      requires Shaped(page) && n <= MAX_ADDRS
      modifies this
      ensures Shaped(page) && page == PutAll(old(page), ClearStores(n, MAX_ADDRS))
    {
      hide Put, PutAll;
      assert PutAll(page, []) == page by { PutNone(page); }
      for i := n to MAX_ADDRS
        invariant Shaped(page) && page == PutAll(old(page), ClearStores(n, i))
      {
        PutLast(old(page), ClearStores(n, i), SetWeight(i, 0));
        StoreWeight(page, i, 0);
        page := page.(weights := page.weights[i := 0]);
      }
    }
  }

  lemma PutNone(p: Page)
    ensures PutAll(p, []) == p
  {
  }

  lemma StoresHit(p: Page, a: Store, b: Store, i: nat)
    requires Shaped(p) && i < MAX_ADDRS && a.SetAddr? && a.i == i && b.SetWeight? && b.i == i
    ensures Put(Put(p, a), b) == p.(addrs := p.addrs[i := a.raw], weights := p.weights[i := b.n])
  {
  }

  lemma StoreWeight(p: Page, i: nat, n: nat)
    requires Shaped(p) && i < MAX_ADDRS
    ensures Put(p, SetWeight(i, n)) == p.(weights := p.weights[i := n])
  {
  }

  lemma StoreTimes(p: Page, t: nat, e: nat)
    ensures Put(Put(p, SetPublished(t)), SetExpires(e)) == p.(published := t, expires := e)
  {
  }

  lemma PutLast(p: Page, sts: seq<Store>, st: Store)
    ensures PutAll(p, sts + [st]) == Put(PutAll(p, sts), st)
  {
    hide Put;
    assert (sts + [st])[..|sts|] == sts;
  }

  lemma {:induction false} SeqnoIndependent(p: Page, n: nat, sts: seq<Store>)
    ensures PutAll(p.(seqno := n), sts) == PutAll(p, sts).(seqno := n)
  {
    if sts != [] {
      SeqnoIndependent(p, n, sts[..|sts| - 1]);
    }
  }

  // ----- readers, one load at a time -----

  datatype Pc =
    | Idle
    | AtCount(first: nat)
    | AtAddr(first: nat, count: nat, addrs: seq<IpAddr>, weights: seq<nat>)
    | AtWeight(first: nat, count: nat, addrs: seq<IpAddr>, weights: seq<nat>)
    | AtRevision(first: nat, addrs: seq<IpAddr>, weights: seq<nat>)
    | AtWorkers(first: nat, addrs: seq<IpAddr>, weights: seq<nat>, revision: nat)
    | AtPublished(first: nat, addrs: seq<IpAddr>, weights: seq<nat>, revision: nat, workers: nat)
    | AtSecond(first: nat, got: UpstreamSet)

  datatype Reader = Reader(lastSeq: nat, pc: Pc)

  datatype Taken = Taken(reader: Reader, result: Option<UpstreamSet>)

  function NextEntry(first: nat, count: nat, addrs: seq<IpAddr>, weights: seq<nat>): Pc {
    if |addrs| < count then AtAddr(first, count, addrs, weights) else AtRevision(first, addrs, weights)
  }

  /** One load of `read_if_changed`. */
  function Load(p: Page, rd: Reader): Taken
    requires Shaped(p)
  {
    match rd.pc
    case Idle =>
      if p.seqno == rd.lastSeq || p.seqno % 2 == 1 then Taken(rd, None)
      else Taken(rd.(pc := AtCount(p.seqno)), None)
    case AtCount(f) =>
      Taken(rd.(pc := NextEntry(f, if p.count < MAX_ADDRS then p.count else MAX_ADDRS, [], [])), None)
    case AtAddr(f, n, addrs, ws) =>
      if |addrs| < MAX_ADDRS then Taken(rd.(pc := AtWeight(f, n, addrs + [ToIp(p.addrs[|addrs|])], ws)), None)
      else Taken(rd, None)
    case AtWeight(f, n, addrs, ws) =>
      if |ws| < MAX_ADDRS then Taken(rd.(pc := NextEntry(f, n, addrs, ws + [p.weights[|ws|]])), None)
      else Taken(rd, None)
    case AtRevision(f, addrs, ws) => Taken(rd.(pc := AtWorkers(f, addrs, ws, p.revision)), None)
    case AtWorkers(f, addrs, ws, rev) => Taken(rd.(pc := AtPublished(f, addrs, ws, rev, p.workers)), None)
    case AtPublished(f, addrs, ws, rev, w) =>
      Taken(rd.(pc := AtSecond(f, UpstreamSet(addrs, ws, rev, w, p.published))), None)
    case AtSecond(f, got) =>
      if p.seqno == f then Taken(Reader(f, Idle), Some(got)) else Taken(rd.(pc := Idle), None)
  }

  /** `read_if_changed` on a page nobody is writing. */
  class ResolveReader {
    var lastSeq: nat

    constructor ()
      ensures lastSeq == 0
    {
      lastSeq := 0;
    }

    method ReadIfChanged(p: Page) returns (r: Option<UpstreamSet>)
      requires Shaped(p)
      modifies this
      ensures if p.seqno == old(lastSeq) || p.seqno % 2 == 1 then r == None && lastSeq == old(lastSeq)
              else r == Some(View(p)) && lastSeq == p.seqno
    {
      var first := p.seqno;
      if first == lastSeq || first % 2 == 1 {
        return None;
      }
      var count := if p.count < MAX_ADDRS then p.count else MAX_ADDRS;
      var addrs, weights := [], [];
      for i := 0 to count
        invariant |addrs| == i && weights == p.weights[..i]
        invariant forall k :: 0 <= k < i ==> addrs[k] == ToIp(p.addrs[k])
      {
        addrs := addrs + [ToIp(p.addrs[i])];
        weights := weights + [p.weights[i]];
      }
      lastSeq := first;
      r := Some(UpstreamSet(addrs, weights, p.revision, p.workers, p.published));
      assert addrs == View(p).addrs;
    }
  }

  // ----- the machine -----

  datatype Writer = Quiet | Busy(base: Page, request: Request, done: nat)

  datatype Observation = Observation(reader: nat, got: UpstreamSet)

  datatype Machine = Machine(
    page: Page, writer: Writer, readers: map<nat, Reader>,
    committed: seq<UpstreamSet>, log: seq<Observation>)

  datatype Action = Begin(request: Request) | StoreNext | Commit | Read(reader: nat)

  predicate Ready(m: Machine) {
    && Shaped(m.page)
    && (m.writer.Busy? ==> m.writer.done <= |Program(m.writer.request)|)
  }

  /** Any action in any state; one that is not possible leaves the state alone. */
  function Act(m: Machine, a: Action): Machine
    requires Ready(m)
  {
    match a
    case Begin(r) =>
      if m.writer.Busy? then m
      else
        var base := m.page.(seqno := m.page.seqno + 1);
        m.(page := base, writer := Busy(base, r, 0))
    case StoreNext =>
      if m.writer.Quiet? || m.writer.done == |Program(m.writer.request)| then m
      else
        m.(page := Put(m.page, Program(m.writer.request)[m.writer.done]),
            writer := m.writer.(done := m.writer.done + 1))
    case Commit =>
      if m.writer.Quiet? || m.writer.done < |Program(m.writer.request)| then m
      else
        m.(page := m.page.(seqno := m.page.seqno + 1), writer := Quiet,
           committed := m.committed + [Announced(m.writer.request, |m.committed| + 1)])
    case Read(r) =>
      if r !in m.readers then m
      else
        var t := Load(m.page, m.readers[r]);
        m.(readers := m.readers[r := t.reader],
           log := if t.result.Some? then m.log + [Observation(r, t.result.value)] else m.log)
  }

  function Start(readers: set<nat>): Machine {
    Machine(Blank(), Quiet, map r | r in readers :: Reader(0, Idle), [], [])
  }

  // ----- invariants -----

  ghost predicate Copied(p: Page, addrs: seq<IpAddr>, weights: seq<nat>)
    requires Shaped(p)
  {
    && |addrs| <= p.count && |weights| <= p.count
    && (forall i :: 0 <= i < |addrs| ==> addrs[i] == ToIp(p.addrs[i]))
    && forall i :: 0 <= i < |weights| ==> weights[i] == p.weights[i]
  }

  /** What a reader has copied so far agrees with the page. */
  ghost predicate Agrees(p: Page, pc: Pc)
    requires Shaped(p)
  {
    match pc
    case Idle => true
    case AtCount(_) => true
    case AtAddr(_, n, addrs, ws) => n == p.count && |addrs| == |ws| < n && Copied(p, addrs, ws)
    case AtWeight(_, n, addrs, ws) => n == p.count && |addrs| == |ws| + 1 && Copied(p, addrs, ws)
    case AtRevision(_, addrs, ws) => |addrs| == |ws| == p.count && Copied(p, addrs, ws)
    case AtWorkers(_, addrs, ws, rev) => |addrs| == |ws| == p.count && Copied(p, addrs, ws) && rev == p.revision
    case AtPublished(_, addrs, ws, rev, w) =>
      |addrs| == |ws| == p.count && Copied(p, addrs, ws) && rev == p.revision && w == p.workers
    case AtSecond(_, got) => got == View(p)
  }

  /** A reader in progress started at an even number it has not returned yet; unless a publish
      has begun since, its copy agrees with the page. */
  ghost predicate ReaderOk(p: Page, rd: Reader)
    requires Shaped(p)
  {
    && rd.lastSeq <= p.seqno
    && rd.lastSeq % 2 == 0
    && (!rd.pc.Idle? ==>
          && rd.pc.first % 2 == 0 && rd.lastSeq < rd.pc.first <= p.seqno
          && (rd.pc.first == p.seqno ==> Agrees(p, rd.pc)))
  }

  ghost predicate WriterOk(m: Machine)
    requires Shaped(m.page)
  {
    var c := |m.committed|;
    match m.writer
    case Quiet =>
      m.page.seqno == 2 * c && m.page.revision == c && (c > 0 ==> View(m.page) == m.committed[c - 1])
    case Busy(base, r, done) =>
      && done <= |Program(r)| && Shaped(base)
      && base.seqno == m.page.seqno == 2 * c + 1 && base.revision == c
      && m.page == PutAll(base, Program(r)[..done])
  }

  ghost predicate LogOk(m: Machine) {
    && (forall i :: 0 <= i < |m.committed| ==> m.committed[i].revision == i + 1)
    && (forall i :: 0 <= i < |m.log| ==>
          && var o := m.log[i];
          && 1 <= o.got.revision <= |m.committed| && o.got == m.committed[o.got.revision - 1]
          && o.reader in m.readers && 2 * o.got.revision <= m.readers[o.reader].lastSeq)
    && forall i, j :: 0 <= i < j < |m.log| && m.log[i].reader == m.log[j].reader ==>
          m.log[i].got.revision < m.log[j].got.revision
  }

  ghost predicate Inv(m: Machine) {
    && Shaped(m.page)
    && WriterOk(m)
    && (forall r :: r in m.readers ==> ReaderOk(m.page, m.readers[r]))
    && LogOk(m)
  }

  lemma {:induction false} SafePrefix(p: Page, r: Request, k: nat)
    requires Shaped(p) && k <= |Program(r)|
    ensures var q := PutAll(p, Program(r)[..k]); Shaped(q) && q.seqno == p.seqno
  {
    hide Program;
    if k > 0 {
      SafePrefix(p, r, k - 1);
      assert Program(r)[..k][..k - 1] == Program(r)[..k - 1];
      CountsSmall(r, k - 1);
    }
  }

  lemma {:induction false} EntriesNotCount(r: Request, k: nat)
    requires k <= |r.addrs|
    ensures forall i :: 0 <= i < |EntryStores(r, k)| ==> !EntryStores(r, k)[i].SetCount?
  {
    if k > 0 {
      EntriesNotCount(r, k - 1);
    }
  }

  lemma {:induction false} ClearsNotCount(lo: nat, hi: nat)
    requires lo <= hi
    ensures forall i :: 0 <= i < |ClearStores(lo, hi)| ==> !ClearStores(lo, hi)[i].SetCount?
    decreases hi
  {
    if lo < hi {
      ClearsNotCount(lo, hi - 1);
    }
  }

  lemma CountsSmall(r: Request, i: nat)
    requires i < |Program(r)|
    ensures Program(r)[i].SetCount? ==> Program(r)[i].n <= MAX_ADDRS
  {
    hide EntryStores, ClearStores;
    EntriesNotCount(r, Kept(r));
    ClearsNotCount(Kept(r), MAX_ADDRS);
  }

  lemma BeginKeeps(m: Machine, r: Request)
    requires Inv(m)
    ensures Inv(Act(m, Begin(r)))
  {
    hide Program, Agrees;
    if m.writer.Quiet? {
      PutNone(Act(m, Begin(r)).page);
    }
  }

  lemma StoreKeeps(m: Machine)
    requires Inv(m)
    ensures Inv(Act(m, StoreNext))
  {
    hide Program, Agrees;
    if m.writer.Busy? && m.writer.done < |Program(m.writer.request)| {
      var prog, k := Program(m.writer.request), m.writer.done;
      PutLast(m.writer.base, prog[..k], prog[k]);
      assert prog[..k] + [prog[k]] == prog[..k + 1];
      SafePrefix(m.writer.base, m.writer.request, k + 1);
    }
  }

  lemma CommitKeeps(m: Machine)
    requires Inv(m)
    ensures Inv(Act(m, Commit))
  {
    hide Program, Agrees, PutAll;
    if m.writer.Busy? && m.writer.done == |Program(m.writer.request)| {
      var r := m.writer.request;
      assert Program(r)[..m.writer.done] == Program(r);
      ProgramAnnounces(m.writer.base, r);
      var m' := Act(m, Commit);
      assert View(m'.page) == View(m.page);
    }
  }

  /** Each load keeps a copy that agrees with a stable page in agreement. */
  lemma LoadKeeps(p: Page, rd: Reader)
    requires Shaped(p) && ReaderOk(p, rd)
    ensures ReaderOk(p, Load(p, rd).reader)
    ensures var t := Load(p, rd);
            t.result.Some? ==>
              && t.result.value == View(p) && p.seqno % 2 == 0
              && rd.lastSeq < p.seqno && t.reader.lastSeq == p.seqno
    ensures Load(p, rd).result.None? ==> Load(p, rd).reader.lastSeq == rd.lastSeq
  {
    if rd.pc.AtPublished? && rd.pc.first == p.seqno {
      assert rd.pc.addrs == View(p).addrs;
      assert rd.pc.weights == View(p).weights;
    }
  }

  lemma ReadKeeps(m: Machine, r: nat)
    requires Inv(m)
    ensures Inv(Act(m, Read(r)))
  {
    hide Program, Agrees, Load, PutAll;
    if r in m.readers {
      LoadKeeps(m.page, m.readers[r]);
      var t, m' := Load(m.page, m.readers[r]), Act(m, Read(r));
      if t.result.Some? {
        assert m.writer.Quiet?;
        var n := |m.log|;
        assert m'.log[n] == Observation(r, t.result.value);
        forall i | 0 <= i < n && m'.log[i].reader == r ensures m'.log[i].got.revision < m'.log[n].got.revision {
          assert m'.log[i] == m.log[i];
        }
      }
      assert WriterOk(m');
    }
  }

  lemma ActKeeps(m: Machine, a: Action)
    requires Inv(m)
    ensures Inv(Act(m, a))
  {
    hide Act, Inv;
    assert Ready(m) by { InvReady(m); }
    match a
    case Begin(r) => BeginKeeps(m, r);
    case StoreNext => StoreKeeps(m);
    case Commit => CommitKeeps(m);
    case Read(r) => ReadKeeps(m, r);
  }

  lemma InvReady(m: Machine)
    requires Inv(m)
    ensures Ready(m)
  {
  }

  /** Any number of single stores and loads in any order, from a blank page. */
  ghost function Run(readers: set<nat>, actions: seq<Action>): Machine {
    if actions == [] then Start(readers)
    else
      var m := Run(readers, actions[..|actions| - 1]);
      if Ready(m) then Act(m, actions[|actions| - 1]) else m
  }

  /** Every reachable state is in order, so the next action is always defined. */
  lemma {:induction false} RunKeeps(readers: set<nat>, actions: seq<Action>)
    ensures Inv(Run(readers, actions)) && Ready(Run(readers, actions))
  {
    hide Inv, Ready, Act;
    if actions == [] {
      StartOk(readers);
    } else {
      RunKeeps(readers, actions[..|actions| - 1]);
      ActKeeps(Run(readers, actions[..|actions| - 1]), actions[|actions| - 1]);
    }
    InvReady(Run(readers, actions));
  }

  lemma StartOk(readers: set<nat>)
    ensures Inv(Start(readers))
  {
  }

  /** No interleaving lets a reader return a mixture: every result is one committed publish, and
      a reader's successive results have strictly increasing revisions. */
  lemma NeverMixed(readers: set<nat>, actions: seq<Action>)
    ensures var m := Run(readers, actions);
            && (forall i :: 0 <= i < |m.log| ==> m.log[i].got in m.committed)
            && forall i, j :: 0 <= i < j < |m.log| && m.log[i].reader == m.log[j].reader ==>
                 m.log[i].got.revision < m.log[j].got.revision
  {
    hide Run, Inv, LogOk;
    RunKeeps(readers, actions);
    LogNeverMixed(Run(readers, actions));
  }

  lemma LogNeverMixed(m: Machine)
    requires Inv(m)
    ensures forall i :: 0 <= i < |m.log| ==> m.log[i].got in m.committed
    ensures forall i, j :: 0 <= i < j < |m.log| && m.log[i].reader == m.log[j].reader ==>
              m.log[i].got.revision < m.log[j].got.revision
  {
    hide WriterOk, ReaderOk, Shaped;
    forall i | 0 <= i < |m.log| ensures m.log[i].got in m.committed {
      assert m.log[i].got == m.committed[m.log[i].got.revision - 1];
    }
  }

  // ----- reading while the writer is quiet -----

  function ResultsOf(log: seq<Observation>, r: nat): seq<UpstreamSet> {
    if log == [] then []
    else
      ResultsOf(log[..|log| - 1], r)
      + if log[|log| - 1].reader == r then [log[|log| - 1].got] else []
  }

  function LoadsBy(actions: seq<Action>, r: nat): nat {
    if actions == [] then 0
    else LoadsBy(actions[..|actions| - 1], r) + if actions[|actions| - 1] == Read(r) then 1 else 0
  }

  predicate OnlyReads(actions: seq<Action>) {
    forall i :: 0 <= i < |actions| ==> actions[i].Read?
  }

  ghost function Continue(m: Machine, actions: seq<Action>): (m': Machine)
    requires Inv(m)
    ensures Inv(m')
  {
    if actions == [] then m
    else
      var k := Continue(m, actions[..|actions| - 1]);
      InvReady(k);
      ActKeeps(k, actions[|actions| - 1]);
      Act(k, actions[|actions| - 1])
  }

  /** Loads done so far in the current read. */
  function Stage(pc: Pc): nat {
    match pc
    case Idle => 0
    case AtCount(_) => 1
    case AtAddr(_, _, addrs, _) => 2 + 2 * |addrs|
    case AtWeight(_, _, _, ws) => 3 + 2 * |ws|
    case AtRevision(_, addrs, _) => 2 + 2 * |addrs|
    case AtWorkers(_, addrs, _, _) => 3 + 2 * |addrs|
    case AtPublished(_, addrs, _, _, _) => 4 + 2 * |addrs|
    case AtSecond(_, got) => 5 + 2 * |got.addrs|
  }

  function WholeRead(p: Page): nat { 6 + 2 * p.count }

  /** Reader `r` after `n` loads of a read begun at `m`. */
  ghost predicate Progress(m: Machine, m': Machine, r: nat, n: nat)
    requires r in m.readers && Shaped(m.page)
  {
    && m'.page == m.page && m'.writer == m.writer && m'.committed == m.committed && r in m'.readers
    && var rd, rd' := m.readers[r], m'.readers[r];
    && if rd.lastSeq == m.page.seqno then rd' == rd && ResultsOf(m'.log, r) == ResultsOf(m.log, r)
       else if n < WholeRead(m.page) then
         && rd'.lastSeq == rd.lastSeq && Stage(rd'.pc) == n
         && (n > 0 ==> rd'.pc.first == m.page.seqno)
         && ResultsOf(m'.log, r) == ResultsOf(m.log, r)
       else
         && rd' == Reader(m.page.seqno, Idle)
         && ResultsOf(m'.log, r) == ResultsOf(m.log, r) + [View(m.page)]
  }

  lemma LoadAdvances(p: Page, rd: Reader)
    requires Shaped(p) && ReaderOk(p, rd) && p.seqno % 2 == 0 && rd.lastSeq != p.seqno
    requires !rd.pc.Idle? ==> rd.pc.first == p.seqno
    requires Stage(rd.pc) < WholeRead(p)
    ensures var t := Load(p, rd);
            if Stage(rd.pc) + 1 < WholeRead(p)
            then t.result.None? && Stage(t.reader.pc) == Stage(rd.pc) + 1 && !t.reader.pc.Idle?
                && t.reader.pc.first == p.seqno
            else t == Taken(Reader(p.seqno, Idle), Some(View(p)))
    ensures Load(p, rd).result.None? ==> Load(p, rd).reader.lastSeq == rd.lastSeq
  {
    if rd.pc.AtPublished? {
      assert |View(p).addrs| == p.count;
    }
  }

  lemma ResultsAppend(log: seq<Observation>, o: Observation, r: nat)
    ensures ResultsOf(log + [o], r) == ResultsOf(log, r) + if o.reader == r then [o.got] else []
  {
    assert (log + [o])[..|log|] == log;
  }

  /** Everything one load changes. */
  lemma ReadEffects(k: Machine, other: nat, r: nat)
    requires Ready(k) && other in k.readers
    ensures var t, k' := Load(k.page, k.readers[other]), Act(k, Read(other));
            && k'.page == k.page && k'.writer == k.writer && k'.committed == k.committed
            && k'.readers == k.readers[other := t.reader]
            && ResultsOf(k'.log, r)
               == ResultsOf(k.log, r) + if t.result.Some? && other == r then [t.result.value] else []
  {
    hide Load, ResultsOf;
    var t := Load(k.page, k.readers[other]);
    if t.result.Some? {
      ResultsAppend(k.log, Observation(other, t.result.value), r);
    }
  }

  /** A reader that has the page's set stays as it is. */
  lemma LoadIdles(p: Page, rd: Reader)
    requires Shaped(p) && rd.pc.Idle? && rd.lastSeq == p.seqno
    ensures Load(p, rd) == Taken(rd, None)
  {
  }

  lemma QuietIsEven(m: Machine, r: nat)
    requires Inv(m) && m.writer.Quiet? && r in m.readers
    ensures Shaped(m.page) && m.page.seqno % 2 == 0 && ReaderOk(m.page, m.readers[r])
  {
    hide View, LogOk, ReaderOk;
  }

  /** The load is the reader's own and it is not done yet. */
  lemma ProgressReading(m: Machine, k: Machine, r: nat, n: nat)
    requires Inv(m) && m.writer.Quiet? && r in m.readers && m.readers[r].pc.Idle?
    requires Inv(k) && Ready(k) && Progress(m, k, r, n)
    requires m.readers[r].lastSeq != m.page.seqno && n < WholeRead(m.page)
    ensures Progress(m, Act(k, Read(r)), r, n + 1)
  {
    hide Inv, ReaderOk, Load, View, Ready, ResultsOf, Act, Stage;
    ReadEffects(k, r, r);
    QuietIsEven(k, r);
    StageZero(k.readers[r].pc);
    LoadAdvances(m.page, k.readers[r]);
  }

  lemma ProgressStep(m: Machine, k: Machine, r: nat, n: nat, other: nat)
    requires Inv(m) && m.writer.Quiet? && r in m.readers && m.readers[r].pc.Idle?
    requires Inv(k) && Ready(k) && Progress(m, k, r, n)
    ensures Progress(m, Act(k, Read(other)), r, if other == r then n + 1 else n)
  {
    hide Inv, ReaderOk, Load, View, Ready, ResultsOf, Act, Stage;
    if other !in k.readers {
      NoSuchReader(k, other);
    } else if other == r && m.readers[r].lastSeq != m.page.seqno && n < WholeRead(m.page) {
      ProgressReading(m, k, r, n);
    } else {
      ReadEffects(k, other, r);
      if other == r {
        QuietIsEven(k, r);
        LoadIdles(k.page, k.readers[r]);
      }
    }
  }

  lemma NoSuchReader(k: Machine, other: nat)
    requires Ready(k) && other !in k.readers
    ensures Act(k, Read(other)) == k
  {
  }

  lemma StageZero(pc: Pc)
    ensures Stage(pc) == 0 <==> pc.Idle?
  {
  }

  /** While the writer is quiet, a reader that starts a read gets the latest publish after exactly
      2 * count + 6 loads, once, whatever other readers do; a reader that has it gets nothing. */
  lemma {:induction false} QuietRead(m: Machine, actions: seq<Action>, r: nat)
    requires Inv(m) && m.writer.Quiet? && m.committed != [] && r in m.readers && m.readers[r].pc.Idle?
    requires OnlyReads(actions)
    ensures Progress(m, Continue(m, actions), r, LoadsBy(actions, r))
    ensures View(m.page) == m.committed[|m.committed| - 1]
  {
    hide Act, LogOk, ReaderOk, Progress;
    if actions == [] {
      assert Progress(m, m, r, 0) by { NoProgress(m, r); }
    } else {
      var init, last := actions[..|actions| - 1], actions[|actions| - 1];
      QuietRead(m, init, r);
      InvReady(Continue(m, init));
      ProgressStep(m, Continue(m, init), r, LoadsBy(init, r), last.reader);
    }
  }

  lemma NoProgress(m: Machine, r: nat)
    requires Inv(m) && r in m.readers && m.readers[r].pc.Idle?
    ensures Progress(m, m, r, 0)
  {
  }
}
