/** A score slot (pkgs/microdoh3/src/shared.rs): the worker owning it writes field by field, the
    supervisor copies field by field, in every interleaving, and workers may die. */
module ScorePage {
  import opened Bytes
  import opened Upstream

  const MAX_WORKERS: nat := 32

  datatype Fields = Fields(addr: RawAddr, score: nat, ok: nat, fail: nat, flags: nat, updated: nat)

  const FIELD_COUNT: nat := 6
  const NO_FIELDS := Fields(ZERO_ADDR, 0, 0, 0, 0, 0)

  function Encode(s: ScoreSample, now: nat): Fields {
    Fields(match s.addr case None => ZERO_ADDR case Some(ip) => FromIp(ip), s.score, s.ok, s.fail, s.flags, now)
  }

  predicate AllZero(raw: RawAddr) {
    raw.isV6 == 0 && forall i :: 0 <= i < |raw.bytes| ==> raw.bytes[i] == 0
  }

  function Decode(f: Fields): ScoreSample {
    ScoreSample(if AllZero(f.addr) then None else Some(ToIp(f.addr)), f.score, f.ok, f.fail, f.flags, f.updated)
  }

  /** A sample survives its slot except that 0.0.0.0 reads back as no address. */
  lemma SampleRoundTrip(s: ScoreSample, now: nat)
    ensures Decode(Encode(s, now)) == s.(updated := now) <==> s.addr != Some(V4(0, 0, 0, 0))
  {
    match s.addr
    case None =>
    case Some(V6(_)) =>
    case Some(V4(a, b, c, d)) =>
      var raw := FromIp(V4(a, b, c, d));
      assert raw.bytes[0] == a && raw.bytes[1] == b && raw.bytes[2] == c && raw.bytes[3] == d;
  }

  /** `dst` with field `k` taken from `src`: one store, or one load. */
  function Take(dst: Fields, src: Fields, k: nat): Fields {
    match k
    case 0 => dst.(addr := src.addr)
    case 1 => dst.(score := src.score)
    case 2 => dst.(ok := src.ok)
    case 3 => dst.(fail := src.fail)
    case 4 => dst.(flags := src.flags)
    case _ => dst.(updated := src.updated)
  }

  /** The first `k` fields of `a` and `b` agree. */
  predicate AgreeOn(a: Fields, b: Fields, k: nat) {
    && (k > 0 ==> a.addr == b.addr)
    && (k > 1 ==> a.score == b.score)
    && (k > 2 ==> a.ok == b.ok)
    && (k > 3 ==> a.fail == b.fail)
    && (k > 4 ==> a.flags == b.flags)
    && (k > 5 ==> a.updated == b.updated)
  }

  /** A write under way: the sequence number it loaded, what it writes, and how many of its stores
      are done: first the odd sequence number, then the six fields. */
  datatype Pen = Pen(base: nat, goal: Fields, k: nat)

  const STORES: nat := 7

  datatype Reader = Away | Copying(first: nat, got: Fields, k: nat)

  /** One slot, the processes writing to it by process id, and the supervisor reading it. `complete`
      lists the finished writes and `log` what the reads returned. */
  datatype Slot = Slot(
    seqno: nat, fields: Fields, pens: map<nat, Pen>, reader: Reader, complete: seq<Fields>, log: seq<Fields>)

  const FRESH_SLOT := Slot(0, NO_FIELDS, map[], Away, [], [])

  datatype Action = Load(pid: nat, goal: Fields) | Store(pid: nat) | Finish(pid: nat) | Die(pid: nat) | Look

  /** One load or store. An action that is not possible leaves the slot alone. */
  function Act(s: Slot, a: Action): Slot {
    match a
    case Load(p, goal) =>
      if p in s.pens then s else s.(pens := s.pens[p := Pen(s.seqno, goal, 0)])
    case Store(p) => if p in s.pens then Stored(s, p) else s
    case Finish(p) =>
      if p !in s.pens || s.pens[p].k < STORES then s
      else s.(seqno := s.pens[p].base + 2, pens := s.pens - {p}, complete := s.complete + [s.pens[p].goal])
    case Die(p) => s.(pens := s.pens - {p})
    case Look => LookAt(s)
  }

  function Stored(s: Slot, p: nat): Slot
    requires p in s.pens
  {
    var pen := s.pens[p];
    if pen.k >= STORES then s
    else
      var t := s.(pens := s.pens[p := pen.(k := pen.k + 1)]);
      if pen.k == 0 then t.(seqno := pen.base + 1) else t.(fields := Take(s.fields, pen.goal, pen.k - 1))
  }

  /** One load of `ScoreReader::read`. */
  function LookAt(s: Slot): Slot {
    match s.reader
    case Away =>
      if s.seqno == 0 || s.seqno % 2 == 1 then s else s.(reader := Copying(s.seqno, NO_FIELDS, 0))
    case Copying(first, got, k) =>
      if k < FIELD_COUNT then s.(reader := Copying(first, Take(got, s.fields, k), k + 1))
      else if s.seqno == first then s.(reader := Away, log := s.log + [got])
      else s.(reader := Away)
  }

  function Acts(s: Slot, actions: seq<Action>): Slot
    decreases |actions|
  {
    if actions == [] then s else Acts(Act(s, actions[0]), actions[1..])
  }

  /** Process `p` is between its two sequence stores. */
  predicate MidWrite(s: Slot, p: nat) { p in s.pens && s.pens[p].k >= 1 }

  /** No process dies between its sequence stores, and none starts a write beside another. */
  predicate Orderly(s: Slot, a: Action) {
    match a
    case Die(p) => !MidWrite(s, p)
    case Load(p, _) => forall q :: q in s.pens ==> q == p
    case _ => true
  }

  predicate AllOrderly(s: Slot, actions: seq<Action>)
    decreases |actions|
  {
    actions == [] || (Orderly(s, actions[0]) && AllOrderly(Act(s, actions[0]), actions[1..]))
  }

  /** Every read returned exactly one complete write. */
  ghost predicate Genuine(s: Slot) { forall i :: 0 <= i < |s.log| ==> s.log[i] in s.complete }

  ghost predicate Untouched(s: Slot) { forall p :: p in s.pens ==> s.pens[p].k == 0 }

  ghost predicate PensOk(s: Slot) {
    && (forall p, q :: p in s.pens && q in s.pens ==> p == q)
    && (forall p :: p in s.pens ==>
          && var pen := s.pens[p];
          && pen.base == 2 * |s.complete| && pen.k <= STORES
          && (pen.k >= 1 ==> s.seqno == pen.base + 1 && AgreeOn(s.fields, pen.goal, pen.k - 1)))
    && (Untouched(s) ==>
          && s.seqno == 2 * |s.complete|
          && (s.complete != [] ==> s.fields == s.complete[|s.complete| - 1]))
  }

  ghost predicate ReaderOk(s: Slot) {
    s.reader.Copying? ==>
      && s.reader.first % 2 == 0 && 0 < s.reader.first <= s.seqno && s.reader.k <= FIELD_COUNT
      && (s.reader.first == s.seqno ==> AgreeOn(s.reader.got, s.fields, s.reader.k))
  }

  ghost predicate Inv(s: Slot) { PensOk(s) && ReaderOk(s) && Genuine(s) }

  lemma FreshOk()
    ensures Inv(FRESH_SLOT)
  {
  }

  lemma StoreKeeps(s: Slot, p: nat)
    requires Inv(s) && p in s.pens
    ensures Inv(Stored(s, p))
  {
    var t, pen := Stored(s, p), s.pens[p];
    assert t.pens[p].k >= 1;
    assert pen.k == 0 ==> Untouched(s);
  }

  lemma FinishKeeps(s: Slot, p: nat)
    requires Inv(s) && p in s.pens && s.pens[p].k == STORES
    ensures Inv(Act(s, Finish(p)))
  {
    var t := Act(s, Finish(p));
    assert t.pens == map[];
    assert s.complete <= t.complete;
    assert t.fields == s.pens[p].goal;
  }

  lemma LookKeeps(s: Slot)
    requires Inv(s)
    ensures Inv(LookAt(s))
  {
    var t := LookAt(s);
    assert t.pens == s.pens && (Untouched(t) <==> Untouched(s));
    if |t.log| > |s.log| {
      assert s.seqno % 2 == 0;
      assert Untouched(s);
      assert s.reader.got == s.fields;
    }
  }

  lemma LoadKeeps(s: Slot, p: nat, goal: Fields)
    requires Inv(s) && Orderly(s, Load(p, goal))
    ensures Inv(Act(s, Load(p, goal)))
  {
    if p !in s.pens {
      assert Untouched(s);
    }
  }

  lemma DieKeeps(s: Slot, p: nat)
    requires Inv(s) && !MidWrite(s, p)
    ensures Inv(Act(s, Die(p)))
  {
    var d := Act(s, Die(p));
    if Untouched(d) {
      forall q | q in s.pens ensures s.pens[q].k == 0 {
        if q != p { assert q in d.pens; }
      }
    }
  }

  lemma ActKeeps(s: Slot, a: Action)
    requires Inv(s) && Orderly(s, a)
    ensures Inv(Act(s, a))
  {
    hide Inv;
    match a
    case Load(p, goal) => LoadKeeps(s, p, goal);
    case Store(p) => if p in s.pens { StoreKeeps(s, p); }
    case Finish(p) => if p in s.pens && s.pens[p].k >= STORES { PenSize(s, p); FinishKeeps(s, p); }
    case Die(p) => DieKeeps(s, p);
    case Look => LookKeeps(s);
  }

  lemma PenSize(s: Slot, p: nat)
    requires Inv(s) && p in s.pens
    ensures s.pens[p].k <= STORES
  {
  }

  /** Over every orderly run every read returns exactly one complete write. */
  lemma {:induction false} ReadsAreWrites(s: Slot, actions: seq<Action>)
    requires Inv(s) && AllOrderly(s, actions)
    ensures Inv(Acts(s, actions)) && Genuine(Acts(s, actions))
    decreases |actions|
  {
    hide PensOk, ReaderOk, Genuine, Act, Orderly;
    if actions != [] {
      ActKeeps(s, actions[0]);
      ReadsAreWrites(Act(s, actions[0]), actions[1..]);
    }
  }

  // ----- a death between the sequence stores -----

  lemma {:induction false} ActsAppend(s: Slot, a: seq<Action>, b: seq<Action>)
    ensures Acts(s, a + b) == Acts(Acts(s, a), b)
    ensures AllOrderly(s, a + b) <==> AllOrderly(s, a) && AllOrderly(Acts(s, a), b)
    decreases |a|
  {
    hide Act, Orderly;
    if a == [] {
      assert a + b == b;
    } else {
      assert (a + b)[1..] == a[1..] + b;
      ActsAppend(Act(s, a[0]), a[1..], b);
    }
  }

  lemma FourActs(s: Slot, a: Action, b: Action, c: Action, d: Action)
    ensures Acts(s, [a, b, c, d]) == Act(Act(Act(Act(s, a), b), c), d)
    ensures AllOrderly(s, [a, b, c, d]) <==>
              && Orderly(s, a) && Orderly(Act(s, a), b) && Orderly(Act(Act(s, a), b), c)
              && Orderly(Act(Act(Act(s, a), b), c), d)
  {
    hide Act, Orderly;
    var s1 := Act(s, a);
    var s2 := Act(s1, b);
    var s3 := Act(s2, c);
    var s4 := Act(s3, d);
    assert [a, b, c, d][1..] == [b, c, d] && [b, c, d][1..] == [c, d] && [c, d][1..] == [d] && [d][1..] == [];
    assert Acts(s4, []) == s4 && AllOrderly(s4, []);
    assert Acts(s3, [d]) == s4 && (AllOrderly(s3, [d]) <==> Orderly(s3, d));
    assert Acts(s2, [c, d]) == s4 && (AllOrderly(s2, [c, d]) <==> Orderly(s2, c) && AllOrderly(s3, [d]));
    assert Acts(s1, [b, c, d]) == s4 && (AllOrderly(s1, [b, c, d]) <==> Orderly(s1, b) && AllOrderly(s2, [c, d]));
  }

  /** While the number is odd a read under way comes to nothing. */
  lemma {:induction false} DriveAway(s: Slot) returns (looks: seq<Action>)
    requires ReaderOk(s) && s.seqno % 2 == 1
    ensures AllOrderly(s, looks) && Acts(s, looks) == s.(reader := Away)
    decreases if s.reader.Away? then 0 else 1 + FIELD_COUNT - s.reader.k
  {
    if s.reader.Away? {
      looks := [];
    } else {
      var t := Act(s, Look);
      var rest := DriveAway(t);
      looks := [Look] + rest;
      assert looks[1..] == rest;
    }
  }

  const FOUR_LOOKS := [Look, Look, Look, Look]

  /** A whole read with nobody storing in between. */
  lemma WholeRead(s: Slot)
    requires s.reader.Away? && s.seqno > 0 && s.seqno % 2 == 0
    ensures AllOrderly(s, FOUR_LOOKS + FOUR_LOOKS)
    ensures Acts(s, FOUR_LOOKS + FOUR_LOOKS) == s.(log := s.log + [s.fields])
  {
    ActsAppend(s, FOUR_LOOKS, FOUR_LOOKS);
    FourActs(s, Look, Look, Look, Look);
    var mid := s.(reader := Copying(s.seqno,
        NO_FIELDS.(addr := s.fields.addr, score := s.fields.score, ok := s.fields.ok), 3));
    assert Acts(s, FOUR_LOOKS) == mid;
    FourActs(mid, Look, Look, Look, Look);
  }

  function AboveAll(complete: seq<Fields>): (n: nat)
    ensures forall i :: 0 <= i < |complete| ==> complete[i].score < n
  {
    if complete == [] then 0
    else
      var last := complete[|complete| - 1].score + 1;
      var rest := AboveAll(complete[..|complete| - 1]);
      assert forall i :: 0 <= i < |complete| - 1 ==> complete[i] == complete[..|complete| - 1][i];
      if last < rest then rest else last
  }

  /** A successor that starts from an odd number makes it even while it writes, and a read slips
      between its stores. */
  lemma OddStartTears(s: Slot, p: nat) returns (actions: seq<Action>)
    requires s.pens == map[] && s.reader.Away? && s.seqno % 2 == 1
    ensures AllOrderly(s, actions) && !Genuine(Acts(s, actions))
  {
    var goal := NO_FIELDS.(score := AboveAll(s.complete));
    var start := [Load(p, goal), Store(p), Store(p), Store(p)];
    FourActs(s, Load(p, goal), Store(p), Store(p), Store(p));
    var t := Acts(s, start);
    assert t.fields.score == goal.score && t.complete == s.complete && t.seqno == s.seqno + 1 && t.reader.Away?;
    WholeRead(t);
    ActsAppend(s, start, FOUR_LOOKS + FOUR_LOOKS);
    actions := start + (FOUR_LOOKS + FOUR_LOOKS);
    var u := Acts(s, actions);
    assert u.log[|t.log|] == t.fields;
  }

  /** Exactly when a death does no harm: over every orderly continuation all reads stay genuine if
      and only if the process did not die between its sequence stores. */
  lemma DeathHarmlessIff(s: Slot, p: nat)
    requires Inv(s)
    ensures (forall actions :: AllOrderly(Act(s, Die(p)), actions) ==> Genuine(Acts(Act(s, Die(p)), actions)))
            <==> !MidWrite(s, p)
  {
    var d := Act(s, Die(p));
    if MidWrite(s, p) {
      MidWriteDeath(s, p);
      var looks := DriveAway(d);
      var t := Acts(d, looks);
      var more := OddStartTears(t, p);
      ActsAppend(d, looks, more);
      assert AllOrderly(d, looks + more) && !Genuine(Acts(d, looks + more));
    } else {
      hide Inv, Act, Genuine, Acts, AllOrderly;
      ActKeeps(s, Die(p));
      forall actions | AllOrderly(d, actions) ensures Genuine(Acts(d, actions)) {
        ReadsAreWrites(d, actions);
      }
    }
  }

  lemma MidWriteDeath(s: Slot, p: nat)
    requires Inv(s) && MidWrite(s, p)
    ensures var d := Act(s, Die(p)); d.pens == map[] && d.seqno % 2 == 1 && ReaderOk(d)
  {
  }
}
