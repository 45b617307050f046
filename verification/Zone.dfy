/** What the mDNS publisher answers and how its zone follows the interface
    (pkgs/mdns-publisher/main.go). Records live in the heap, because the publisher edits copies of
    them; every operation is tied to a function of their values. */
module Zone {
  import opened Bytes
  import opened Tiebreak

  const TYPE_A: nat := 1
  const TYPE_AAAA: nat := 28
  const TYPE_NSEC: nat := 47
  const TYPE_ANY: nat := 255
  const CLASS_INET: nat := 1
  const CLASS_ANY: nat := 255
  const QU_BIT: nat := 0x8000
  const LEGACY_TTL: nat := 10
  const MDNS_PORT: nat := 5353

  datatype Question = Question(name: string, qtype: nat, qclass: nat)

  /** The zone by value: address records and the negative answer. */
  datatype State = State(records: seq<Record>, nsec: Option<Record>)

  function QClass(q: Question): nat { q.qclass % QU_BIT }

  predicate WantsUnicast(q: Question) { q.qclass / QU_BIT % 2 == 1 }

  predicate Matches(r: Record, q: Question) {
    SameName(r.name, q.name) && (q.qtype == TYPE_ANY || r.rtype == q.qtype)
  }

  predicate ClassServed(q: Question) { QClass(q) == CLASS_INET || QClass(q) == CLASS_ANY }

  function Stripped(r: Record, legacy: bool): Record { if legacy then r.(class_ := CLASS_INET) else r }

  function Capped(r: Record, legacy: bool): Record {
    if legacy && r.ttl > LEGACY_TTL then r.(ttl := LEGACY_TTL) else r
  }

  function Positive(rs: seq<Record>, q: Question, legacy: bool): seq<Record> {
    if rs == [] then []
    else
      var last := rs[|rs| - 1];
      Positive(rs[..|rs| - 1], q, legacy) + if Matches(last, q) then [Stripped(last, legacy)] else []
  }

  predicate Denies(nsec: Option<Record>, q: Question) {
    q.qtype != TYPE_ANY && nsec.Some? && SameName(nsec.value.name, q.name) && QClass(q) == CLASS_INET
  }

  /** `hostnameZone.Records`. */
  function Answers(z: State, q: Question, legacy: bool): seq<Record> {
    if !ClassServed(q) then []
    else
      var out := Positive(z.records, q, legacy);
      if out == [] && Denies(z.nsec, q) then [Stripped(z.nsec.value, legacy)] else out
  }

  // ----- known answers -----

  predicate TypesEqual(a: seq<nat>, b: seq<nat>) { |a| == |b| && forall i :: 0 <= i < |b| ==> b[i] in a }

  predicate RdataEqual(a: Data, b: Data) {
    match a
    case A(x) => b.A? && x == b.octets
    case AAAA(x) => b.AAAA? && x == b.octets
    case NSEC(next, types) => b.NSEC? && SameName(next, b.next) && TypesEqual(types, b.types)
    case OtherData => false
  }

  /** The querier lists this record with at least half its TTL left. */
  predicate Vouches(k: Record, r: Record) {
    && SameName(k.name, r.name) && k.rtype == r.rtype
    && k.class_ % FLUSH_BIT == r.class_ % FLUSH_BIT
    && RdataEqual(k.data, r.data) && k.ttl >= r.ttl / 2
  }

  predicate Known(r: Record, known: seq<Record>) { exists i :: 0 <= i < |known| && Vouches(known[i], r) }

  function Unknown(rs: seq<Record>, known: seq<Record>): seq<Record> {
    if rs == [] then []
    else Unknown(rs[..|rs| - 1], known) + if Known(rs[|rs| - 1], known) then [] else [rs[|rs| - 1]]
  }

  function CapAll(rs: seq<Record>, legacy: bool): (r: seq<Record>)
    ensures |r| == |rs|
  {
    seq(|rs|, i requires 0 <= i < |rs| => Capped(rs[i], legacy))
  }

  /** What one question adds to the response. */
  function Reply(z: State, q: Question, known: seq<Record>, legacy: bool): seq<Record> {
    CapAll(Unknown(Answers(z, q, legacy), known), legacy)
  }

  // ----- the exact content of a reply -----

  /** How a zone record leaves the host. */
  function Shown(r: Record, legacy: bool): Record {
    if legacy then r.(class_ := CLASS_INET, ttl := if r.ttl < LEGACY_TTL then r.ttl else LEGACY_TTL) else r
  }

  ghost predicate Ascending(idx: seq<nat>, n: nat) {
    && (forall i :: 0 <= i < |idx| ==> idx[i] < n)
    && forall i, j :: 0 <= i < j < |idx| ==> idx[i] < idx[j]
  }

  ghost predicate InternetClass(r: Record) { r.class_ % FLUSH_BIT == CLASS_INET }

  ghost function Sent(rs: seq<Record>, idx: seq<nat>, legacy: bool): (s: seq<Record>)
    requires Ascending(idx, |rs|)
  {
    seq(|idx|, k requires 0 <= k < |idx| => Shown(rs[idx[k]], legacy))
  }

  /** The picks of a list by a condition, in order and without omission. */
  ghost predicate Picks(rs: seq<Record>, q: Question, known: seq<Record>, idx: seq<nat>) {
    && Ascending(idx, |rs|)
    && forall i :: 0 <= i < |rs| ==> (i in idx <==> Matches(rs[i], q) && !Known(rs[i], known))
  }

  /** Suppression looks at the true TTL and ignores the flush bit, so stripping changes no verdict. */
  lemma SuppressionIsTrue(r: Record, known: seq<Record>, legacy: bool)
    requires InternetClass(r)
    ensures Known(Stripped(r, legacy), known) == Known(r, known)
    ensures Capped(Stripped(r, legacy), legacy) == Shown(r, legacy)
  {
    forall i | 0 <= i < |known| ensures Vouches(known[i], Stripped(r, legacy)) == Vouches(known[i], r) {
    }
  }

  lemma CapAppend(a: seq<Record>, r: Record, legacy: bool)
    ensures CapAll(a + [r], legacy) == CapAll(a, legacy) + [Capped(r, legacy)]
  {
  }

  ghost function Chosen(rs: seq<Record>, q: Question, known: seq<Record>): seq<nat> {
    if rs == [] then []
    else
      var n := |rs| - 1;
      Chosen(rs[..n], q, known) + if Matches(rs[n], q) && !Known(rs[n], known) then [n] else []
  }

  lemma {:induction false} ChosenPicks(rs: seq<Record>, q: Question, known: seq<Record>)
    ensures Picks(rs, q, known, Chosen(rs, q, known))
  {
    hide Matches, Known;
    if rs != [] {
      var n := |rs| - 1;
      ChosenPicks(rs[..n], q, known);
      var idx, idx' := Chosen(rs[..n], q, known), Chosen(rs, q, known);
      forall i | 0 <= i < |rs| ensures i in idx' <==> Matches(rs[i], q) && !Known(rs[i], known) {
        if i < n { assert rs[..n][i] == rs[i]; }
      }
    }
  }

  lemma SentExtends(rs: seq<Record>, n: nat, idx: seq<nat>, legacy: bool)
    requires n < |rs| && Ascending(idx, n)
    ensures Sent(rs, idx, legacy) == Sent(rs[..n], idx, legacy)
    ensures Ascending(idx + [n], |rs|) && Sent(rs, idx + [n], legacy) == Sent(rs, idx, legacy) + [Shown(rs[n], legacy)]
  {
    hide Shown;
  }

  lemma SentNothing(legacy: bool)
    ensures Ascending([], 0) && Sent([], [], legacy) == []
  {
  }

  lemma {:induction false} PositiveExact(rs: seq<Record>, q: Question, known: seq<Record>, legacy: bool)
    requires forall i :: 0 <= i < |rs| ==> InternetClass(rs[i])
    ensures Picks(rs, q, known, Chosen(rs, q, known))
    ensures CapAll(Unknown(Positive(rs, q, legacy), known), legacy) == Sent(rs, Chosen(rs, q, known), legacy)
  {
    hide Matches, Known, Capped, Stripped, Shown, CapAll, Sent, InternetClass, Ascending;
    ChosenPicks(rs, q, known);
    if rs == [] {
      assert CapAll([], legacy) == [];
      SentNothing(legacy);
    } else {
      var n := |rs| - 1;
      var init, last := rs[..n], rs[n];
      PositiveExact(init, q, known, legacy);
      SuppressionIsTrue(last, known, legacy);
      SentExtends(rs, n, Chosen(init, q, known), legacy);
      var out, s := Positive(init, q, legacy), Stripped(last, legacy);
      assert (out + [s])[..|out|] == out && out + [] == out;
      var kept := Unknown(out, known);
      assert kept + [] == kept && Chosen(init, q, known) + [] == Chosen(init, q, known);
      CapAppend(kept, s, legacy);
    }
  }

  lemma {:induction false} PositiveEmptyIff(rs: seq<Record>, q: Question, legacy: bool)
    ensures Positive(rs, q, legacy) == [] <==> forall i :: 0 <= i < |rs| ==> !Matches(rs[i], q)
  {
    hide Matches, Stripped;
    if rs != [] {
      var n := |rs| - 1;
      PositiveEmptyIff(rs[..n], q, legacy);
      assert forall i :: 0 <= i < n ==> rs[..n][i] == rs[i];
    }
  }

  ghost predicate Silent(z: State, q: Question) { forall i :: 0 <= i < |z.records| ==> !Matches(z.records[i], q) }

  /** Per question: in zone order, precisely the matching records the querier does not already hold
      with half their true TTL; failing any match, the negative record under the same condition. */
  lemma ReplyExact(z: State, q: Question, known: seq<Record>, legacy: bool) returns (idx: seq<nat>)
    requires forall i :: 0 <= i < |z.records| ==> InternetClass(z.records[i])
    requires z.nsec.Some? ==> InternetClass(z.nsec.value)
    ensures Picks(z.records, q, known, idx)
    ensures !ClassServed(q) ==> Reply(z, q, known, legacy) == []
    ensures ClassServed(q) && !(Silent(z, q) && Denies(z.nsec, q)) ==>
              Reply(z, q, known, legacy) == Sent(z.records, idx, legacy)
    ensures ClassServed(q) && Silent(z, q) && Denies(z.nsec, q) ==>
              idx == [] &&
              Reply(z, q, known, legacy) == if Known(z.nsec.value, known) then [] else [Shown(z.nsec.value, legacy)]
  {
    hide Matches, Known, Stripped, Capped, Shown, Chosen, Positive, Sent, Unknown, CapAll, ClassServed, Denies,
        InternetClass;
    idx := Chosen(z.records, q, known);
    PositiveExact(z.records, q, known, legacy);
    PositiveEmptyIff(z.records, q, legacy);
    HasMember(idx);
    NothingUnknown(known, legacy);
    if ClassServed(q) && Silent(z, q) && Denies(z.nsec, q) {
      DenialServed(z, q);
      OneUnknown(z.nsec.value, known, legacy);
    }
  }

  lemma NothingUnknown(known: seq<Record>, legacy: bool)
    ensures CapAll(Unknown([], known), legacy) == []
  {
  }

  lemma DenialServed(z: State, q: Question)
    requires Denies(z.nsec, q)
    ensures z.nsec.Some?
  {
  }

  lemma OneUnknown(r: Record, known: seq<Record>, legacy: bool)
    requires InternetClass(r)
    ensures CapAll(Unknown([Stripped(r, legacy)], known), legacy)
            == if Known(r, known) then [] else [Shown(r, legacy)]
  {
    hide Known, Stripped, Capped, Shown;
    SuppressionIsTrue(r, known, legacy);
    var s := Stripped(r, legacy);
    assert [s][..0] == [];
    assert Unknown([s], known) == if Known(r, known) then [] else [s];
  }

  // ----- the response -----

  datatype Message = Message(id: nat, questions: seq<Question>, answers: seq<Record>)

  /** A response; both kinds are authoritative query responses. */
  datatype Response = Response(id: nat, questions: seq<Question>, answers: seq<Record>)

  /** Answers for one destination: the replies of the questions that go there, in question order. */
  function Section(z: State, qs: seq<Question>, known: seq<Record>, legacy: bool, unicast: bool): seq<Record> {
    if qs == [] then []
    else
      var q := qs[|qs| - 1];
      Section(z, qs[..|qs| - 1], known, legacy, unicast)
      + if GoesTo(q, legacy, unicast) then Reply(z, q, known, legacy) else []
  }

  predicate GoesTo(q: Question, legacy: bool, unicast: bool) { (legacy || WantsUnicast(q)) == unicast }

  /** A section holds each of its questions' replies whole, right after those of the earlier questions. */
  lemma {:induction false} ReplyInSection(z: State, qs: seq<Question>, known: seq<Record>, legacy: bool,
      unicast: bool, k: nat)
    requires k < |qs| && GoesTo(qs[k], legacy, unicast)
    ensures Section(z, qs[..k], known, legacy, unicast) + Reply(z, qs[k], known, legacy)
              <= Section(z, qs, known, legacy, unicast)
  {
    hide Reply;
    var n := |qs| - 1;
    if k < n {
      ReplyInSection(z, qs[..n], known, legacy, unicast, k);
      assert qs[..n][..k] == qs[..k];
    }
  }

  /** The replies to all questions, one after the other. */
  function Replies(z: State, qs: seq<Question>, known: seq<Record>, legacy: bool): seq<Record> {
    if qs == [] then []
    else Replies(z, qs[..|qs| - 1], known, legacy) + Reply(z, qs[|qs| - 1], known, legacy)
  }

  /** Between them the two sections carry every reply once and nothing else. */
  lemma {:induction false} SectionsShareReplies(z: State, qs: seq<Question>, known: seq<Record>, legacy: bool)
    ensures multiset(Section(z, qs, known, legacy, true)) + multiset(Section(z, qs, known, legacy, false))
            == multiset(Replies(z, qs, known, legacy))
  {
    hide Reply;
    if qs != [] {
      SectionsShareReplies(z, qs[..|qs| - 1], known, legacy);
    }
  }

  function MulticastResponse(z: State, m: Message, port: nat): Option<Response> {
    var answers := Section(z, m.questions, m.answers, port != MDNS_PORT, false);
    if answers == [] then None else Some(Response(0, [], answers))
  }

  function UnicastResponse(z: State, m: Message, port: nat): Option<Response> {
    var legacy := port != MDNS_PORT;
    var answers := Section(z, m.questions, m.answers, legacy, true);
    if answers == [] then None
    else Some(if legacy then Response(m.id, m.questions, answers) else Response(0, [], answers))
  }

  /** There is a response of a kind if and only if some question of that kind has a reply. */
  lemma {:induction false} SectionEmptyIff(z: State, qs: seq<Question>, known: seq<Record>, legacy: bool, unicast: bool)
    ensures Section(z, qs, known, legacy, unicast) == [] <==>
              forall k :: 0 <= k < |qs| && GoesTo(qs[k], legacy, unicast) ==> Reply(z, qs[k], known, legacy) == []
  {
    hide Reply;
    if qs != [] {
      var n := |qs| - 1;
      SectionEmptyIff(z, qs[..n], known, legacy, unicast);
      assert forall k :: 0 <= k < n ==> qs[..n][k] == qs[k];
    }
  }

  lemma SilentUnlessAsked(z: State, m: Message, port: nat)
    ensures var legacy := port != 5353;
            && (UnicastResponse(z, m, port).None? <==>
                  forall k :: 0 <= k < |m.questions| && (legacy || WantsUnicast(m.questions[k])) ==>
                    Reply(z, m.questions[k], m.answers, legacy) == [])
            && (MulticastResponse(z, m, port).None? <==>
                  forall k :: 0 <= k < |m.questions| && !legacy && !WantsUnicast(m.questions[k]) ==>
                    Reply(z, m.questions[k], m.answers, legacy) == [])
  {
    hide Reply, Section, WantsUnicast;
    SectionEmptyIff(z, m.questions, m.answers, port != 5353, true);
    SectionEmptyIff(z, m.questions, m.answers, port != 5353, false);
  }

  /** A question's reply is in the response its bit asks for: unicast with the top bit of the class set,
      or for a querier that is not on port 5353, and multicast otherwise; after the replies to earlier
      questions that go the same way. Only a legacy response repeats ID and questions. */
  lemma ReplyIsSent(z: State, m: Message, port: nat, k: nat)
    requires k < |m.questions| && m.questions[k].qclass < 0x1_0000
    requires Reply(z, m.questions[k], m.answers, port != 5353) != []
    ensures var q, legacy := m.questions[k], port != 5353;
            var unicast := legacy || q.qclass >= 0x8000;
            var r := if unicast then UnicastResponse(z, m, port) else MulticastResponse(z, m, port);
            && r.Some?
            && r.value.id == (if legacy then m.id else 0) && r.value.questions == (if legacy then m.questions else [])
            && Section(z, m.questions[..k], m.answers, legacy, unicast) + Reply(z, q, m.answers, legacy)
               <= r.value.answers
  {
    hide Reply, Section;
    var q, legacy := m.questions[k], port != 5353;
    var unicast := legacy || q.qclass >= 0x8000;
    assert WantsUnicast(q) <==> q.qclass >= 0x8000;
    ReplyInSection(z, m.questions, m.answers, legacy, unicast, k);
  }

  ghost predicate FromZone(z: State, r: Record, legacy: bool) {
    (exists s :: s in z.records && r == Shown(s, legacy)) || (z.nsec.Some? && r == Shown(z.nsec.value, legacy))
  }

  ghost predicate WellClassed(z: State) {
    && (forall i :: 0 <= i < |z.records| ==> InternetClass(z.records[i]))
    && (z.nsec.Some? ==> InternetClass(z.nsec.value))
  }

  lemma ReplyFromZone(z: State, q: Question, known: seq<Record>, legacy: bool, r: Record)
    requires WellClassed(z) && r in Reply(z, q, known, legacy)
    ensures FromZone(z, r, legacy)
  {
    hide Matches, Known, Shown, Reply, SameName;
    var idx := ReplyExact(z, q, known, legacy);
    if !(Silent(z, q) && Denies(z.nsec, q)) {
      var k :| 0 <= k < |idx| && r == Sent(z.records, idx, legacy)[k];
      assert z.records[idx[k]] in z.records;
    }
  }

  lemma {:induction false} SectionFromZone(z: State, qs: seq<Question>, known: seq<Record>, legacy: bool,
      unicast: bool, r: Record)
    requires WellClassed(z) && r in Section(z, qs, known, legacy, unicast)
    ensures FromZone(z, r, legacy) && (legacy ==> unicast)
  {
    hide Reply, FromZone, WellClassed;
    var n := |qs| - 1;
    if r in Section(z, qs[..n], known, legacy, unicast) {
      SectionFromZone(z, qs[..n], known, legacy, unicast, r);
    } else {
      ReplyFromZone(z, qs[n], known, legacy, r);
    }
  }

  /** A querier that is not on port 5353 gets one unicast response that repeats its ID and questions,
      with no flush bit and no TTL above ten seconds, and nothing is multicast. */
  lemma LegacyResponse(z: State, m: Message, port: nat)
    requires WellClassed(z) && port != MDNS_PORT
    ensures MulticastResponse(z, m, port).None?
    ensures UnicastResponse(z, m, port).Some? ==>
              var u := UnicastResponse(z, m, port).value;
              && u.id == m.id && u.questions == m.questions
              && forall r :: r in u.answers ==> FromZone(z, r, true) && r.class_ == CLASS_INET && r.ttl <= LEGACY_TTL
  {
    hide Section, WellClassed;
    var multi := Section(z, m.questions, m.answers, true, false);
    if multi != [] {
      SectionFromZone(z, m.questions, m.answers, true, false, multi[0]);
      assert false;
    }
    forall r | r in Section(z, m.questions, m.answers, true, true)
      ensures FromZone(z, r, true) && r.class_ == CLASS_INET && r.ttl <= LEGACY_TTL
    {
      SectionFromZone(z, m.questions, m.answers, true, true, r);
    }
  }

  // ----- negative answers -----

  lemma HasMember<T>(s: seq<T>)
    ensures s != [] ==> exists x :: x in s
  {
    if s != [] { assert s[0] in s; }
  }

  function InsertType(ts: seq<nat>, t: nat): seq<nat> {
    if ts == [] || t < ts[0] then [t] + ts
    else if t == ts[0] then ts
    else [ts[0]] + InsertType(ts[1..], t)
  }

  ghost predicate Strict(ts: seq<nat>) { forall i, j :: 0 <= i < j < |ts| ==> ts[i] < ts[j] }

  lemma {:induction false} InsertTypeIs(ts: seq<nat>, t: nat)
    requires Strict(ts)
    ensures Strict(InsertType(ts, t))
    ensures forall x :: x in InsertType(ts, t) <==> x == t || x in ts
  {
    if ts != [] {
      var rest := ts[1..];
      assert ts == [ts[0]] + rest;
      if t > ts[0] {
        InsertTypeIs(rest, t);
        var r := InsertType(rest, t);
        forall i | 0 <= i < |r| ensures ts[0] < r[i] {
          assert r[i] in r;
        }
      }
    }
  }

  /** A strictly ascending list is determined by its elements. */
  lemma {:induction false} StrictUnique(a: seq<nat>, b: seq<nat>)
    requires Strict(a) && Strict(b) && forall x :: x in a <==> x in b
    ensures a == b
    decreases |a|
  {
    HasMember(b);
    if a != [] {
      assert a[0] in a && b != [];
      assert b[0] in b;
      assert a[0] == b[0];
      var a', b' := a[1..], b[1..];
      assert a == [a[0]] + a' && b == [b[0]] + b';
      assert a[0] !in a' && a[0] !in b';
      forall x ensures x in a' <==> x in b' {
        assert x in a' ==> x in a && x != a[0];
        assert x in b' ==> x in b && x != a[0];
      }
      StrictUnique(a', b');
    }
  }

  function TypesOf(rs: seq<Record>): seq<nat> {
    if rs == [] then [] else InsertType(TypesOf(rs[1..]), rs[0].rtype)
  }

  ghost predicate HasType(rs: seq<Record>, t: nat) { exists i :: 0 <= i < |rs| && rs[i].rtype == t }

  lemma {:induction false} TypesExact(rs: seq<Record>)
    ensures Strict(TypesOf(rs))
    ensures forall t :: t in TypesOf(rs) <==> HasType(rs, t)
  {
    hide InsertType;
    if rs != [] {
      TypesExact(rs[1..]);
      InsertTypeIs(TypesOf(rs[1..]), rs[0].rtype);
      forall t ensures t in TypesOf(rs) <==> HasType(rs, t) {
        if HasType(rs[1..], t) {
          var i :| 0 <= i < |rs[1..]| && rs[1..][i].rtype == t;
          assert rs[i + 1].rtype == t;
        }
        if HasType(rs, t) && rs[0].rtype != t {
          var i :| 0 <= i < |rs| && rs[i].rtype == t;
          assert rs[1..][i - 1].rtype == t;
        }
      }
    }
  }

  function BuildNsec(name: string, rs: seq<Record>, ttl: nat): Option<Record> {
    var types := TypesOf(rs);
    if types == [] then None
    else Some(Record(name, CLASS_INET + FLUSH_BIT, TYPE_NSEC, ttl, NSEC(name, types)))
  }

  /** `buildNSEC`: collect the types in a set, then sort whatever order it gives them out in. */
  method BuildNsecRecord(name: string, rs: seq<Record>, ttl: nat) returns (r: Option<Record>)
    ensures r == BuildNsec(name, rs, ttl)
  {
    hide TypesOf, InsertType;
    var kinds: set<nat> := {};
    for i := 0 to |rs|
      invariant forall t :: t in kinds <==> HasType(rs[..i], t)
    {
      kinds := kinds + {rs[i].rtype};
      forall t ensures t in kinds <==> HasType(rs[..i + 1], t) { HasTypeSnoc(rs, i, t); }
    }
    assert rs[..|rs|] == rs;
    TypesExact(rs);
    if kinds == {} {
      HasMember(TypesOf(rs));
      return None;
    }
    ghost var all := kinds;
    var types: seq<nat> := [];
    while kinds != {}
      invariant Strict(types) && forall t :: t in types || t in kinds <==> t in all
      decreases |kinds|
    {
      var t :| t in kinds;
      InsertTypeIs(types, t);
      types := InsertType(types, t);
      kinds := kinds - {t};
    }
    StrictUnique(types, TypesOf(rs));
    ghost var k :| k in all;
    assert k in types;
    return Some(Record(name, CLASS_INET + FLUSH_BIT, TYPE_NSEC, ttl, NSEC(name, types)));
  }

  lemma HasTypeSnoc(rs: seq<Record>, i: nat, t: nat)
    requires i < |rs|
    ensures HasType(rs[..i + 1], t) <==> HasType(rs[..i], t) || rs[i].rtype == t
  {
    if HasType(rs[..i], t) {
      var k :| 0 <= k < i && rs[..i][k].rtype == t;
      assert rs[..i + 1][k].rtype == t;
    }
    if rs[i].rtype == t {
      assert rs[..i + 1][i].rtype == t;
    }
    if HasType(rs[..i + 1], t) && rs[i].rtype != t {
      var k :| 0 <= k < i + 1 && rs[..i + 1][k].rtype == t;
      assert rs[..i][k].rtype == t;
    }
  }

  // ----- following the interface -----

  const V4_IN_V6: seq<u8> := [0, 0, 0, 0, 0, 0, 0, 0, 0, 0, 0xFF, 0xFF]

  /** `IP.To4`: four octets, also out of a mapped address; `[]` when there are none. */
  function To4(ip: seq<u8>): seq<u8> {
    if |ip| == 4 then ip else if |ip| == 16 && ip[..12] == V4_IN_V6 then ip[12..] else []
  }

  /** Neither missing, link-local nor loopback. */
  predicate Usable(ip: seq<u8>) {
    var v4 := To4(ip);
    if |v4| == 4 then !(v4[0] == 169 && v4[1] == 254) && v4[0] != 127
    else ip != [] && !(|ip| == 16 && ip[0] == 0xFE && ip[1] / 64 == 2) && ip != seq(15, i => 0) + [1]
  }

  function RecordFor(name: string, ip: seq<u8>, ttl: nat): Record {
    if To4(ip) != [] then Record(name, CLASS_INET + FLUSH_BIT, TYPE_A, ttl, A(To4(ip)))
    else Record(name, CLASS_INET + FLUSH_BIT, TYPE_AAAA, ttl, AAAA(ip))
  }

  /** `recordsForIPs`. */
  function RecordsFor(name: string, ips: seq<seq<u8>>, ttl: nat): seq<Record> {
    if ips == [] then []
    else
      var n := |ips| - 1;
      RecordsFor(name, ips[..n], ttl) + if Usable(ips[n]) then [RecordFor(name, ips[n], ttl)] else []
  }

  method RecordsForIps(name: string, ips: seq<seq<u8>>, ttl: nat) returns (rs: seq<Record>)
    ensures rs == RecordsFor(name, ips, ttl)
  {
    hide Usable, RecordFor;
    rs := [];
    for i := 0 to |ips|
      invariant rs == RecordsFor(name, ips[..i], ttl)
    {
      assert ips[..i + 1][..i] == ips[..i];
      if Usable(ips[i]) {
        rs := rs + [RecordFor(name, ips[i], ttl)];
      }
    }
    assert ips[..|ips|] == ips;
  }

  /** An address record as this host publishes it. */
  ghost predicate Published(r: Record, name: string, ttl: nat) {
    && r.name == name && r.ttl == ttl && r.class_ == CLASS_INET + FLUSH_BIT
    && (r.data.A? || r.data.AAAA?) && r.rtype == if r.data.A? then TYPE_A else TYPE_AAAA
  }

  ghost predicate AllPublished(rs: seq<Record>, name: string, ttl: nat) {
    forall i :: 0 <= i < |rs| ==> Published(rs[i], name, ttl)
  }

  lemma {:induction false} RecordsForPublishes(name: string, ips: seq<seq<u8>>, ttl: nat)
    ensures AllPublished(RecordsFor(name, ips, ttl), name, ttl)
  {
    hide Usable, To4;
    if ips != [] {
      RecordsForPublishes(name, ips[..|ips| - 1], ttl);
    }
  }

  predicate SameRecord(a: Record, b: Record) { a.rtype == b.rtype && RdataEqual(a.data, b.data) }

  predicate Found(r: Record, rs: seq<Record>) { exists j :: 0 <= j < |rs| && SameRecord(r, rs[j]) }

  /** `sameRecords`: equal length and every old record among the new ones. */
  predicate SameRecords(a: seq<Record>, b: seq<Record>) {
    |a| == |b| && forall i :: 0 <= i < |a| ==> Found(a[i], b)
  }

  /** `replaceRecords` fed by `buildNSEC`. */
  function Refresh(z: State, name: string, rs: seq<Record>, ttl: nat): State {
    if SameRecords(z.records, rs) then z else State(rs, BuildNsec(name, rs, ttl))
  }

  function Start(name: string, ips: seq<seq<u8>>, ttl: nat): State {
    var rs := RecordsFor(name, ips, ttl);
    State(rs, BuildNsec(name, rs, ttl))
  }

  /** The zone after a run of address changes. */
  function Watch(name: string, first: seq<seq<u8>>, changes: seq<seq<seq<u8>>>, ttl: nat): State {
    if changes == [] then Start(name, first, ttl)
    else
      var n := |changes| - 1;
      Refresh(Watch(name, first, changes[..n], ttl), name, RecordsFor(name, changes[n], ttl), ttl)
  }

  /** The negative record always speaks about the records beside it. */
  ghost predicate Consistent(z: State, name: string, ttl: nat) {
    AllPublished(z.records, name, ttl) && z.nsec == BuildNsec(name, z.records, ttl)
  }

  lemma {:induction false} WatchConsistent(name: string, first: seq<seq<u8>>, changes: seq<seq<seq<u8>>>, ttl: nat)
    ensures Consistent(Watch(name, first, changes, ttl), name, ttl)
  {
    hide BuildNsec, SameRecords, AllPublished, RecordsFor;
    if changes == [] {
      RecordsForPublishes(name, first, ttl);
    } else {
      var n := |changes| - 1;
      WatchConsistent(name, first, changes[..n], ttl);
      RecordsForPublishes(name, changes[n], ttl);
    }
  }

  lemma ConsistentWellClassed(z: State, name: string, ttl: nat)
    requires Consistent(z, name, ttl)
    ensures WellClassed(z)
  {
    hide TypesOf;
    assert (CLASS_INET + FLUSH_BIT) % FLUSH_BIT == CLASS_INET;
  }

  /** After any run: the reply is the negative record exactly when the question is for this name in
      class IN, for a type other than ANY that no record has, while some record exists and the
      querier does not know the denial yet. The denial lists, in strictly ascending order, exactly
      the types that exist. */
  lemma DenialTruthful(name: string, first: seq<seq<u8>>, changes: seq<seq<seq<u8>>>, ttl: nat,
                       q: Question, known: seq<Record>, legacy: bool)
    ensures var z := Watch(name, first, changes, ttl);
            && (z.nsec.Some? <==> z.records != [])
            && (z.nsec.Some? ==>
                  && z.nsec.value.data.NSEC?
                  && Strict(z.nsec.value.data.types)
                  && forall t :: t in z.nsec.value.data.types <==> HasType(z.records, t))
    ensures var z := Watch(name, first, changes, ttl);
            (exists r :: r in Reply(z, q, known, legacy) && r.data.NSEC?) <==>
            && SameName(name, q.name) && QClass(q) == CLASS_INET && q.qtype != TYPE_ANY
            && z.records != [] && !HasType(z.records, q.qtype) && !Known(z.nsec.value, known)
    ensures var z := Watch(name, first, changes, ttl);
            forall r :: r in Reply(z, q, known, legacy) && r.data.NSEC? ==>
              Reply(z, q, known, legacy) == [Shown(z.nsec.value, legacy)]
  {
    hide Watch, Reply, Known, SameName, TypesOf;
    var z := Watch(name, first, changes, ttl);
    WatchConsistent(name, first, changes, ttl);
    ConsistentWellClassed(z, name, ttl);
    NsecSpeaks(z, name, ttl);
    var idx := ReplyExact(z, q, known, legacy);
    if SameName(name, q.name) && q.qtype != TYPE_ANY {
      SilentIff(z, name, ttl, q);
    }
    if Silent(z, q) && Denies(z.nsec, q) {
      if !Known(z.nsec.value, known) {
        assert Shown(z.nsec.value, legacy) in Reply(z, q, known, legacy);
      }
    } else if ClassServed(q) {
      forall r | r in Reply(z, q, known, legacy) ensures !r.data.NSEC? {
        var k :| 0 <= k < |idx| && r == Sent(z.records, idx, legacy)[k];
        assert Published(z.records[idx[k]], name, ttl);
      }
    }
  }

  lemma NsecSpeaks(z: State, name: string, ttl: nat)
    requires Consistent(z, name, ttl)
    ensures z.nsec.Some? <==> z.records != []
    ensures z.nsec.Some? ==> z.nsec.value.name == name && z.nsec.value.data == NSEC(name, TypesOf(z.records))
    ensures Strict(TypesOf(z.records)) && forall t :: t in TypesOf(z.records) <==> HasType(z.records, t)
  {
    hide TypesOf;
    TypesExact(z.records);
    HasMember(TypesOf(z.records));
    if z.records != [] {
      assert HasType(z.records, z.records[0].rtype);
    }
  }

  lemma SilentIff(z: State, name: string, ttl: nat, q: Question)
    requires Consistent(z, name, ttl) && SameName(name, q.name) && q.qtype != TYPE_ANY
    ensures Silent(z, q) <==> !HasType(z.records, q.qtype)
  {
    hide SameName, BuildNsec;
    forall i | 0 <= i < |z.records| ensures Matches(z.records[i], q) <==> z.records[i].rtype == q.qtype {
      assert Published(z.records[i], name, ttl);
    }
  }

  // ----- answers in terms of names, types and addresses -----

  /** The querier lists this address record, under the same name in class IN, with at least half of its
      TTL left. */
  ghost predicate Held(r: Record, known: seq<Record>) {
    exists i :: 0 <= i < |known| && HeldBy(r, known[i])
  }

  ghost predicate HeldBy(r: Record, k: Record) {
    && SameName(k.name, r.name) && k.rtype == r.rtype && k.class_ % 0x8000 == 1 && k.data == r.data
    && 2 * k.ttl + 1 >= r.ttl
  }

  lemma KnownIsHeld(r: Record, known: seq<Record>, name: string, ttl: nat)
    requires Published(r, name, ttl)
    ensures Known(r, known) <==> Held(r, known)
  {
    hide SameName;
    forall i | 0 <= i < |known| ensures Vouches(known[i], r) <==> HeldBy(r, known[i]) {
      assert known[i].ttl >= r.ttl / 2 <==> 2 * known[i].ttl + 1 >= r.ttl;
    }
  }

  /** The question is for this name, in class IN or ANY, with or without the unicast bit. */
  predicate ForUs(q: Question, name: string) {
    SameName(name, q.name) && (q.qclass % 0x8000 == 1 || q.qclass % 0x8000 == 255)
  }

  predicate AskedType(q: Question, t: nat) { q.qtype == 255 || q.qtype == t }

  /** An address record as it goes out. */
  function Outgoing(r: Record, name: string, ttl: nat, legacy: bool): Record {
    Record(name, if legacy then 1 else 0x8001, r.rtype, if legacy && ttl > 10 then 10 else ttl, r.data)
  }

  lemma ShownIsOutgoing(r: Record, name: string, ttl: nat, legacy: bool)
    requires Published(r, name, ttl)
    ensures Shown(r, legacy) == Outgoing(r, name, ttl, legacy)
  {
  }

  /** After any run, a question for another name or another class gets nothing. Otherwise, when some
      address record has the asked type, the reply is exactly the records of that type the querier does
      not hold, all of them and in zone order, with the name, type and address of the host. */
  lemma WatchedReply(name: string, first: seq<seq<u8>>, changes: seq<seq<seq<u8>>>, ttl: nat,
                     q: Question, known: seq<Record>, legacy: bool) returns (idx: seq<nat>)
    ensures var z := Watch(name, first, changes, ttl);
            !ForUs(q, name) ==> Reply(z, q, known, legacy) == []
    ensures var rs := Watch(name, first, changes, ttl).records;
            && Ascending(idx, |rs|)
            && forall i :: 0 <= i < |rs| ==>
                 (i in idx <==> SameName(name, q.name) && AskedType(q, rs[i].rtype) && !Held(rs[i], known))
    ensures var z := Watch(name, first, changes, ttl);
            ForUs(q, name) && (exists i :: 0 <= i < |z.records| && AskedType(q, z.records[i].rtype)) ==>
              && |Reply(z, q, known, legacy)| == |idx|
              && forall k :: 0 <= k < |idx| ==>
                   Reply(z, q, known, legacy)[k] == Outgoing(z.records[idx[k]], name, ttl, legacy)
  {
    hide Watch, Reply, Known, Held, SameName, TypesOf, Shown;
    var z := Watch(name, first, changes, ttl);
    WatchConsistent(name, first, changes, ttl);
    ConsistentWellClassed(z, name, ttl);
    NsecSpeaks(z, name, ttl);
    idx := ReplyExact(z, q, known, legacy);
    forall i | 0 <= i < |z.records|
      ensures Known(z.records[i], known) <==> Held(z.records[i], known)
      ensures Shown(z.records[i], legacy) == Outgoing(z.records[i], name, ttl, legacy)
      ensures Matches(z.records[i], q) <==> SameName(name, q.name) && AskedType(q, z.records[i].rtype)
    {
      assert Published(z.records[i], name, ttl);
      KnownIsHeld(z.records[i], known, name, ttl);
      ShownIsOutgoing(z.records[i], name, ttl, legacy);
    }
    if ClassServed(q) && !SameName(name, q.name) {
      NoPicks(z.records, q, known, idx);
    }
  }

  lemma NoPicks(rs: seq<Record>, q: Question, known: seq<Record>, idx: seq<nat>)
    requires Picks(rs, q, known, idx) && forall i :: 0 <= i < |rs| ==> !Matches(rs[i], q)
    ensures idx == []
  {
    hide Matches, Known;
    HasMember(idx);
  }

  /** Every record of a reply has the question's name, and the asked type unless it is the denial. */
  lemma RepliesMatch(name: string, first: seq<seq<u8>>, changes: seq<seq<seq<u8>>>, ttl: nat,
                     q: Question, known: seq<Record>, legacy: bool, r: Record)
    requires r in Reply(Watch(name, first, changes, ttl), q, known, legacy)
    ensures r.name == name && SameName(r.name, q.name) && (r.data.NSEC? || AskedType(q, r.rtype))
  {
    hide Watch, Reply, Held, SameName, TypesOf, ForUs, AskedType;
    var z := Watch(name, first, changes, ttl);
    var idx := WatchedReply(name, first, changes, ttl, q, known, legacy);
    OursIsNamed(q, name);
    if exists i :: 0 <= i < |z.records| && AskedType(q, z.records[i].rtype) {
      var k :| 0 <= k < |idx| && Reply(z, q, known, legacy)[k] == r;
      assert idx[k] in idx;
    } else {
      OnlyDenial(name, first, changes, ttl, q, known, legacy, r);
    }
  }

  lemma OursIsNamed(q: Question, name: string)
    ensures ForUs(q, name) ==> SameName(name, q.name)
  {
  }

  lemma OnlyDenial(name: string, first: seq<seq<u8>>, changes: seq<seq<seq<u8>>>, ttl: nat,
                   q: Question, known: seq<Record>, legacy: bool, r: Record)
    requires r in Reply(Watch(name, first, changes, ttl), q, known, legacy)
    requires var rs := Watch(name, first, changes, ttl).records;
             forall i :: 0 <= i < |rs| ==> !AskedType(q, rs[i].rtype)
    ensures r.name == name && r.data.NSEC?
  {
    hide Watch, Reply, Known, SameName, TypesOf;
    var z := Watch(name, first, changes, ttl);
    WatchConsistent(name, first, changes, ttl);
    ConsistentWellClassed(z, name, ttl);
    NsecSpeaks(z, name, ttl);
    var idx := ReplyExact(z, q, known, legacy);
    NoPicks(z.records, q, known, idx);
  }

  /** A querier knows the denial if and only if it lists one for this name, in class IN, with half the TTL
      left, that names the same types, each once, in any order. */
  lemma DenialKnownIff(name: string, first: seq<seq<u8>>, changes: seq<seq<seq<u8>>>, ttl: nat, known: seq<Record>)
    requires Watch(name, first, changes, ttl).nsec.Some?
    ensures var r := Watch(name, first, changes, ttl).nsec.value;
            && r.data.NSEC?
            && (Known(r, known) <==>
                  exists i :: 0 <= i < |known| && SameDenial(known[i], name, r.data.types, ttl))
  {
    hide Watch, TypesOf, SameName;
    var z := Watch(name, first, changes, ttl);
    WatchConsistent(name, first, changes, ttl);
    NsecSpeaks(z, name, ttl);
    var r := z.nsec.value;
    forall i | 0 <= i < |known| ensures Vouches(known[i], r) <==> SameDenial(known[i], name, r.data.types, ttl) {
      assert known[i].ttl >= ttl / 2 <==> 2 * known[i].ttl + 1 >= ttl;
      if known[i].data.NSEC? {
        TypesEqualIff(known[i].data.types, r.data.types);
      }
    }
  }

  ghost predicate SameDenial(k: Record, name: string, types: seq<nat>, ttl: nat) {
    && SameName(k.name, name) && k.rtype == 47 && k.class_ % 0x8000 == 1 && 2 * k.ttl + 1 >= ttl
    && k.data.NSEC? && SameName(k.data.next, name) && multiset(k.data.types) == multiset(types)
  }

  lemma TypesEqualIff(a: seq<nat>, b: seq<nat>)
    requires Strict(b)
    ensures TypesEqual(a, b) <==> multiset(a) == multiset(b)
  {
    if TypesEqual(a, b) {
      DistinctWithin(b, a);
    } else if multiset(a) == multiset(b) {
      assert |a| == |multiset(a)| && |b| == |multiset(b)|;
      forall i | 0 <= i < |b| ensures b[i] in a {
        assert b[i] in multiset(b);
      }
    }
  }

  /** The denial: this name, class IN with the flush bit, the zone's TTL. */
  lemma DenialFields(name: string, first: seq<seq<u8>>, changes: seq<seq<seq<u8>>>, ttl: nat)
    ensures var z := Watch(name, first, changes, ttl);
            z.nsec.Some? ==>
              && z.nsec.value.name == name && z.nsec.value.rtype == 47 && z.nsec.value.class_ == 0x8001
              && z.nsec.value.ttl == ttl && z.nsec.value.data.NSEC? && z.nsec.value.data.next == name
  {
    hide Watch, TypesOf;
    WatchConsistent(name, first, changes, ttl);
  }

  // ----- which addresses are published -----

  predicate LinkLocal4(a: seq<u8>) { |a| == 4 && a[0] == 169 && a[1] == 254 }

  predicate Loopback4(a: seq<u8>) { |a| == 4 && a[0] == 127 }

  /** ::ffff:a.b.c.d */
  ghost predicate Mapped(ip: seq<u8>) {
    && |ip| == 16 && (forall i :: 0 <= i < 10 ==> ip[i] == 0) && ip[10] == 0xFF && ip[11] == 0xFF
  }

  /** An IPv4 address, also a mapped one, gives an A record unless it is 169.254/16 or 127/8; any other
      IPv6 address an AAAA record unless it is fe80::/10 or ::1; nothing else gives a record. */
  lemma AddressRecords(name: string, ip: seq<u8>, ttl: nat)
    ensures |ip| == 4 ==>
              RecordsFor(name, [ip], ttl)
              == if LinkLocal4(ip) || Loopback4(ip) then [] else [Record(name, 0x8001, 1, ttl, A(ip))]
    ensures Mapped(ip) ==>
              RecordsFor(name, [ip], ttl)
              == if LinkLocal4(ip[12..]) || Loopback4(ip[12..]) then [] else [Record(name, 0x8001, 1, ttl, A(ip[12..]))]
    ensures |ip| == 16 && !Mapped(ip) ==>
              RecordsFor(name, [ip], ttl)
              == if (ip[0] == 0xFE && 0x80 <= ip[1] < 0xC0) || ((forall i :: 0 <= i < 15 ==> ip[i] == 0) && ip[15] == 1)
                 then [] else [Record(name, 0x8001, 28, ttl, AAAA(ip))]
    ensures ip == [] ==> RecordsFor(name, [ip], ttl) == []
  {
    var none: seq<seq<u8>> := [];
    assert [ip][..0] == none;
    assert RecordsFor(name, none, ttl) == [];
    MappedIff(ip);
    LoopbackIff(ip);
  }

  lemma MappedIff(ip: seq<u8>)
    ensures Mapped(ip) <==> |ip| == 16 && ip[..12] == V4_IN_V6
  {
    if |ip| == 16 && ip[..12] == V4_IN_V6 {
      assert forall i :: 0 <= i < 12 ==> ip[i] == ip[..12][i];
    }
  }

  lemma LoopbackIff(ip: seq<u8>)
    ensures ip == seq(15, i => 0) + [1] <==> |ip| == 16 && (forall i :: 0 <= i < 15 ==> ip[i] == 0) && ip[15] == 1
  {
    var one: seq<u8> := seq(15, i => 0) + [1];
    assert forall i :: 0 <= i < 15 ==> one[i] == 0;
  }

  // ----- does the zone follow the interface? -----

  ghost function Rdata(rs: seq<Record>): (ds: seq<Data>)
    ensures |ds| == |rs|
  {
    seq(|rs|, i requires 0 <= i < |rs| => rs[i].data)
  }

  ghost predicate Distinct(ds: seq<Data>) { forall i, j :: 0 <= i < j < |ds| ==> ds[i] != ds[j] }

  ghost predicate Within(a: seq<Data>, b: seq<Data>) { |a| == |b| && forall i :: 0 <= i < |a| ==> a[i] in b }

  lemma SameRecordsWithin(a: seq<Record>, b: seq<Record>, name: string, ttl: nat)
    requires AllPublished(a, name, ttl) && AllPublished(b, name, ttl)
    ensures SameRecords(a, b) <==> Within(Rdata(a), Rdata(b))
  {
    forall i, j | 0 <= i < |a| && 0 <= j < |b| ensures SameRecord(a[i], b[j]) <==> Rdata(a)[i] == Rdata(b)[j] {
      assert Published(a[i], name, ttl) && Published(b[j], name, ttl);
    }
    forall i | 0 <= i < |a| ensures Found(a[i], b) <==> Rdata(a)[i] in Rdata(b) {
      if Rdata(a)[i] in Rdata(b) {
        var j :| 0 <= j < |b| && Rdata(b)[j] == Rdata(a)[i];
        assert SameRecord(a[i], b[j]);
      }
    }
  }

  lemma {:induction false} DistinctWithin<T>(a: seq<T>, b: seq<T>)
    requires forall i, j :: 0 <= i < j < |a| ==> a[i] != a[j]
    requires |a| == |b| && forall i :: 0 <= i < |a| ==> a[i] in b
    ensures multiset(a) == multiset(b)
    decreases |a|
  {
    if a != [] {
      var x := a[0];
      var j :| 0 <= j < |b| && b[j] == x;
      var a', b' := a[1..], b[..j] + b[j + 1..];
      assert a == [x] + a' && b == b[..j] + [x] + b[j + 1..];
      forall i | 0 <= i < |a'| ensures a'[i] in b' {
        assert a'[i] == a[i + 1] && a[0] != a[i + 1];
        assert a[i + 1] in b;
      }
      DistinctWithin(a', b');
    }
  }

  /** With no address twice, "same records" is equality up to order. */
  lemma DistinctExact(a: seq<Data>, b: seq<Data>)
    requires Distinct(a)
    ensures Within(a, b) <==> multiset(a) == multiset(b)
  {
    if Within(a, b) {
      DistinctWithin(a, b);
    } else if multiset(a) == multiset(b) {
      assert |multiset(a)| == |a| && |multiset(b)| == |b|;
      forall i | 0 <= i < |a| ensures a[i] in b {
        assert a[i] in multiset(a);
      }
    }
  }

  // ----- an address listed twice -----

  /** Addresses as the kernel reports them. */
  predicate Addresses(ips: seq<seq<u8>>) { forall i :: 0 <= i < |ips| ==> |ips[i]| == 4 || |ips[i]| == 16 }

  function UsableOf(ips: seq<seq<u8>>): seq<seq<u8>> {
    if ips == [] then []
    else UsableOf(ips[..|ips| - 1]) + if Usable(ips[|ips| - 1]) then [ips[|ips| - 1]] else []
  }

  ghost predicate AllUsable(ips: seq<seq<u8>>) { forall i :: 0 <= i < |ips| ==> Usable(ips[i]) }

  lemma {:induction false} UsableAre(ips: seq<seq<u8>>)
    ensures AllUsable(UsableOf(ips)) && (Addresses(ips) ==> Addresses(UsableOf(ips)))
  {
    hide Usable;
    if ips != [] {
      UsableAre(ips[..|ips| - 1]);
    }
  }

  lemma {:induction false} UsableKept(name: string, ips: seq<seq<u8>>, ttl: nat)
    ensures RecordsFor(name, UsableOf(ips), ttl) == RecordsFor(name, ips, ttl)
  {
    hide Usable, RecordFor;
    if ips != [] {
      var n := |ips| - 1;
      UsableKept(name, ips[..n], ttl);
      var us, x := UsableOf(ips[..n]), ips[n];
      if Usable(x) {
        assert (us + [x])[..|us|] == us && (us + [x])[|us|] == x;
      } else {
        assert us + [] == us;
      }
    }
  }

  lemma {:induction false} OneRecordEach(name: string, us: seq<seq<u8>>, ttl: nat)
    requires AllUsable(us)
    ensures |RecordsFor(name, us, ttl)| == |us|
    ensures forall i :: 0 <= i < |us| ==> RecordsFor(name, us, ttl)[i] == RecordFor(name, us[i], ttl)
  {
    hide Usable, RecordFor;
    if us != [] {
      var n := |us| - 1;
      assert forall i :: 0 <= i < n ==> us[..n][i] == us[i];
      OneRecordEach(name, us[..n], ttl);
    }
  }

  /** The addresses published for a list, as record data. */
  ghost function DataFor(name: string, ips: seq<seq<u8>>, ttl: nat): seq<Data> { Rdata(RecordsFor(name, ips, ttl)) }

  ghost predicate Noticed(name: string, ips: seq<seq<u8>>, ips': seq<seq<u8>>, ttl: nat) {
    SameRecords(RecordsFor(name, ips, ttl), RecordsFor(name, ips', ttl)) ==>
      multiset(DataFor(name, ips, ttl)) == multiset(DataFor(name, ips', ttl))
  }

  lemma Replaced(name: string, us: seq<seq<u8>>, ttl: nat, j: nat, y: seq<u8>)
    requires AllUsable(us) && j < |us| && Usable(y)
    ensures |DataFor(name, us, ttl)| == |us|
    ensures DataFor(name, us[j := y], ttl) == DataFor(name, us, ttl)[j := RecordFor(name, y, ttl).data]
  {
    hide Usable, RecordFor, RecordsFor;
    var us' := us[j := y];
    OneRecordEach(name, us, ttl);
    OneRecordEach(name, us', ttl);
  }

  /** Changing one copy of a repeated address into any other unlisted one goes unnoticed. */
  lemma RepeatedMissed(name: string, us: seq<seq<u8>>, ttl: nat, i: nat, j: nat, y: seq<u8>)
    requires AllUsable(us) && i < j < |us| && |DataFor(name, us, ttl)| == |us|
    requires DataFor(name, us, ttl)[i] == DataFor(name, us, ttl)[j]
    requires Usable(y) && RecordFor(name, y, ttl).data !in DataFor(name, us, ttl)
    ensures SameRecords(RecordsFor(name, us, ttl), RecordsFor(name, us[j := y], ttl))
    ensures multiset(DataFor(name, us, ttl)) != multiset(DataFor(name, us[j := y], ttl))
    ensures RecordFor(name, y, ttl).data in DataFor(name, us[j := y], ttl)
  {
    hide Usable, RecordFor, RecordsFor, SameRecords, AllPublished;
    var a, d := DataFor(name, us, ttl), RecordFor(name, y, ttl).data;
    Replaced(name, us, ttl, j, y);
    var b := a[j := d];
    forall k | 0 <= k < |a| ensures a[k] in b {
      assert b[if k == j then i else k] == a[k];
    }
    assert b[j] == d && d in multiset(b) && d !in multiset(a);
    RecordsForPublishes(name, us, ttl);
    RecordsForPublishes(name, us[j := y], ttl);
    SameRecordsWithin(RecordsFor(name, us, ttl), RecordsFor(name, us[j := y], ttl), name, ttl);
  }

  /** An interface may hold one address under two prefix lengths. With an address listed twice, the
      zone stays as it was when one copy is replaced by an address it has never held. */
  lemma RepeatedHidesChange(name: string, us: seq<seq<u8>>, ttl: nat, i: nat, j: nat, y: seq<u8>)
    requires AllUsable(us) && i < j < |us| && |DataFor(name, us, ttl)| == |us|
    requires DataFor(name, us, ttl)[i] == DataFor(name, us, ttl)[j]
    requires Usable(y) && RecordFor(name, y, ttl).data !in DataFor(name, us, ttl)
    ensures var z := Watch(name, us, [us[j := y]], ttl);
            && z == Start(name, us, ttl)
            && RecordFor(name, y, ttl).data in DataFor(name, us[j := y], ttl)
            && RecordFor(name, y, ttl).data !in Rdata(z.records)
  {
    hide Usable, RecordFor, RecordsFor, SameRecords;
    RepeatedMissed(name, us, ttl, i, j, y);
    var change := us[j := y];
    var none: seq<seq<seq<u8>>> := [];
    assert [change][..0] == none;
    assert Watch(name, us, [], ttl) == Start(name, us, ttl);
  }

  /** So, as long as some address is not listed, every change away from a list is noticed if and only
      if the list names no address twice. */
  lemma ChangeNoticedIff(name: string, ips: seq<seq<u8>>, ttl: nat, y: seq<u8>)
    requires Addresses(ips) && Addresses([y])
    requires Usable(y) && RecordFor(name, y, ttl).data !in DataFor(name, ips, ttl)
    ensures (forall ips' :: Addresses(ips') ==> Noticed(name, ips, ips', ttl)) <==> Distinct(DataFor(name, ips, ttl))
  {
    hide Usable, RecordFor, RecordsFor, SameRecords, UsableOf, AllPublished, Rdata;
    var rs := RecordsFor(name, ips, ttl);
    if Distinct(DataFor(name, ips, ttl)) {
      forall ips' | Addresses(ips') ensures Noticed(name, ips, ips', ttl) {
        RecordsForPublishes(name, ips, ttl);
        RecordsForPublishes(name, ips', ttl);
        SameRecordsWithin(rs, RecordsFor(name, ips', ttl), name, ttl);
        DistinctExact(DataFor(name, ips, ttl), DataFor(name, ips', ttl));
      }
    } else {
      var a := DataFor(name, ips, ttl);
      var i, j :| 0 <= i < j < |a| && a[i] == a[j];
      var us := UsableOf(ips);
      UsableAre(ips);
      UsableKept(name, ips, ttl);
      OneRecordEach(name, us, ttl);
      RepeatedMissed(name, us, ttl, i, j, y);
      assert [y][0] == y;
      assert Addresses(us[j := y]) && !Noticed(name, ips, us[j := y], ttl);
    }
  }

  /** The address lists seen so far name no address twice. */
  ghost predicate NoRepeats(name: string, first: seq<seq<u8>>, changes: seq<seq<seq<u8>>>, ttl: nat) {
    && Distinct(Rdata(RecordsFor(name, first, ttl)))
    && forall i :: 0 <= i < |changes| ==> Distinct(Rdata(RecordsFor(name, changes[i], ttl)))
  }

  ghost function Latest(first: seq<seq<u8>>, changes: seq<seq<seq<u8>>>): seq<seq<u8>> {
    if changes == [] then first else changes[|changes| - 1]
  }

  /** Without repeats the zone holds, after every change, exactly the interface's latest addresses. */
  lemma {:induction false} ZoneFollowsInterface(name: string, first: seq<seq<u8>>, changes: seq<seq<seq<u8>>>, ttl: nat)
    requires NoRepeats(name, first, changes, ttl)
    ensures var z := Watch(name, first, changes, ttl);
            && multiset(Rdata(z.records)) == multiset(Rdata(RecordsFor(name, Latest(first, changes), ttl)))
            && Distinct(Rdata(z.records))
  {
    hide RecordsFor, SameRecords, BuildNsec, Rdata, AllPublished, Distinct;
    if changes != [] {
      var n := |changes| - 1;
      ZoneFollowsInterface(name, first, changes[..n], ttl);
      var was, rs := Watch(name, first, changes[..n], ttl), RecordsFor(name, changes[n], ttl);
      WatchConsistent(name, first, changes[..n], ttl);
      RecordsForPublishes(name, changes[n], ttl);
      SameRecordsWithin(was.records, rs, name, ttl);
      if SameRecords(was.records, rs) {
        DistinctExact(Rdata(was.records), Rdata(rs));
      }
    }
  }

  // ----- records in the heap -----

  /** A `dns.RR`: the header fields that are edited are mutable. */
  class RR {
    const name: string
    const rtype: nat
    const data: Data
    var class_: nat
    var ttl: nat

    constructor (r: Record)
      ensures Value() == r
    {
      name, rtype, data, class_, ttl := r.name, r.rtype, r.data, r.class_, r.ttl;
    }

    function Value(): Record reads this { Record(name, class_, rtype, ttl, data) }
  }

  function Values(rs: seq<RR>): (vs: seq<Record>)
    reads rs
    ensures |vs| == |rs| && forall i :: 0 <= i < |rs| ==> vs[i] == rs[i].Value()
  {
    if rs == [] then [] else Values(rs[..|rs| - 1]) + [rs[|rs| - 1].Value()]
  }

  method NewRecords(values: seq<Record>) returns (rs: seq<RR>)
    ensures Values(rs) == values
    ensures forall r :: r in rs ==> fresh(r)
  {
    rs := [];
    for i := 0 to |values|
      invariant |rs| == i && forall k :: 0 <= k < i ==> rs[k].Value() == values[k]
      invariant forall r :: r in rs ==> fresh(r)
    {
      var r := new RR(values[i]);
      rs := rs + [r];
    }
  }

  /** `copyRecords`. */
  method CopyRecords(rs: seq<RR>) returns (out: seq<RR>)
    ensures Values(out) == Values(rs)
    ensures forall r :: r in out ==> fresh(r)
  {
    out := [];
    for i := 0 to |rs|
      invariant |out| == i && forall k :: 0 <= k < i ==> out[k].Value() == rs[k].Value()
      invariant forall r :: r in out ==> fresh(r)
    {
      var c := new RR(rs[i].Value());
      out := out + [c];
    }
  }

  method CopyIfAny(r: RR?) returns (c: RR?)
    ensures c == null <==> r == null
    ensures c != null ==> fresh(c) && c.Value() == r.Value()
  {
    if r == null {
      c := null;
    } else {
      c := new RR(r.Value());
    }
  }

  /** `dns.Copy`, with the flush bit dropped for a legacy querier. */
  method CopyFor(r: RR, legacy: bool) returns (c: RR)
    ensures fresh(c) && c.Value() == Stripped(r.Value(), legacy)
  {
    c := new RR(r.Value());
    if legacy {
      c.class_ := CLASS_INET;
    }
  }

  method IsKnownAnswer(r: Record, known: seq<Record>) returns (yes: bool)
    ensures yes <==> Known(r, known)
  {
    hide Vouches;
    for i := 0 to |known|
      invariant forall k :: 0 <= k < i ==> !Vouches(known[k], r)
    {
      if Vouches(known[i], r) {
        return true;
      }
    }
    return false;
  }

  method FilterKnownAnswers(rs: seq<RR>, known: seq<Record>) returns (out: seq<RR>)
    ensures Values(out) == Unknown(Values(rs), known)
    ensures forall i :: 0 <= i < |out| ==> out[i] in rs
  {
    hide Known, Values;
    out := [];
    ghost var vs := Values(rs);
    ghost var kept: seq<Record> := [];
    for i := 0 to |rs|
      invariant kept == Unknown(vs[..i], known)
      invariant |out| == |kept| && forall k :: 0 <= k < |kept| ==> out[k].Value() == kept[k]
      invariant forall k :: 0 <= k < |out| ==> out[k] in rs
    {
      var yes := IsKnownAnswer(rs[i].Value(), known);
      assert vs[..i + 1][..i] == vs[..i];
      if !yes {
        out := out + [rs[i]];
        kept := kept + [vs[i]];
      }
    }
    assert vs[..|rs|] == vs;
    assert Values(out) == kept;
  }

  /** The TTL cap, applied to the copies themselves. */
  method CapTtls(rs: seq<RR>)
    modifies rs
    ensures Values(rs) == CapAll(old(Values(rs)), true)
    ensures forall r :: r in rs ==> r.class_ == old(r.class_)
  {
    for i := 0 to |rs|
      invariant forall k :: 0 <= k < |rs| ==> rs[k].class_ == old(rs[k].class_)
      invariant forall k :: 0 <= k < |rs| ==>
                  rs[k].ttl == old(rs[k].ttl) || rs[k].Value() == Capped(old(rs[k].Value()), true)
      invariant forall k :: 0 <= k < i ==> rs[k].Value() == Capped(old(rs[k].Value()), true)
    {
      if rs[i].ttl > LEGACY_TTL {
        rs[i].ttl := LEGACY_TTL;
      }
    }
  }

  class HostnameZone {
    var records: seq<RR>
    var nsec: RR?

    function Current(): State
      reads this, records, nsec
    {
      State(Values(records), if nsec == null then None else Some(nsec.Value()))
    }

    constructor (records: seq<RR>, nsec: RR?)
      ensures this.records == records && this.nsec == nsec
    {
      this.records, this.nsec := records, nsec;
    }

    /** Answers are copies: every record returned is new, so editing them leaves the zone alone. */
    method Records(q: Question, legacy: bool) returns (out: seq<RR>)
      ensures Values(out) == Answers(Current(), q, legacy)
      ensures forall r :: r in out ==> fresh(r)
    {
      hide Matches, SameName, Values, Stripped;
      out := [];
      if !ClassServed(q) {
        return;
      }
      ghost var vs := Values(records);
      ghost var kept: seq<Record> := [];
      for i := 0 to |records|
        invariant kept == Positive(vs[..i], q, legacy)
        invariant |out| == |kept| && forall k :: 0 <= k < |kept| ==> out[k].Value() == kept[k]
        invariant forall r :: r in out ==> fresh(r)
      {
        assert vs[..i + 1][..i] == vs[..i];
        if Matches(records[i].Value(), q) {
          var c := CopyFor(records[i], legacy);
          out := out + [c];
          kept := kept + [Stripped(vs[i], legacy)];
        }
      }
      assert vs[..|vs|] == vs;
      if |out| == 0 && nsec != null && Denies(Some(nsec.Value()), q) {
        var c := CopyFor(nsec, legacy);
        out := [c];
        kept := [Stripped(nsec.Value(), legacy)];
      }
      assert Values(out) == kept;
    }

    method CompareRecords(rs: seq<RR>) returns (same: bool)
      ensures same <==> SameRecords(Values(records), Values(rs))
    {
      hide SameRecord;
      if |records| != |rs| {
        return false;
      }
      ghost var a, b := Values(records), Values(rs);
      for i := 0 to |records|
        invariant forall k :: 0 <= k < i ==> Found(a[k], b)
      {
        var found := false;
        for j := 0 to |rs|
          invariant found <==> exists k :: 0 <= k < j && SameRecord(a[i], b[k])
        {
          if SameRecord(records[i].Value(), rs[j].Value()) {
            found := true;
          }
        }
        if !found {
          return false;
        }
      }
      return true;
    }

    /** `replaceRecords`: on a change the zone gets its own copies and the old ones come back. */
    method ReplaceRecords(rs: seq<RR>, denial: RR?) returns (former: seq<RR>, changed: bool)
      modifies this
      ensures changed <==> !SameRecords(old(Values(records)), Values(rs))
      ensures changed ==> Current() == State(Values(rs), if denial == null then None else Some(denial.Value()))
      ensures changed ==> (forall r :: r in records ==> fresh(r)) && (nsec == null || fresh(nsec))
      ensures !changed ==> former == [] && records == old(records) && nsec == old(nsec) && Current() == old(Current())
      ensures changed ==> Values(former) == old(Values(records))
      ensures forall r :: r in former ==> fresh(r)
    {
      hide SameRecords, Values;
      var same := CompareRecords(rs);
      if same {
        return [], false;
      }
      former := CopyRecords(records);
      var mine := CopyRecords(rs);
      var n := CopyIfAny(denial);
      records, nsec, changed := mine, n, true;
      assert Values(records) == Values(mine);
    }
  }

  class Server {
    const zone: HostnameZone
    const fqdn: string

    constructor (zone: HostnameZone, fqdn: string)
      ensures this.zone == zone && this.fqdn == fqdn
    {
      this.zone, this.fqdn := zone, fqdn;
    }

    /** One address change of `watchInterfaceAddresses`. */
    method AddressesChanged(ips: seq<seq<u8>>, ttl: nat) returns (changed: bool)
      modifies zone
      ensures zone.Current() == Refresh(old(zone.Current()), fqdn, RecordsFor(fqdn, ips, ttl), ttl)
      ensures changed <==> !SameRecords(old(zone.Current()).records, RecordsFor(fqdn, ips, ttl))
    {
      hide SameRecords, BuildNsec, RecordsFor, Values;
      ghost var z := zone.Current();
      var values := RecordsForIps(fqdn, ips, ttl);
      var rs := NewRecords(values);
      var denial: RR? := null;
      var n := BuildNsecRecord(fqdn, values, ttl);
      if n.Some? {
        denial := new RR(n.value);
      }
      assert zone.Current() == z;
      var former;
      former, changed := zone.ReplaceRecords(rs, denial);
    }

    /** The part of `answerQuery` done once per question. */
    method AnswerQuestion(q: Question, known: seq<Record>, legacy: bool) returns (out: seq<RR>)
      ensures Values(out) == Reply(zone.Current(), q, known, legacy)
      ensures forall r :: r in out ==> fresh(r)
    {
      hide Answers, Values;
      var all := zone.Records(q, legacy);
      if |all| == 0 {
        return [];
      }
      out := FilterKnownAnswers(all, known);
      forall i | 0 <= i < |out| ensures fresh(out[i]) {
        assert out[i] in all;
      }
      if legacy {
        CapTtls(out);
      }
    }

    /** `answerQuery`: nothing that existed before the call changes, in particular no zone record. */
    method AnswerQuery(m: Message, port: nat) returns (multicast: Option<Response>, unicast: Option<Response>)
      ensures multicast == MulticastResponse(zone.Current(), m, port)
      ensures unicast == UnicastResponse(zone.Current(), m, port)
    {
      hide Reply, Values;
      var legacy := port != MDNS_PORT;
      var uni: seq<RR>, multi: seq<RR> := [], [];
      var qs := m.questions;
      for i := 0 to |qs|
        invariant Values(uni) == Section(zone.Current(), qs[..i], m.answers, legacy, true)
        invariant Values(multi) == Section(zone.Current(), qs[..i], m.answers, legacy, false)
      {
        assert qs[..i + 1][..i] == qs[..i];
        var records := AnswerQuestion(qs[i], m.answers, legacy);
        if |records| != 0 {
          if legacy || WantsUnicast(qs[i]) {
            ValuesAppend(uni, records);
            uni := uni + records;
          } else {
            ValuesAppend(multi, records);
            multi := multi + records;
          }
        }
      }
      assert qs[..|qs|] == qs;
      multicast, unicast := None, None;
      if |multi| > 0 {
        multicast := Some(Response(0, [], Values(multi)));
      }
      if |uni| > 0 {
        unicast := Some(if legacy then Response(m.id, qs, Values(uni)) else Response(0, [], Values(uni)));
      }
    }
  }

  lemma ValuesAppend(a: seq<RR>, b: seq<RR>)
    ensures Values(a + b) == Values(a) + Values(b)
  {
  }
}
