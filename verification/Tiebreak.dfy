/** Simultaneous-probe tiebreaking (pkgs/mdns-publisher/main.go): an order on record lists under
    which exactly one of any number of probing hosts keeps the name. */
module Tiebreak {
  import opened Bytes

  datatype Data = A(octets: seq<u8>) | AAAA(octets: seq<u8>) | NSEC(next: string, types: seq<nat>) | OtherData

  datatype Record = Record(name: string, class_: nat, rtype: nat, ttl: nat, data: Data)

  const FLUSH_BIT: nat := 0x8000
  const PROBE_TTL: nat := 255

  /** Names compare without regard to ASCII case. */
  function Fold(s: string): string {
    seq(|s|, i requires 0 <= i < |s| => if 'A' <= s[i] <= 'Z' then s[i] - 'A' + 'a' else s[i])
  }

  predicate SameName(a: string, b: string) { Fold(a) == Fold(b) }

  /** Equal octets, or a letter and its other case. */
  predicate SameLetter(c: char, d: char) {
    || c == d
    || ('A' <= c <= 'Z' && d as int == c as int + 32)
    || ('A' <= d <= 'Z' && c as int == d as int + 32)
  }

  lemma FoldLetter(c: char, d: char)
    ensures Fold([c]) == Fold([d]) <==> SameLetter(c, d)
  {
    assert Fold([c])[0] == Fold([d])[0] ==> Fold([c]) == Fold([d]);
  }

  /** Names are the same if and only if they are as long and agree letter by letter up to ASCII case. */
  lemma SameNameIff(a: string, b: string)
    ensures SameName(a, b) <==> |a| == |b| && forall i :: 0 <= i < |a| ==> SameLetter(a[i], b[i])
  {
    forall i | 0 <= i < |a| && i < |b| ensures Fold(a)[i] == Fold(b)[i] <==> SameLetter(a[i], b[i]) {
      FoldLetter(a[i], b[i]);
      assert Fold([a[i]])[0] == Fold(a)[i] && Fold([b[i]])[0] == Fold(b)[i];
    }
    assert |Fold(a)| == |a| && |Fold(b)| == |b|;
  }

  // ----- order on records -----

  datatype Key = Key(class_: nat, rtype: nat, octets: seq<u8>)

  function KeyOf(r: Record): Key {
    Key(r.class_ % FLUSH_BIT, r.rtype, if r.data.A? || r.data.AAAA? then r.data.octets else [])
  }

  /** `bytes.Compare(a, b) < 0`. */
  predicate OctetsLess(a: seq<u8>, b: seq<u8>) {
    b != [] && (a == [] || a[0] < b[0] || (a[0] == b[0] && OctetsLess(a[1..], b[1..])))
  }

  /** `rrLess` on what it looks at: class without the flush bit, type, rdata. */
  predicate Less(a: Key, b: Key) {
    if a.class_ != b.class_ then a.class_ < b.class_
    else if a.rtype != b.rtype then a.rtype < b.rtype
    else OctetsLess(a.octets, b.octets)
  }

  /** Octets compare at the first difference; a proper prefix is smaller. */
  lemma {:induction false} OctetsLessIff(a: seq<u8>, b: seq<u8>)
    ensures OctetsLess(a, b) <==>
              exists k :: 0 <= k <= |a| && k < |b| && a[..k] == b[..k] && (k == |a| || a[k] < b[k])
    decreases |a|
  {
    HeadsAgree(a, b);
    if a != [] && b != [] && a[0] == b[0] {
      OctetsLessIff(a[1..], b[1..]);
      if k :| 0 <= k <= |a[1..]| && k < |b[1..]| && a[1..][..k] == b[1..][..k]
              && (k == |a[1..]| || a[1..][k] < b[1..][k]) {
        assert a[..k + 1] == [a[0]] + a[1..][..k] && b[..k + 1] == [b[0]] + b[1..][..k];
      }
      if k :| 0 <= k <= |a| && k < |b| && a[..k] == b[..k] && (k == |a| || a[k] < b[k]) {
        assert k > 0;
        assert a[1..][..k - 1] == a[..k][1..] && b[1..][..k - 1] == b[..k][1..];
      }
    } else {
      assert a[..0] == b[..0];
    }
  }

  lemma HeadsAgree<T>(a: seq<T>, b: seq<T>)
    ensures forall k :: 0 < k <= |a| && k <= |b| && a[..k] == b[..k] ==> a[0] == b[0]
  {
    forall k | 0 < k <= |a| && k <= |b| && a[..k] == b[..k] ensures a[0] == b[0] {
      assert a[..k][0] == b[..k][0];
    }
  }

  /** Class without the flush bit first, then type, then the address octets. */
  lemma RecordOrderIff(a: Record, b: Record)
    requires (a.data.A? || a.data.AAAA?) && (b.data.A? || b.data.AAAA?)
    ensures Less(KeyOf(a), KeyOf(b)) <==>
              || a.class_ % 0x8000 < b.class_ % 0x8000
              || (a.class_ % 0x8000 == b.class_ % 0x8000 && a.rtype < b.rtype)
              || (a.class_ % 0x8000 == b.class_ % 0x8000 && a.rtype == b.rtype
                  && OctetsLess(a.data.octets, b.data.octets))
  {
  }

  lemma {:induction false} OctetsTotal(a: seq<u8>, b: seq<u8>)
    ensures !(OctetsLess(a, b) && OctetsLess(b, a))
    ensures OctetsLess(a, b) || OctetsLess(b, a) || a == b
    ensures a == b ==> !OctetsLess(a, b)
    decreases |a|
  {
    if a != [] && b != [] && a[0] == b[0] {
      OctetsTotal(a[1..], b[1..]);
      assert a == [a[0]] + a[1..] && b == [b[0]] + b[1..];
    }
  }

  lemma {:induction false} OctetsTransitive(a: seq<u8>, b: seq<u8>, c: seq<u8>)
    requires OctetsLess(a, b) && OctetsLess(b, c)
    ensures OctetsLess(a, c)
    decreases |a|
  {
    if a != [] && a[0] == b[0] == c[0] {
      OctetsTransitive(a[1..], b[1..], c[1..]);
    }
  }

  /** A strict total order on keys. */
  lemma LessTotal(a: Key, b: Key)
    ensures !(Less(a, b) && Less(b, a))
    ensures Less(a, b) || Less(b, a) || a == b
    ensures a == b ==> !Less(a, b)
  {
    OctetsTotal(a.octets, b.octets);
  }

  lemma LessTransitive(a: Key, b: Key, c: Key)
    requires Less(a, b) && Less(b, c)
    ensures Less(a, c)
  {
    if a.class_ == b.class_ == c.class_ && a.rtype == b.rtype == c.rtype {
      OctetsTransitive(a.octets, b.octets, c.octets);
    }
  }

  // ----- sorted key lists -----

  ghost predicate Sorted(ks: seq<Key>) {
    forall i, j :: 0 <= i < j < |ks| ==> !Less(ks[j], ks[i])
  }

  function Keys(rs: seq<Record>): (ks: seq<Key>)
    ensures |ks| == |rs|
  {
    seq(|rs|, i requires 0 <= i < |rs| => KeyOf(rs[i]))
  }

  /** Some sorted arrangement of the records' keys; `sort.Slice` promises no more. */
  ghost predicate SortedKeysOf(rs: seq<Record>, ks: seq<Key>) {
    Sorted(ks) && multiset(ks) == multiset(Keys(rs))
  }

  function Insert(ks: seq<Key>, k: Key): (r: seq<Key>)
    ensures |r| == |ks| + 1
  {
    if ks == [] || !Less(ks[0], k) then [k] + ks else [ks[0]] + Insert(ks[1..], k)
  }

  lemma {:induction false} InsertContents(ks: seq<Key>, k: Key)
    ensures multiset(Insert(ks, k)) == multiset(ks) + multiset{k}
  {
    hide Less;
    if ks != [] && Less(ks[0], k) {
      InsertContents(ks[1..], k);
      assert ks == [ks[0]] + ks[1..];
    }
  }

  lemma {:induction false} InsertSorted(ks: seq<Key>, k: Key)
    requires Sorted(ks)
    ensures Sorted(Insert(ks, k))
  {
    hide Less;
    var r := Insert(ks, k);
    if ks == [] {
    } else if !Less(ks[0], k) {
      forall j | 0 <= j < |ks| ensures !Less(ks[j], k) {
        LessTotal(ks[0], k);
        if Less(ks[j], k) && ks[0] != k {
          LessTransitive(ks[j], k, ks[0]);
        }
      }
    } else {
      InsertSorted(ks[1..], k);
      InsertContents(ks[1..], k);
      LessTotal(ks[0], k);
      forall j | 0 < j < |r| ensures !Less(r[j], ks[0]) {
        assert r[j] in multiset(Insert(ks[1..], k));
        if r[j] != k {
          var i :| 0 <= i < |ks[1..]| && ks[1..][i] == r[j];
          assert !Less(ks[i + 1], ks[0]);
        }
      }
    }
  }

  function SortKeys(ks: seq<Key>): seq<Key> {
    if ks == [] then [] else Insert(SortKeys(ks[1..]), ks[0])
  }

  lemma {:induction false} SortKeysSorts(ks: seq<Key>)
    ensures Sorted(SortKeys(ks)) && multiset(SortKeys(ks)) == multiset(ks)
  {
    hide Insert;
    if ks != [] {
      SortKeysSorts(ks[1..]);
      InsertSorted(SortKeys(ks[1..]), ks[0]);
      InsertContents(SortKeys(ks[1..]), ks[0]);
      assert ks == [ks[0]] + ks[1..];
    }
  }

  /** The head of a sorted list is a least element. */
  lemma HeadIsLeast(a: seq<Key>, k: Key)
    requires Sorted(a) && k in a
    ensures !Less(k, a[0])
  {
    hide Less;
    LessTotal(k, k);
    var i :| 0 <= i < |a| && a[i] == k;
    assert i > 0 ==> !Less(a[i], a[0]);
  }

  lemma TailContents(a: seq<Key>, x: Key)
    requires a != [] && a[0] == x
    ensures multiset(a[1..]) == multiset(a) - multiset{x}
  {
    assert a == [x] + a[1..];
  }

  /** Sorting has one outcome: equal contents, equal lists. */
  lemma {:induction false} SortedUnique(a: seq<Key>, b: seq<Key>)
    requires Sorted(a) && Sorted(b) && multiset(a) == multiset(b)
    ensures a == b
    decreases |a|
  {
    hide Less;
    assert |a| == |multiset(a)| == |multiset(b)| == |b|;
    if a != [] {
      var x, y := a[0], b[0];
      assert x in multiset(b) && y in multiset(a);
      HeadIsLeast(a, y);
      HeadIsLeast(b, x);
      LessTotal(x, y);
      TailContents(a, x);
      TailContents(b, x);
      SortedUnique(a[1..], b[1..]);
      assert a == [x] + a[1..] && b == [x] + b[1..];
    }
  }

  // ----- the verdict -----

  /** `theyWinTiebreak` on sorted keys: the first differing record decides and the smaller one
      wins; past a common prefix the longer list wins. */
  predicate TheyWin(our: seq<Key>, their: seq<Key>) {
    if our == [] || their == [] then |their| > |our|
    else if Less(our[0], their[0]) then false
    else if Less(their[0], our[0]) then true
    else TheyWin(our[1..], their[1..])
  }

  /** The first record that differs decides, and the smaller one wins; without a difference the longer
      list wins. */
  lemma {:induction false} VerdictIff(our: seq<Key>, their: seq<Key>)
    ensures TheyWin(our, their) <==> exists k: nat :: Decides(our, their, k)
    decreases |our|
  {
    hide Less;
    HeadsAgree(our, their);
    if our != [] && their != [] {
      LessTotal(our[0], their[0]);
      if our[0] == their[0] {
        VerdictIff(our[1..], their[1..]);
        if k: nat :| Decides(our[1..], their[1..], k) {
          assert our[..k + 1] == [our[0]] + our[1..][..k] && their[..k + 1] == [their[0]] + their[1..][..k];
          assert Decides(our, their, k + 1);
        }
        LessTotal(our[0], our[0]);
        if k: nat :| Decides(our, their, k) {
          assert k > 0;
          assert our[1..][..k - 1] == our[..k][1..] && their[1..][..k - 1] == their[..k][1..];
          assert Decides(our[1..], their[1..], k - 1);
        }
      } else {
        assert our[..0] == their[..0];
        assert Less(their[0], our[0]) ==> Decides(our, their, 0);
      }
    } else {
      assert our[..0] == their[..0];
      assert |their| > |our| ==> Decides(our, their, 0);
    }
  }

  /** The lists agree before position `k`, where theirs has the smaller record or the only one. */
  ghost predicate Decides(our: seq<Key>, their: seq<Key>, k: nat) {
    && k <= |our| && k < |their| && our[..k] == their[..k]
    && (k == |our| || Less(their[k], our[k]))
  }

  /** Never both, and neither only on equal lists. */
  lemma {:induction false} VerdictTotal(a: seq<Key>, b: seq<Key>)
    ensures !(TheyWin(a, b) && TheyWin(b, a))
    ensures !TheyWin(a, b) && !TheyWin(b, a) <==> a == b
    decreases |a|
  {
    hide Less;
    if a != [] && b != [] {
      LessTotal(a[0], b[0]);
      if a[0] == b[0] {
        VerdictTotal(a[1..], b[1..]);
        assert a == [a[0]] + a[1..] && b == [b[0]] + b[1..];
      }
    }
  }

  lemma {:induction false} VerdictTransitive(a: seq<Key>, b: seq<Key>, c: seq<Key>)
    requires TheyWin(a, b) && TheyWin(b, c)
    ensures TheyWin(a, c)
    decreases |a|
  {
    hide Less;
    if a != [] {
      LessTotal(a[0], b[0]);
      if c != [] {
        LessTotal(b[0], c[0]);
        LessTotal(a[0], c[0]);
        if Less(c[0], b[0]) && Less(b[0], a[0]) {
          LessTransitive(c[0], b[0], a[0]);
        } else if a[0] == b[0] == c[0] {
          VerdictTransitive(a[1..], b[1..], c[1..]);
        }
      }
    }
  }

  /** The order of records in either message does not matter, nor which sort is used. */
  lemma VerdictIgnoresOrder(our: seq<Record>, our': seq<Record>, their: seq<Record>, their': seq<Record>,
                            a: seq<Key>, a': seq<Key>, b: seq<Key>, b': seq<Key>)
    requires multiset(Keys(our)) == multiset(Keys(our')) && multiset(Keys(their)) == multiset(Keys(their'))
    requires SortedKeysOf(our, a) && SortedKeysOf(our', a') && SortedKeysOf(their, b) && SortedKeysOf(their', b')
    ensures TheyWin(a, b) == TheyWin(a', b')
  {
    SortedUnique(a, a');
    SortedUnique(b, b');
  }

  // ----- messages and hosts -----

  datatype Message = Message(questions: seq<string>, ns: seq<Record>)

  /** The probe `runProbe` sends: the records in the authority section with TTL 255. */
  function Probe(name: string, records: seq<Record>): Message {
    Message([name], seq(|records|, i requires 0 <= i < |records| => records[i].(ttl := PROBE_TTL)))
  }

  function Named(rs: seq<Record>, name: string): seq<Record> {
    if rs == [] then []
    else Named(rs[..|rs| - 1], name) + if SameName(rs[|rs| - 1].name, name) then [rs[|rs| - 1]] else []
  }

  /** The records of that name, all of them and in order. */
  lemma {:induction false} NamedInOrder(rs: seq<Record>, name: string) returns (idx: seq<nat>)
    ensures |idx| == |Named(rs, name)| && forall i, j :: 0 <= i < j < |idx| ==> idx[i] < idx[j]
    ensures forall k :: 0 <= k < |idx| ==> idx[k] < |rs| && Named(rs, name)[k] == rs[idx[k]]
    ensures forall i :: 0 <= i < |rs| ==> (i in idx <==> SameName(rs[i].name, name))
  {
    hide SameName;
    if rs == [] {
      idx := [];
    } else {
      var n := |rs| - 1;
      var init := rs[..n];
      idx := NamedInOrder(init, name);
      assert forall i :: 0 <= i < n ==> init[i] == rs[i];
      assert Named(rs, name) == Named(init, name) + if SameName(rs[n].name, name) then [rs[n]] else [];
      hide Named;
      if SameName(rs[n].name, name) {
        idx := idx + [n];
      }
    }
  }

  predicate AsksFor(m: Message, name: string) {
    exists i :: 0 <= i < |m.questions| && SameName(m.questions[i], name)
  }

  /** Whether a message makes a probing host record a conflict. */
  predicate Conflicts(name: string, records: seq<Record>, m: Message) {
    && AsksFor(m, name)
    && Named(m.ns, name) != []
    && TheyWin(SortKeys(Keys(records)), SortKeys(Keys(Named(m.ns, name))))
  }

  class Host {
    const probeName: string
    var records: seq<Record>
    var conflictDetected: bool

    constructor (probeName: string, records: seq<Record>)
      ensures this.probeName == probeName && this.records == records && !conflictDetected
    {
      this.probeName, this.records, conflictDetected := probeName, records, false;
    }

    /** The comparison loop over two sorted lists. */
    method CompareSorted(our: seq<Key>, their: seq<Key>) returns (they: bool)
      ensures they == TheyWin(our, their)
    {
      hide Less;
      var i := 0;
      while i < |our| && i < |their|
        invariant i <= |our| && i <= |their|
        invariant TheyWin(our[i..], their[i..]) == TheyWin(our, their)
      {
        if Less(our[i], their[i]) {
          return false;
        }
        if Less(their[i], our[i]) {
          return true;
        }
        assert our[i..][1..] == our[i + 1..] && their[i..][1..] == their[i + 1..];
        i := i + 1;
      }
      return |their| > |our|;
    }

    method HandleProbeTiebreak(m: Message)
      modifies this`conflictDetected
      ensures conflictDetected == (old(conflictDetected) || Conflicts(probeName, records, m))
    {
      hide TheyWin, SortKeys, Keys, SameName;
      var asking := false;
      for i := 0 to |m.questions|
        invariant asking <==> exists j :: 0 <= j < i && SameName(m.questions[j], probeName)
      {
        if SameName(m.questions[i], probeName) {
          asking := true;
        }
      }
      if !asking {
        return;
      }
      var their := [];
      for i := 0 to |m.ns|
        invariant their == Named(m.ns[..i], probeName)
      {
        assert m.ns[..i + 1][..i] == m.ns[..i];
        if SameName(m.ns[i].name, probeName) {
          their := their + [m.ns[i]];
        }
      }
      assert m.ns[..|m.ns|] == m.ns;
      if their == [] {
        return;
      }
      var they := CompareSorted(SortKeys(Keys(records)), SortKeys(Keys(their)));
      if they {
        conflictDetected := true;
      }
    }
  }

  lemma {:induction false} NamedKeepsAll(rs: seq<Record>, name: string)
    requires forall i :: 0 <= i < |rs| ==> SameName(rs[i].name, name)
    ensures Named(rs, name) == rs
  {
    hide SameName;
    if rs != [] {
      NamedKeepsAll(rs[..|rs| - 1], name);
      assert rs == rs[..|rs| - 1] + [rs[|rs| - 1]];
    }
  }

  ghost function Standing(rs: seq<Record>): seq<Key> { SortKeys(Keys(rs)) }

  /** A probe for the same name conflicts exactly when its records win. */
  lemma ProbeConflictIff(name: string, ours: seq<Record>, theirs: seq<Record>)
    requires theirs != [] && forall i :: 0 <= i < |theirs| ==> SameName(theirs[i].name, name)
    ensures Conflicts(name, ours, Probe(name, theirs)) <==> TheyWin(Standing(ours), Standing(theirs))
  {
    hide SameName, SortKeys, TheyWin;
    var m := Probe(name, theirs);
    assert SameName(m.questions[0], name) by { SelfNamed(name); }
    forall i | 0 <= i < |m.ns| ensures SameName(m.ns[i].name, name) {
      assert m.ns[i].name == theirs[i].name;
    }
    NamedKeepsAll(m.ns, name);
    assert Keys(m.ns) == Keys(theirs);
  }

  lemma SelfNamed(name: string)
    ensures SameName(name, name)
  {
  }

  /** Hosts that probe for one name with nonempty, pairwise different record sets. */
  ghost predicate Rivals(name: string, hosts: seq<seq<Record>>) {
    && (forall i :: 0 <= i < |hosts| ==> hosts[i] != [] && forall k :: 0 <= k < |hosts[i]| ==>
        SameName(hosts[i][k].name, name))
    && forall i, j :: 0 <= i < j < |hosts| ==> multiset(Keys(hosts[i])) != multiset(Keys(hosts[j]))
  }

  /** Host `i` records no conflict after hearing every probe. */
  ghost predicate Keeps(name: string, hosts: seq<seq<Record>>, i: nat)
    requires i < |hosts|
  {
    forall j :: 0 <= j < |hosts| ==> !Conflicts(name, hosts[i], Probe(name, hosts[j]))
  }

  /** Index of the list that wins against all others. */
  lemma {:induction false} Champion(hosts: seq<seq<Key>>) returns (c: nat)
    requires hosts != []
    ensures c < |hosts| && forall j :: 0 <= j < |hosts| ==> !TheyWin(hosts[c], hosts[j])
  {
    hide TheyWin;
    var n := |hosts| - 1;
    if n == 0 {
      c := 0;
      VerdictTotal(hosts[0], hosts[0]);
    } else {
      var init := hosts[..n];
      c := Champion(init);
      if TheyWin(hosts[c], hosts[n]) {
        forall j | 0 <= j < |hosts| ensures !TheyWin(hosts[n], hosts[j]) {
          if j == n {
            VerdictTotal(hosts[n], hosts[n]);
          } else {
            assert init[j] == hosts[j] && !TheyWin(hosts[c], hosts[j]);
            if TheyWin(hosts[n], hosts[j]) {
              VerdictTransitive(hosts[c], hosts[n], hosts[j]);
            }
          }
        }
        c := n;
      } else {
        forall j | 0 <= j < |hosts| ensures !TheyWin(hosts[c], hosts[j]) {
          if j < n { assert init[j] == hosts[j]; }
        }
      }
    }
  }

  ghost function Standings(hosts: seq<seq<Record>>): (r: seq<seq<Key>>)
    ensures |r| == |hosts|
  {
    seq(|hosts|, i requires 0 <= i < |hosts| => Standing(hosts[i]))
  }

  lemma StandingsDiffer(a: seq<Record>, b: seq<Record>)
    requires multiset(Keys(a)) != multiset(Keys(b))
    ensures Standing(a) != Standing(b)
  {
    SortKeysSorts(Keys(a));
    SortKeysSorts(Keys(b));
  }

  /** Among any number of mutually probing hosts exactly one keeps the name. */
  lemma ExactlyOneKeeps(name: string, hosts: seq<seq<Record>>)
    requires hosts != [] && Rivals(name, hosts)
    ensures exists c: nat :: c < |hosts| && Keeps(name, hosts, c) && forall i: nat :: i < |hosts| && i != c ==>
              !Keeps(name, hosts, i)
  {
    hide TheyWin, SameName, Conflicts, Probe, SortKeys;
    var st := Standings(hosts);
    var c := Champion(st);
    forall i, j | 0 <= i < |hosts| && 0 <= j < |hosts|
      ensures Conflicts(name, hosts[i], Probe(name, hosts[j])) <==> TheyWin(st[i], st[j])
    {
      ProbeConflictIff(name, hosts[i], hosts[j]);
    }
    assert Keeps(name, hosts, c);
    forall i: nat | i < |hosts| && i != c
      ensures !Keeps(name, hosts, i)
    {
      if i < c { StandingsDiffer(hosts[i], hosts[c]); } else { StandingsDiffer(hosts[c], hosts[i]); }
      VerdictTotal(st[i], st[c]);
      assert Conflicts(name, hosts[i], Probe(name, hosts[c]));
    }
  }
}
