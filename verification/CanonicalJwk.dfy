/** The stored form of an account key: sorted, compact JSON of a flat object with string values. */
module CanonicalJwk {
  import opened Wrappers
  import opened JsonText

  datatype Member = Member(key: Text, value: Text)

  /** A Python dict: members in insertion order, no key twice. */
  predicate IsDict(d: seq<Member>) {
    forall i, j | 0 <= i < j < |d| :: d[i].key != d[j].key
  }

  function Put(acc: map<Text, Text>, ms: seq<Member>): map<Text, Text>
    decreases |ms|
  {
    if ms == [] then acc else Put(acc[ms[0].key := ms[0].value], ms[1..])
  }

  /** The members of a dict, without their order. */
  function Members(d: seq<Member>): map<Text, Text> {
    Put(map[], d)
  }

  // ----- canonical_jwk

  /** Order of the sorted keys: by code point. */
  predicate Less(a: Text, b: Text) {
    b != [] && (a == [] || a[0] < b[0] || (a[0] == b[0] && Less(a[1..], b[1..])))
  }

  function Insert(m: Member, ms: seq<Member>): seq<Member> {
    if ms == [] || Less(m.key, ms[0].key) then [m] + ms else [ms[0]] + Insert(m, ms[1..])
  }

  function Sort(d: seq<Member>): seq<Member> {
    if d == [] then [] else Insert(d[0], Sort(d[1..]))
  }

  function MemberText(m: Member): string {
    Quote(m.key) + ":" + Quote(m.value)
  }

  function MembersText(ms: seq<Member>): string {
    if ms == [] then "" else if |ms| == 1 then MemberText(ms[0]) else MemberText(ms[0]) + "," + MembersText(ms[1..])
  }

  function Canonical(d: seq<Member>): string {
    "{" + MembersText(Sort(d)) + "}"
  }

  // ----- json.loads, on an object of strings without whitespace

  function ReadMember(s: string): (r: Option<(Member, string)>)
    ensures r.Some? ==> |r.value.1| < |s|
  {
    if s == "" || s[0] != '"' then None else
    match ReadText(s[1..])
    case None => None
    case Some((key, r)) =>
      if |r| < 2 || r[0] != ':' || r[1] != '"' then None else
      match ReadText(r[2..])
      case None => None
      case Some((value, r')) => Some((Member(key, value), r'))
  }

  /** The members in the order in which they are read; a name may come twice. */
  function ReadMembers(s: string): Option<seq<Member>>
    decreases |s|
  {
    match ReadMember(s)
    case None => None
    case Some((m, r)) =>
      if r == "}" then Some([m])
      else if r != "" && r[0] == ',' then
        match ReadMembers(r[1..])
        case None => None
        case Some(ms) => Some([m] + ms)
      else None
  }

  function ReadObject(s: string): Option<seq<Member>> {
    if s == "{}" then Some([]) else if s != "" && s[0] == '{' then ReadMembers(s[1..]) else None
  }

  /** json.loads: of members with one name the last remains. */
  function Parse(s: string): Option<map<Text, Text>> {
    match ReadObject(s) case None => None case Some(ms) => Some(Put(map[], ms))
  }

  // ----- what reading back gives

  function JoinedMember(m: Member): Member {
    Member(Joined(m.key), Joined(m.value))
  }

  function JoinedMembers(ms: seq<Member>): seq<Member> {
    if ms == [] then [] else [JoinedMember(ms[0])] + JoinedMembers(ms[1..])
  }

  lemma ReadsMember(m: Member, rest: string)
    ensures ReadMember(MemberText(m) + rest) == Some((JoinedMember(m), rest))
  {
    var afterKey := ":\"" + Tail(m.value, rest);
    MemberTextSplits(m, rest);
    ReadsQuoted(m.key, afterKey);
    assert afterKey[2..] == Tail(m.value, rest);
    ReadsQuoted(m.value, rest);
  }

  lemma MemberTextSplits(m: Member, rest: string)
    ensures MemberText(m) + rest == "\"" + Tail(m.key, ":\"" + Tail(m.value, rest))
    ensures (MemberText(m) + rest)[1..] == Tail(m.key, ":\"" + Tail(m.value, rest))
  {
    var k, v, q := EscapeAll(m.key), EscapeAll(m.value), "\"";
    Regroup(q + k, q, ":" + (q + v + q), rest);
    Regroup(q, v, q, rest);
    var after := ":" + (q + (v + (q + rest)));
    Regroup(q, k, q, after);
  }

  lemma {:induction false} ReadsMembers(ms: seq<Member>)
    requires ms != []
    ensures ReadMembers(MembersText(ms) + "}") == Some(JoinedMembers(ms))
  {
    if |ms| == 1 {
      ReadsMember(ms[0], "}");
      assert JoinedMembers(ms) == [JoinedMember(ms[0])];
    } else {
      ReadsMembers(ms[1..]);
      MembersTextSplits(ms);
      ReadsMember(ms[0], "," + (MembersText(ms[1..]) + "}"));
      ReadMembersStep(MemberText(ms[0]), MembersText(ms[1..]) + "}", JoinedMember(ms[0]), JoinedMembers(ms[1..]));
    }
  }

  lemma MembersTextSplits(ms: seq<Member>)
    requires |ms| >= 2
    ensures MembersText(ms) + "}" == MemberText(ms[0]) + ("," + (MembersText(ms[1..]) + "}"))
  {
    Regroup(MemberText(ms[0]), ",", MembersText(ms[1..]), "}");
  }

  lemma Regroup(a: string, b: string, c: string, d: string)
    ensures (a + b + c) + d == a + (b + (c + d))
  {
  }

  lemma ReadMembersStep(head: string, tail: string, m: Member, ms: seq<Member>)
    requires ReadMember(head + ("," + tail)) == Some((m, "," + tail)) && ReadMembers(tail) == Some(ms)
    ensures ReadMembers(head + ("," + tail)) == Some([m] + ms)
  {
    assert ("," + tail)[1..] == tail;
  }

  /** Parsing the stored text always succeeds, and gives the sorted members with their split pairs joined. */
  lemma ParsesCanonical(d: seq<Member>)
    ensures ReadObject(Canonical(d)) == Some(JoinedMembers(Sort(d)))
    ensures Parse(Canonical(d)) == Some(Members(JoinedMembers(Sort(d))))
  {
    if Sort(d) != [] {
      ReadsMembers(Sort(d));
      ParseOpens(Sort(d));
    }
  }

  lemma ParseOpens(ms: seq<Member>)
    requires ms != []
    ensures ReadObject("{" + MembersText(ms) + "}") == ReadMembers(MembersText(ms) + "}")
  {
    assert |MemberText(ms[0])| >= 1;
    var s := "{" + MembersText(ms) + "}";
    assert s[1..] == MembersText(ms) + "}";
    assert s != "{}" by { assert |s| > 2; }
  }

  // ----- the sort

  lemma {:induction false} LessTotal(a: Text, b: Text)
    ensures Less(a, b) || a == b || Less(b, a)
    ensures !(Less(a, b) && Less(b, a)) && (a == b ==> !Less(a, b))
  {
    if a != [] && b != [] {
      LessTotal(a[1..], b[1..]);
      assert a == [a[0]] + a[1..] && b == [b[0]] + b[1..];
    }
  }

  lemma {:induction false} LessTransitive(a: Text, b: Text, c: Text)
    requires Less(a, b) && Less(b, c)
    ensures Less(a, c)
  {
    if a != [] && a[0] == b[0] && b[0] == c[0] {
      LessTransitive(a[1..], b[1..], c[1..]);
    }
  }

  predicate Sorted(ms: seq<Member>) {
    forall i, j | 0 <= i < j < |ms| :: Less(ms[i].key, ms[j].key)
  }

  predicate NewKey(key: Text, ms: seq<Member>) {
    forall i | 0 <= i < |ms| :: ms[i].key != key
  }

  lemma {:induction false} InsertSorted(m: Member, ms: seq<Member>)
    requires Sorted(ms) && NewKey(m.key, ms)
    ensures Sorted(Insert(m, ms)) && forall x :: x in Insert(m, ms) <==> x == m || x in ms
  {
    if ms != [] && !Less(m.key, ms[0].key) {
      InsertSorted(m, ms[1..]);
      LessTotal(m.key, ms[0].key);
      var tail := Insert(m, ms[1..]);
      forall j | 0 <= j < |tail| ensures Less(ms[0].key, tail[j].key) {
        assert tail[j] in tail;
        if tail[j] != m {
          var k :| 0 <= k < |ms[1..]| && ms[1..][k] == tail[j];
          assert Less(ms[0].key, ms[k + 1].key);
        }
      }
      assert ms == [ms[0]] + ms[1..];
    } else if ms != [] {
      forall j | 0 <= j < |ms| ensures Less(m.key, ms[j].key) {
        if j > 0 {
          LessTransitive(m.key, ms[0].key, ms[j].key);
        }
      }
    }
  }

  lemma {:induction false} SortSorts(d: seq<Member>)
    requires IsDict(d)
    ensures Sorted(Sort(d)) && forall x :: x in Sort(d) <==> x in d
  {
    if d != [] {
      SortSorts(d[1..]);
      forall i | 0 <= i < |Sort(d[1..])| ensures Sort(d[1..])[i].key != d[0].key {
        assert Sort(d[1..])[i] in d[1..];
        var k :| 0 <= k < |d[1..]| && d[1..][k] == Sort(d[1..])[i];
        assert d[k + 1].key != d[0].key;
      }
      InsertSorted(d[0], Sort(d[1..]));
      assert d == [d[0]] + d[1..];
    }
  }

  lemma SortedIsDict(ms: seq<Member>)
    requires Sorted(ms)
    ensures IsDict(ms)
  {
    forall i, j | 0 <= i < j < |ms| ensures ms[i].key != ms[j].key {
      LessTotal(ms[i].key, ms[j].key);
    }
  }

  /** Two sorted sequences with the same members are the same sequence. */
  lemma {:induction false} SortedUnique(s: seq<Member>, t: seq<Member>)
    requires Sorted(s) && Sorted(t) && forall x :: x in s <==> x in t
    ensures s == t
  {
    if t != [] {
      assert t[0] in s;
    }
    if s != [] {
      assert s[0] in t && t != [];
      if s[0] != t[0] {
        var i :| 0 <= i < |t| && t[i] == s[0];
        var j :| 0 <= j < |s| && s[j] == t[0];
        assert Less(t[0].key, s[0].key) && Less(s[0].key, t[0].key);
        LessTotal(s[0].key, t[0].key);
        assert false;
      }
      SortedTail(s);
      SortedTail(t);
      SortedUnique(s[1..], t[1..]);
    }
  }

  lemma SortedTail(s: seq<Member>)
    requires Sorted(s) && s != []
    ensures Sorted(s[1..]) && forall x :: x in s[1..] <==> x in s && x != s[0]
  {
    SortedIsDict(s);
    forall x | x in s && x != s[0] ensures x in s[1..] {
      var k :| 0 <= k < |s| && s[k] == x;
      assert s[1..][k - 1] == x;
    }
  }

  // ----- members

  lemma {:induction false} PutHolds(acc: map<Text, Text>, ms: seq<Member>)
    requires IsDict(ms)
    ensures forall i | 0 <= i < |ms| :: ms[i].key in Put(acc, ms) && Put(acc, ms)[ms[i].key] == ms[i].value
    ensures forall k | k in Put(acc, ms) && NewKey(k, ms) :: k in acc && Put(acc, ms)[k] == acc[k]
    ensures forall k | k in acc && NewKey(k, ms) :: k in Put(acc, ms) && Put(acc, ms)[k] == acc[k]
    decreases |ms|
  {
    if ms != [] {
      var acc', t := acc[ms[0].key := ms[0].value], ms[1..];
      PutHolds(acc', t);
      assert NewKey(ms[0].key, t);
      forall i | 0 <= i < |ms| ensures ms[i].key in Put(acc, ms) && Put(acc, ms)[ms[i].key] == ms[i].value {
        if i > 0 {
          assert t[i - 1] == ms[i];
        }
      }
      forall k | NewKey(k, ms) ensures NewKey(k, t) && k != ms[0].key {
        assert forall i | 0 <= i < |t| :: t[i] == ms[i + 1];
      }
    }
  }

  /** Of members with one name the last remains. */
  lemma {:induction false} LastWins(acc: map<Text, Text>, ms: seq<Member>, m: Member)
    ensures Put(acc, ms + [m]) == Put(acc, ms)[m.key := m.value]
    decreases |ms|
  {
    if ms == [] {
      assert ms + [m] == [m];
    } else {
      assert (ms + [m])[1..] == ms[1..] + [m];
      LastWins(acc[ms[0].key := ms[0].value], ms[1..], m);
    }
  }

  lemma SameEntries(d: seq<Member>, e: seq<Member>)
    requires IsDict(d) && IsDict(e)
    ensures Members(d) == Members(e) <==> forall x :: x in d <==> x in e
  {
    PutHolds(map[], d);
    PutHolds(map[], e);
    if Members(d) == Members(e) {
      EntriesIn(d, e);
      EntriesIn(e, d);
    }
    if forall x :: x in d <==> x in e {
      MembersIn(d, e);
      MembersIn(e, d);
    }
  }

  lemma EntriesIn(d: seq<Member>, e: seq<Member>)
    requires IsDict(d) && IsDict(e) && Members(d) == Members(e)
    ensures forall x | x in d :: x in e
  {
    PutHolds(map[], d);
    PutHolds(map[], e);
    forall x | x in d ensures x in e {
      assert x.key in Members(e);
      assert !NewKey(x.key, e);
    }
  }

  lemma MembersIn(d: seq<Member>, e: seq<Member>)
    requires IsDict(d) && IsDict(e) && forall x | x in d :: x in e
    ensures forall k | k in Members(d) :: k in Members(e) && Members(e)[k] == Members(d)[k]
  {
    PutHolds(map[], d);
    PutHolds(map[], e);
    forall k | k in Members(d) ensures k in Members(e) && Members(e)[k] == Members(d)[k] {
      assert !NewKey(k, d);
      var i :| 0 <= i < |d| && d[i].key == k;
      assert d[i] in e;
    }
  }

  /** Field order never matters: dicts with the same members have the same stored text. */
  lemma OrderIrrelevant(d: seq<Member>, e: seq<Member>)
    requires IsDict(d) && IsDict(e) && Members(d) == Members(e)
    ensures Canonical(d) == Canonical(e)
  {
    SameEntries(d, e);
    SortSorts(d);
    SortSorts(e);
    SortedUnique(Sort(d), Sort(e));
  }

  // ----- the round trip

  predicate AllUnsplit(d: seq<Member>) {
    forall i | 0 <= i < |d| :: Unsplit(d[i].key) && Unsplit(d[i].value)
  }

  lemma {:induction false} JoinedMembersSame(ms: seq<Member>)
    requires AllUnsplit(ms)
    ensures JoinedMembers(ms) == ms
  {
    if ms != [] {
      JoinedShrinks(ms[0].key);
      JoinedShrinks(ms[0].value);
      JoinedMembersSame(ms[1..]);
    }
  }

  lemma {:induction false} PutUnsplit(acc: map<Text, Text>, ms: seq<Member>)
    requires forall k | k in acc :: Unsplit(k) && Unsplit(acc[k])
    ensures var r := Put(acc, JoinedMembers(ms)); forall k | k in r :: Unsplit(k) && Unsplit(r[k])
    decreases |ms|
  {
    if ms != [] {
      var j := JoinedMember(ms[0]);
      JoinedUnsplit(ms[0].key);
      JoinedUnsplit(ms[0].value);
      assert JoinedMembers(ms)[1..] == JoinedMembers(ms[1..]);
      PutUnsplit(acc[j.key := j.value], ms[1..]);
    }
  }

  /**
   Storing and loading a key undoes itself exactly when no name and no value of it holds a high surrogate
   directly followed by a low one; such a pair is loaded as the one code point it encodes.
   */
  lemma RoundTrip(d: seq<Member>)
    requires IsDict(d)
    ensures Parse(Canonical(d)) == Some(Members(d)) <==> AllUnsplit(d)
  {
    ParsesCanonical(d);
    SortSorts(d);
    SortedIsDict(Sort(d));
    if AllUnsplit(d) {
      forall i | 0 <= i < |Sort(d)| ensures Unsplit(Sort(d)[i].key) && Unsplit(Sort(d)[i].value) {
        assert Sort(d)[i] in d;
      }
      JoinedMembersSame(Sort(d));
      SameEntries(Sort(d), d);
    } else {
      PutUnsplit(map[], Sort(d));
      PutHolds(map[], d);
    }
  }

  lemma {:induction false} JoinedMembersText(ms: seq<Member>)
    ensures MembersText(JoinedMembers(ms)) == MembersText(ms)
  {
    if ms != [] {
      JoinedEscapes(ms[0].key);
      JoinedEscapes(ms[0].value);
      JoinedMembersText(ms[1..]);
      assert JoinedMembers(ms)[1..] == JoinedMembers(ms[1..]);
    }
  }

  /** Two keys are stored alike exactly when joining their split pairs leaves the same sorted members. */
  lemma SameTextExactly(d: seq<Member>, e: seq<Member>)
    ensures Canonical(d) == Canonical(e) <==> JoinedMembers(Sort(d)) == JoinedMembers(Sort(e))
  {
    ParsesCanonical(d);
    ParsesCanonical(e);
    JoinedMembersText(Sort(d));
    JoinedMembersText(Sort(e));
  }

  /** So among keys without split pairs, the stored text identifies the members. */
  lemma TextIdentifiesMembers(d: seq<Member>, e: seq<Member>)
    requires IsDict(d) && IsDict(e) && AllUnsplit(d) && AllUnsplit(e)
    ensures Canonical(d) == Canonical(e) <==> Members(d) == Members(e)
  {
    RoundTrip(d);
    RoundTrip(e);
    if Members(d) == Members(e) {
      OrderIrrelevant(d, e);
    }
  }

  /** Without that condition it does not: a split pair and the code point it encodes are stored alike. */
  lemma SplitPairCollides()
    ensures var d, e := [Member([0x6B], [0xD83D, 0xDE00])], [Member([0x6B], [0x1F600])];
            IsDict(d) && IsDict(e) && Members(d) != Members(e) && Canonical(d) == Canonical(e)
  {
    var d, e := [Member([0x6B], [0xD83D, 0xDE00])], [Member([0x6B], [0x1F600])];
    assert Sort(d) == d && Sort(e) == e;
    PutHolds(map[], d);
    PutHolds(map[], e);
    JoinedEscapes([0xD83D, 0xDE00]);
    assert Joined([0xD83D, 0xDE00]) == [0x1F600];
  }

  // ----- what is stored

  /** In code point order: at the first difference `a` has the smaller code point, or `a` ends there. */
  ghost predicate Before(a: Text, b: Text) {
    exists p | 0 <= p <= |a| && p < |b| :: a[..p] == b[..p] && (p == |a| || a[p] < b[p])
  }

  lemma {:induction false} LessIsBefore(a: Text, b: Text)
    requires Less(a, b)
    ensures Before(a, b)
  {
    if a == [] {
      assert a[..0] == b[..0];
    } else if a[0] < b[0] {
      assert a[..0] == b[..0];
    } else {
      LessIsBefore(a[1..], b[1..]);
      var p :| 0 <= p <= |a[1..]| && p < |b[1..]| && a[1..][..p] == b[1..][..p]
               && (p == |a[1..]| || a[1..][p] < b[1..][p]);
      assert a[..p + 1] == [a[0]] + a[1..][..p] && b[..p + 1] == [b[0]] + b[1..][..p];
    }
  }

  /** The members are stored in the order of their names, all of them and nothing else. */
  lemma StoredInOrder(d: seq<Member>)
    requires IsDict(d)
    ensures forall i, j | 0 <= i < j < |Sort(d)| :: Before(Sort(d)[i].key, Sort(d)[j].key)
    ensures forall m :: m in Sort(d) <==> m in d
  {
    SortSorts(d);
    forall i, j | 0 <= i < j < |Sort(d)| ensures Before(Sort(d)[i].key, Sort(d)[j].key) {
      LessIsBefore(Sort(d)[i].key, Sort(d)[j].key);
    }
  }

  /** Compact JSON: braces, quotes, colons and commas, and nothing between them. */
  lemma {:induction false} Compact(ms: seq<Member>)
    ensures MembersText(ms) == if |ms| == 0 then "" else
              "\"" + EscapeAll(ms[0].key) + "\":\"" + EscapeAll(ms[0].value) + "\""
              + if |ms| == 1 then "" else "," + MembersText(ms[1..])
  {
    if ms != [] {
      var k, v, q := EscapeAll(ms[0].key), EscapeAll(ms[0].value), "\"";
      Regroup(q + k, q, ":", q + v + q);
      assert q + ":" + q == "\":\"";
      assert MemberText(ms[0]) == q + k + "\":\"" + v + q;
    }
  }

  lemma Braces(d: seq<Member>)
    ensures var s, n := Canonical(d), |Canonical(d)|;
            n >= 2 && s[0] == '{' && s[n - 1] == '}' && s[1..n - 1] == MembersText(Sort(d))
  {
  }
}
