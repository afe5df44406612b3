/** Which DNS zone a domain's challenge record goes to, and the record's name inside that zone. */
module Zones {

  function StripDots(s: string): string {
    if s != "" && s[|s| - 1] == '.' then StripDots(s[..|s| - 1]) else s
  }

  predicate EndsWith(s: string, t: string) {
    |t| <= |s| && s[|s| - |t|..] == t
  }

  /** `z` is `d` or a suffix of it that begins at a label boundary. */
  predicate Under(d: string, z: string) {
    d == z || EndsWith(d, "." + z)
  }

  function Split(s: string): (labels: seq<string>)
    ensures labels != []
  {
    if s == "" then [""]
    else if s[0] == '.' then [""] + Split(s[1..])
    else var rest := Split(s[1..]); [[s[0]] + rest[0]] + rest[1..]
  }

  function Join(labels: seq<string>): string {
    if labels == [] then "" else if |labels| == 1 then labels[0] else labels[0] + "." + Join(labels[1..])
  }

  function LastTwoLabels(d: string): string {
    var labels := Split(d);
    Join(if |labels| <= 2 then labels else labels[|labels| - 2..])
  }

  function Matches(d: string, zones: seq<string>): seq<string> {
    if zones == [] then [] else (if Under(d, zones[0]) then [zones[0]] else []) + Matches(d, zones[1..])
  }

  /** Python's max(..., key=len): the first of the longest. */
  function Longest(zones: seq<string>): string
    requires zones != []
  {
    if |zones| == 1 then zones[0] else
    var best := Longest(zones[..|zones| - 1]);
    if |zones[|zones| - 1]| > |best| then zones[|zones| - 1] else best
  }

  /** _apex_domain. */
  function Apex(domain: string, overrides: seq<string>): string {
    var d := StripDots(domain);
    if Matches(d, overrides) != [] then Longest(Matches(d, overrides)) else LastTwoLabels(d)
  }

  function ChallengeName(domain: string): string {
    "_acme-challenge" + "." + domain
  }

  function RemoveSuffix(s: string, t: string): string {
    if EndsWith(s, t) then s[..|s| - |t|] else s
  }

  /** The name a provider gives the record inside the zone. */
  function RelativeName(domain: string, overrides: seq<string>): string {
    RemoveSuffix(ChallengeName(domain), "." + Apex(domain, overrides))
  }

  predicate NoTrailingDot(domain: string) {
    domain == "" || domain[|domain| - 1] != '.'
  }

  // ----- labels

  lemma {:induction false} JoinSplit(s: string)
    ensures Join(Split(s)) == s
  {
    if s != "" {
      JoinSplit(s[1..]);
      var rest := Split(s[1..]);
      if s[0] != '.' && |rest| > 1 {
        assert ([[s[0]] + rest[0]] + rest[1..])[1..] == rest[1..];
      }
      assert s == [s[0]] + s[1..];
    }
  }

  predicate DotFree(part: string) {
    forall k | 0 <= k < |part| :: part[k] != '.'
  }

  lemma {:induction false} SplitDotFree(s: string)
    ensures forall k | 0 <= k < |Split(s)| :: DotFree(Split(s)[k])
  {
    if s != "" {
      SplitDotFree(s[1..]);
    }
  }

  lemma {:induction false} SplitLabel(part: string, rest: string)
    requires DotFree(part)
    ensures Split(part) == [part]
    ensures Split(part + "." + rest) == [part] + Split(rest)
  {
    if part == "" {
      assert part + "." + rest == "." + rest;
    } else {
      SplitLabel(part[1..], rest);
      assert (part + "." + rest)[1..] == part[1..] + "." + rest;
      assert part == [part[0]] + part[1..];
    }
  }

  lemma {:induction false} JoinSuffix(labels: seq<string>, k: nat)
    requires k < |labels|
    ensures Under(Join(labels), Join(labels[k..]))
  {
    if k > 0 {
      JoinSuffix(labels[1..], k - 1);
      assert labels[1..][k - 1..] == labels[k..];
      UnderStep(labels[0], Join(labels[1..]), Join(labels[k..]));
    } else {
      assert labels[0..] == labels;
    }
  }

  lemma UnderStep(part: string, d: string, z: string)
    requires Under(d, z)
    ensures EndsWith(part + "." + d, "." + z)
  {
    var s := part + "." + d;
    if d == z {
      assert s[|s| - |"." + z|..] == "." + z;
    } else {
      assert s[|s| - |"." + z|..] == d[|d| - |"." + z|..];
    }
  }

  lemma UnderTransitive(d: string, y: string, z: string)
    requires Under(d, y) && Under(y, z)
    ensures Under(d, z)
  {
    if d != y && y != z {
      var n := |"." + z|;
      assert d[|d| - n..] == d[|d| - |y|..][|y| - n..];
      assert d[|d| - |y|..] == ("." + y)[1..];
      assert d[|d| - |"." + y|..] == "." + y;
    }
  }

  /** Suffixes of one domain at label boundaries are determined by their length. */
  lemma UnderSameLength(d: string, y: string, z: string)
    requires Under(d, y) && Under(d, z) && |y| == |z|
    ensures y == z
  {
    assert d != y ==> ("." + y)[1..] == y;
    assert d != z ==> ("." + z)[1..] == z;
  }

  lemma LastTwoUnder(d: string)
    ensures Under(d, LastTwoLabels(d))
  {
    JoinSplit(d);
    if |Split(d)| > 2 {
      JoinSuffix(Split(d), |Split(d)| - 2);
    }
  }

  lemma LastTwoIdempotent(d: string)
    ensures LastTwoLabels(LastTwoLabels(d)) == LastTwoLabels(d)
  {
    var labels := Split(d);
    SplitDotFree(d);
    if |labels| > 2 {
      var a, b := labels[|labels| - 2], labels[|labels| - 1];
      assert labels[|labels| - 2..] == [a, b];
      assert [a, b][1..] == [b];
      SplitLabel(a, b);
      SplitLabel(b, "");
      assert Split(a + "." + b) == [a, b] && Join([a, b]) == a + "." + b;
    } else {
      JoinSplit(d);
    }
  }

  // ----- overrides

  lemma {:induction false} MatchesAre(d: string, zones: seq<string>)
    ensures forall z :: z in Matches(d, zones) <==> z in zones && Under(d, z)
  {
    if zones != [] {
      MatchesAre(d, zones[1..]);
    }
  }

  lemma {:induction false} LongestIs(zones: seq<string>)
    requires zones != []
    ensures Longest(zones) in zones && forall z | z in zones :: |z| <= |Longest(zones)|
  {
    if |zones| > 1 {
      LongestIs(zones[..|zones| - 1]);
      assert forall z | z in zones :: z in zones[..|zones| - 1] || z == zones[|zones| - 1];
    }
  }

  /** With a matching override the apex is the longest one; without, the last two labels. */
  lemma ApexChoice(domain: string, overrides: seq<string>)
    ensures var d, a := StripDots(domain), Apex(domain, overrides);
            && Under(d, a)
            && (forall z | z in overrides && Under(d, z) :: a in overrides && |z| <= |a|)
            && ((forall z | z in overrides :: !Under(d, z)) ==> a == LastTwoLabels(d))
  {
    var d := StripDots(domain);
    MatchesAre(d, overrides);
    if Matches(d, overrides) != [] {
      LongestIs(Matches(d, overrides));
      assert Matches(d, overrides)[0] in Matches(d, overrides);
    } else {
      LastTwoUnder(d);
    }
  }

  /** The order, and any repetition, of the configured zones never matters. */
  lemma OverrideOrderIrrelevant(domain: string, overrides: seq<string>, overrides': seq<string>)
    requires forall z :: z in overrides <==> z in overrides'
    ensures Apex(domain, overrides) == Apex(domain, overrides')
  {
    var d := StripDots(domain);
    ApexChoice(domain, overrides);
    ApexChoice(domain, overrides');
    if z :| z in overrides && Under(d, z) {
      UnderSameLength(d, Apex(domain, overrides), Apex(domain, overrides'));
    }
  }

  lemma {:induction false} StripDotsStrips(s: string)
    ensures NoTrailingDot(StripDots(s)) && (NoTrailingDot(s) ==> StripDots(s) == s)
  {
    if !NoTrailingDot(s) {
      StripDotsStrips(s[..|s| - 1]);
    }
  }

  lemma UnderNoTrailingDot(d: string, z: string)
    requires NoTrailingDot(d) && Under(d, z)
    ensures NoTrailingDot(z)
  {
    if d != z && z != "" {
      assert d[|d| - |"." + z|..][|z|] == d[|d| - 1];
    }
  }

  /** The apex of an apex is itself, whatever the domain and the overrides. */
  lemma ApexIdempotent(domain: string, overrides: seq<string>)
    ensures Apex(Apex(domain, overrides), overrides) == Apex(domain, overrides)
  {
    var d, a := StripDots(domain), Apex(domain, overrides);
    StripDotsStrips(domain);
    ApexChoice(domain, overrides);
    UnderNoTrailingDot(d, a);
    StripDotsStrips(a);
    ApexChoice(a, overrides);
    forall z | z in overrides && Under(a, z) ensures Under(d, z) {
      UnderTransitive(d, a, z);
    }
    if z :| z in overrides && Under(d, z) {
      assert Under(a, a) && a in overrides;
      UnderTransitive(d, a, Apex(a, overrides));
      UnderSameLength(d, a, Apex(a, overrides));
    } else {
      LastTwoIdempotent(d);
    }
  }

  /** Stripping the zone from the challenge name and putting it back gives the name back. */
  lemma NameRejoins(domain: string, overrides: seq<string>)
    requires NoTrailingDot(domain)
    ensures RelativeName(domain, overrides) + ("." + Apex(domain, overrides)) == ChallengeName(domain)
  {
    StripDotsStrips(domain);
    ApexChoice(domain, overrides);
    UnderStep("_acme-challenge", domain, Apex(domain, overrides));
    RemoveRejoins(ChallengeName(domain), "." + Apex(domain, overrides));
  }

  lemma RemoveRejoins(s: string, t: string)
    requires EndsWith(s, t)
    ensures RemoveSuffix(s, t) + t == s
  {
  }

  /** So two domains of one zone never share a record name. */
  lemma RelativeNamesDistinct(domain: string, domain': string, overrides: seq<string>)
    requires NoTrailingDot(domain) && NoTrailingDot(domain') && domain != domain'
    requires Apex(domain, overrides) == Apex(domain', overrides)
    ensures RelativeName(domain, overrides) != RelativeName(domain', overrides)
  {
    NameRejoins(domain, overrides);
    NameRejoins(domain', overrides);
    var k := |"_acme-challenge" + "."|;
    assert ChallengeName(domain)[k..] == domain && ChallengeName(domain')[k..] == domain';
  }

  // ----- the two names

  /** Without a matching override the apex is the last two labels: one dot, or the whole of a name without a dot. */
  lemma ApexHasOneDot(domain: string, overrides: seq<string>) returns (x: string, y: string)
    requires forall z | z in overrides :: !Under(StripDots(domain), z)
    ensures var d, a := StripDots(domain), Apex(domain, overrides);
            if '.' in d then a == x + "." + y && '.' !in x && '.' !in y else a == d
  {
    var d := StripDots(domain);
    ApexChoice(domain, overrides);
    x, y := LastTwoAre(d);
  }

  lemma LastTwoAre(d: string) returns (x: string, y: string)
    ensures if '.' in d then LastTwoLabels(d) == x + "." + y && '.' !in x && '.' !in y else LastTwoLabels(d) == d
  {
    SplitDotFree(d);
    JoinSplit(d);
    var labels := Split(d);
    x, y := "", "";
    if |labels| == 1 {
      assert labels[0] == d;
      NoDot(d);
    } else {
      x, y := labels[|labels| - 2], labels[|labels| - 1];
      NoDot(x);
      NoDot(y);
      assert (if |labels| <= 2 then labels else labels[|labels| - 2..]) == [x, y];
      assert [x, y][1..] == [y];
      assert Join([y]) == y && Join([x, y]) == x + "." + y;
      TwoLabelsHaveADot(labels);
    }
  }

  lemma NoDot(part: string)
    requires DotFree(part)
    ensures '.' !in part
  {
  }

  lemma TwoLabelsHaveADot(labels: seq<string>)
    requires |labels| >= 2
    ensures '.' in Join(labels)
  {
    assert Join(labels)[|labels[0]|] == '.';
  }

  /** The record belongs to the challenge label of the domain. */
  lemma ChallengeLabel(domain: string, overrides: seq<string>)
    requires NoTrailingDot(domain)
    ensures RelativeName(domain, overrides) + "." + Apex(domain, overrides) == "_acme-challenge." + domain
  {
    NameRejoins(domain, overrides);
    var r, a := RelativeName(domain, overrides), Apex(domain, overrides);
    assert r + "." + a == r + ("." + a);
    assert "_acme-challenge" + "." == "_acme-challenge.";
  }
}
