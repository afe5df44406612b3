/** The numbered parameters in which Namecheap takes a whole host list, and reading them back. */
module HostParams {
  import opened Numerals

  datatype Host = Host(name: string, kind: string, address: string, mxPref: string, ttl: string)

  datatype Field = HostName | RecordType | Address | MXPref | TTL

  function FieldName(f: Field): string {
    match f
    case HostName => "HostName"
    case RecordType => "RecordType"
    case Address => "Address"
    case MXPref => "MXPref"
    case TTL => "TTL"
  }

  function FieldOf(h: Host, f: Field): string {
    match f
    case HostName => h.name
    case RecordType => h.kind
    case Address => h.address
    case MXPref => h.mxPref
    case TTL => h.ttl
  }

  function Key(f: Field, i: nat): string {
    FieldName(f) + Numeral(i, Decimal)
  }

  type Params = map<string, string>

  function BaseParams(apiUser: string, apiKey: string, username: string, clientIp: string, command: string,
                      sld: string, tld: string): Params
  {
    map["ApiUser" := apiUser, "ApiKey" := apiKey, "UserName" := username, "ClientIp" := clientIp,
        "Command" := command, "SLD" := sld, "TLD" := tld]
  }

  function PutHost(params: Params, i: nat, h: Host): Params {
    params[Key(HostName, i) := h.name][Key(RecordType, i) := h.kind][Key(Address, i) := h.address]
          [Key(MXPref, i) := h.mxPref][Key(TTL, i) := h.ttl]
  }

  /** What setHosts sends: the base parameters and five parameters a host, numbered from 1. */
  function AllParams(base: Params, hosts: seq<Host>): Params {
    if hosts == [] then base else PutHost(AllParams(base, hosts[..|hosts| - 1]), |hosts|, hosts[|hosts| - 1])
  }

  predicate HasHost(params: Params, i: nat) {
    && Key(HostName, i) in params && Key(RecordType, i) in params && Key(Address, i) in params
    && Key(MXPref, i) in params && Key(TTL, i) in params
  }

  function HostAt(params: Params, i: nat): Host
    requires HasHost(params, i)
  {
    Host(params[Key(HostName, i)], params[Key(RecordType, i)], params[Key(Address, i)],
         params[Key(MXPref, i)], params[Key(TTL, i)])
  }

  /** The receiving side: hosts `i`, `i + 1`, ... up to the first incomplete number. */
  function ReadFrom(params: Params, i: nat, fuel: nat): seq<Host>
    decreases fuel
  {
    if fuel == 0 || !HasHost(params, i) then [] else [HostAt(params, i)] + ReadFrom(params, i + 1, fuel - 1)
  }

  /** A parameter map never holds more hosts than parameters. */
  function ReadBack(params: Params): seq<Host> {
    ReadFrom(params, 1, |params|)
  }

  predicate Digitless(s: string) {
    forall k | 0 <= k < |s| :: !IsDigit(s[k])
  }

  lemma FieldNames(f: Field)
    ensures Digitless(FieldName(f)) && FieldName(f) != ""
    ensures forall g: Field :: FieldName(g) == FieldName(f) ==> g == f
  {
    assert FieldName(f)[0] == (match f case HostName => 'H' case RecordType => 'R' case Address => 'A'
                                       case MXPref => 'M' case TTL => 'T');
  }

  lemma KeyLastIsDigit(f: Field, i: nat)
    ensures Key(f, i) != "" && IsDigit(Key(f, i)[|Key(f, i)| - 1])
  {
    var s := Numeral(i, Decimal);
    NumeralChars(i, Decimal);
    assert s[|s| - 1] in s;
  }

  function FirstDigit(s: string): nat {
    if s == "" || IsDigit(s[0]) then 0 else 1 + FirstDigit(s[1..])
  }

  lemma {:induction false} FirstDigitAfter(p: string, s: string)
    requires Digitless(p) && s != "" && IsDigit(s[0])
    ensures FirstDigit(p + s) == |p|
  {
    if p == "" {
      assert p + s == s;
    } else {
      assert (p + s)[1..] == p[1..] + s;
      FirstDigitAfter(p[1..], s);
    }
  }

  lemma PrefixesEqual(p: string, q: string, s: string, t: string)
    requires Digitless(p) && Digitless(q) && s != "" && t != "" && IsDigit(s[0]) && IsDigit(t[0]) && p + s == q + t
    ensures p == q && s == t
  {
    FirstDigitAfter(p, s);
    FirstDigitAfter(q, t);
    assert p == (p + s)[..|p|] && q == (q + t)[..|q|];
    assert s == (p + s)[|p|..] && t == (q + t)[|q|..];
  }

  /** No two numbered keys collide, whatever their fields and numbers. */
  lemma KeyInjective(f: Field, i: nat, g: Field, j: nat)
    ensures Key(f, i) == Key(g, j) <==> f == g && i == j
  {
    if Key(f, i) == Key(g, j) {
      FieldNames(f);
      FieldNames(g);
      NumeralChars(i, Decimal);
      NumeralChars(j, Decimal);
      assert Numeral(i, Decimal)[0] in Numeral(i, Decimal) && Numeral(j, Decimal)[0] in Numeral(j, Decimal);
      PrefixesEqual(FieldName(f), FieldName(g), Numeral(i, Decimal), Numeral(j, Decimal));
      NumeralInjective(i, j, Decimal);
    }
  }

  lemma PutHostLookup(params: Params, n: nat, h: Host, f: Field, i: nat)
    ensures var p := PutHost(params, n, h);
            if i == n then Key(f, i) in p && p[Key(f, i)] == FieldOf(h, f)
            else (Key(f, i) in p <==> Key(f, i) in params) && (Key(f, i) in p ==> p[Key(f, i)] == params[Key(f, i)])
  {
    KeyInjective(f, i, HostName, n);
    KeyInjective(f, i, RecordType, n);
    KeyInjective(f, i, Address, n);
    KeyInjective(f, i, MXPref, n);
    KeyInjective(f, i, TTL, n);
  }

  /** The command's own parameters end in a letter, so no numbered key can be one of them. */
  ghost predicate Unnumbered(base: Params) {
    forall f: Field, i: nat :: Key(f, i) !in base
  }

  lemma {:induction false} Lookup(base: Params, hosts: seq<Host>, f: Field, i: nat)
    requires Unnumbered(base)
    ensures var p := AllParams(base, hosts);
            && (Key(f, i) in p <==> 1 <= i <= |hosts|)
            && (1 <= i <= |hosts| ==> p[Key(f, i)] == FieldOf(hosts[i - 1], f))
  {
    if hosts != [] {
      var n, before := |hosts|, hosts[..|hosts| - 1];
      Lookup(base, before, f, i);
      PutHostLookup(AllParams(base, before), n, hosts[n - 1], f, i);
      assert AllParams(base, hosts) == PutHost(AllParams(base, before), n, hosts[n - 1]);
    }
  }

  lemma SentHost(base: Params, hosts: seq<Host>, i: nat)
    requires Unnumbered(base)
    ensures var p := AllParams(base, hosts);
            && (HasHost(p, i) <==> 1 <= i <= |hosts|)
            && (1 <= i <= |hosts| ==> HostAt(p, i) == hosts[i - 1])
  {
    Lookup(base, hosts, HostName, i);
    Lookup(base, hosts, RecordType, i);
    Lookup(base, hosts, Address, i);
    Lookup(base, hosts, MXPref, i);
    Lookup(base, hosts, TTL, i);
  }

  ghost predicate Carries(params: Params, hosts: seq<Host>) {
    && (forall i: nat :: HasHost(params, i) <==> 1 <= i <= |hosts|)
    && (forall i | 1 <= i <= |hosts| :: HostAt(params, i) == hosts[i - 1])
  }

  lemma {:induction false} ReadsFrom(params: Params, hosts: seq<Host>, i: nat, fuel: nat)
    requires Carries(params, hosts) && 1 <= i <= |hosts| + 1 && fuel >= |hosts| + 1 - i
    ensures ReadFrom(params, i, fuel) == hosts[i - 1..]
    decreases fuel
  {
    if i <= |hosts| {
      ReadsFrom(params, hosts, i + 1, fuel - 1);
    }
  }

  lemma PutHostCount(params: Params, n: nat, h: Host)
    requires Key(HostName, n) !in params && Key(RecordType, n) !in params && Key(Address, n) !in params
    requires Key(MXPref, n) !in params && Key(TTL, n) !in params
    ensures |PutHost(params, n, h)| == |params| + 5
  {
    forall f: Field, g: Field ensures Key(f, n) == Key(g, n) ==> f == g {
      KeyInjective(f, n, g, n);
    }
  }

  lemma {:induction false} ParamCount(base: Params, hosts: seq<Host>)
    requires Unnumbered(base)
    ensures |AllParams(base, hosts)| == |base| + 5 * |hosts|
  {
    if hosts != [] {
      var n, rest := |hosts|, hosts[..|hosts| - 1];
      ParamCount(base, rest);
      Lookup(base, rest, HostName, n);
      Lookup(base, rest, RecordType, n);
      Lookup(base, rest, Address, n);
      Lookup(base, rest, MXPref, n);
      Lookup(base, rest, TTL, n);
      PutHostCount(AllParams(base, rest), n, hosts[n - 1]);
    }
  }

  lemma {:induction false} BaseKept(base: Params, hosts: seq<Host>, key: string)
    requires Unnumbered(base) && key in base
    ensures key in AllParams(base, hosts) && AllParams(base, hosts)[key] == base[key]
  {
    if hosts != [] {
      BaseKept(base, hosts[..|hosts| - 1], key);
    }
  }

  lemma BaseIsUnnumbered(apiUser: string, apiKey: string, username: string, clientIp: string, command: string,
                         sld: string, tld: string)
    ensures var base := BaseParams(apiUser, apiKey, username, clientIp, command, sld, tld);
            Unnumbered(base) && |base| == 7
  {
    var base := BaseParams(apiUser, apiKey, username, clientIp, command, sld, tld);
    forall f: Field, i: nat ensures Key(f, i) !in base {
      KeyLastIsDigit(f, i);
      assert !IsDigit("ApiUser"[6]) && !IsDigit("ApiKey"[5]) && !IsDigit("UserName"[7]) && !IsDigit("ClientIp"[7])
          && !IsDigit("Command"[6]) && !IsDigit("SLD"[2]) && !IsDigit("TLD"[2]);
    }
  }

  /** Every host list, of any length, is read back as it was sent; all 5n + 7 parameters are distinct. */
  lemma ReadsBack(apiUser: string, apiKey: string, username: string, clientIp: string, command: string,
                  sld: string, tld: string, hosts: seq<Host>)
    ensures var base := BaseParams(apiUser, apiKey, username, clientIp, command, sld, tld);
            var params := AllParams(base, hosts);
            && ReadBack(params) == hosts
            && |params| == 5 * |hosts| + 7
            && forall key | key in base :: key in params && params[key] == base[key]
  {
    var base := BaseParams(apiUser, apiKey, username, clientIp, command, sld, tld);
    BaseIsUnnumbered(apiUser, apiKey, username, clientIp, command, sld, tld);
    ParamCount(base, hosts);
    forall i: nat
      ensures HasHost(AllParams(base, hosts), i) <==> 1 <= i <= |hosts|
      ensures 1 <= i <= |hosts| ==> HostAt(AllParams(base, hosts), i) == hosts[i - 1]
    {
      SentHost(base, hosts, i);
    }
    ReadsFrom(AllParams(base, hosts), hosts, 1, |AllParams(base, hosts)|);
    forall key | key in base ensures key in AllParams(base, hosts) && AllParams(base, hosts)[key] == base[key] {
      BaseKept(base, hosts, key);
    }
  }

  predicate Sends(p: Params, key: string, value: string) {
    key in p && p[key] == value
  }

  /** The names and values that are sent for each host. */
  lemma SentFields(base: Params, hosts: seq<Host>, i: nat)
    requires Unnumbered(base) && 1 <= i <= |hosts|
    ensures var p, n, h := AllParams(base, hosts), Numeral(i, Decimal), hosts[i - 1];
            && Sends(p, "HostName" + n, h.name) && Sends(p, "RecordType" + n, h.kind)
            && Sends(p, "Address" + n, h.address) && Sends(p, "MXPref" + n, h.mxPref) && Sends(p, "TTL" + n, h.ttl)
  {
    Lookup(base, hosts, HostName, i);
    Lookup(base, hosts, RecordType, i);
    Lookup(base, hosts, Address, i);
    Lookup(base, hosts, MXPref, i);
    Lookup(base, hosts, TTL, i);
  }

  /** And for the command itself. */
  lemma SentBase(apiUser: string, apiKey: string, username: string, clientIp: string, command: string,
                 sld: string, tld: string, hosts: seq<Host>)
    ensures var base := BaseParams(apiUser, apiKey, username, clientIp, command, sld, tld);
            var p := AllParams(base, hosts);
            && Unnumbered(base)
            && Sends(p, "ApiUser", apiUser) && Sends(p, "ApiKey", apiKey) && Sends(p, "UserName", username)
            && Sends(p, "ClientIp", clientIp) && Sends(p, "Command", command) && Sends(p, "SLD", sld)
            && Sends(p, "TLD", tld)
  {
    var base := BaseParams(apiUser, apiKey, username, clientIp, command, sld, tld);
    BaseIsUnnumbered(apiUser, apiKey, username, clientIp, command, sld, tld);
    BaseKept(base, hosts, "ApiUser");
    BaseKept(base, hosts, "ApiKey");
    BaseKept(base, hosts, "UserName");
    BaseKept(base, hosts, "ClientIp");
    BaseKept(base, hosts, "Command");
    BaseKept(base, hosts, "SLD");
    BaseKept(base, hosts, "TLD");
  }
}
