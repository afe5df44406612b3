/** The Namecheap provider: one read-modify-write cycle, as its methods perform it under the apex's lock. */
module NamecheapProvider {
  import opened HostParams
  import opened NamecheapRuns
  import Zones

  /** What the far side does with a request: refuse it, take it, or take it and fail to say so. */
  datatype Outcome = Accepted | Refused | AcceptedUnseen

  function FirstDot(s: string): (k: nat)
    ensures k <= |s|
  {
    if s == "" || s[0] == '.' then 0 else 1 + FirstDot(s[1..])
  }

  /** The second-level and top-level parts of a domain with a dot in it. */
  function ZoneOf(domain: string): (string, string) {
    var k := FirstDot(domain);
    if k < |domain| then (domain[..k], domain[k + 1..]) else (domain, "")
  }

  class Provider {
    const apiUser: string
    const apiKey: string
    const username: string
    const clientIp: string
    /** The host lists as Namecheap holds them, by second-level and top-level part of the domain. */
    var remote: map<(string, string), seq<Host>>

    constructor (apiUser: string, apiKey: string, username: string, clientIp: string,
                 remote: map<(string, string), seq<Host>>)
      ensures this.apiUser == apiUser && this.apiKey == apiKey && this.clientIp == clientIp && this.remote == remote
      ensures this.username == if username != "" then username else apiUser
    {
      this.apiUser, this.apiKey, this.clientIp, this.remote := apiUser, apiKey, clientIp, remote;
      this.username := if username != "" then username else apiUser;
    }

    function Hosts(zone: (string, string)): seq<Host>
      reads this
    {
      if zone in remote then remote[zone] else []
    }

    /** Fails for a name without a dot, as unpacking the split does. */
    static method SplitDomain(domain: string) returns (ok: bool, zone: (string, string))
      ensures ok <==> '.' in domain
      ensures ok ==> zone.0 + "." + zone.1 == domain && '.' !in zone.0 && zone == ZoneOf(domain)
    {
      var k := 0;
      while k < |domain| && domain[k] != '.'
        invariant 0 <= k <= FirstDot(domain) <= |domain| && '.' !in domain[..k]
        invariant FirstDot(domain[k..]) == FirstDot(domain) - k
      {
        assert domain[k..][1..] == domain[k + 1..];
        k := k + 1;
      }
      ok := k < |domain|;
      zone := if ok then (domain[..k], domain[k + 1..]) else ("", "");
      assert ok ==> domain[..k] + "." + domain[k + 1..] == domain;
      assert !ok ==> domain[..k] == domain;
    }

    /** Sends the whole list as numbered parameters; what Namecheap then holds is exactly that list. */
    method SetHosts(zone: (string, string), hosts: seq<Host>, outcome: Outcome) returns (ok: bool)
      modifies this`remote
      ensures ok <==> outcome == Accepted
      ensures remote == if outcome == Refused then old(remote) else old(remote)[zone := hosts]
    {
      var command := "namecheap.domains.dns.setHosts";
      var base := BaseParams(apiUser, apiKey, username, clientIp, command, zone.0, zone.1);
      var params := base;
      for i := 1 to |hosts| + 1
        invariant params == AllParams(base, hosts[..i - 1])
      {
        var host := hosts[i - 1];
        assert hosts[..i][..i - 1] == hosts[..i - 1];
        params := params[Key(HostName, i) := host.name];
        params := params[Key(RecordType, i) := host.kind];
        params := params[Key(Address, i) := host.address];
        params := params[Key(MXPref, i) := host.mxPref];
        params := params[Key(TTL, i) := host.ttl];
      }
      assert hosts[..|hosts|] == hosts;
      ReadsBack(apiUser, apiKey, username, clientIp, command, zone.0, zone.1, hosts);
      if outcome != Refused {
        remote := remote[zone := ReadBack(params)];
      }
      ok := outcome == Accepted;
    }

    method SetTxt(domain: string, name: string, value: string, readable: bool, outcome: Outcome) returns (ok: bool)
      modifies this`remote
      ensures ok <==> '.' in domain && readable && outcome == Accepted
      ensures '.' !in domain || !readable || outcome == Refused ==> remote == old(remote)
      ensures '.' in domain && readable && outcome != Refused ==>
                var record := Host(Zones.RemoveSuffix(name, "." + domain), "TXT", value, "10", "120");
                remote == old(remote)[ZoneOf(domain) := old(Hosts(ZoneOf(domain))) + [record]]
    {
      var split, zone := SplitDomain(domain);
      if !split { return false; }
      var relName := Zones.RemoveSuffix(name, "." + domain);
      if !readable { return false; }
      var hosts := Hosts(zone);
      hosts := hosts + [Host(relName, "TXT", value, "10", "120")];
      ok := SetHosts(zone, hosts, outcome);
    }

    /**
     A delete that finds nothing to delete writes nothing; one that succeeds leaves no TXT record of the name; and
     whatever happens every other record is there as often as before.
     */
    method DeleteTxt(domain: string, name: string, readable: bool, outcome: Outcome) returns (ok: bool)
      modifies this`remote
      ensures '.' !in domain || !readable ==> !ok && remote == old(remote)
      ensures '.' in domain && readable ==>
                var zone, rel := ZoneOf(domain), Zones.RemoveSuffix(name, "." + domain);
                var found := exists h :: h in old(Hosts(zone)) && h.kind == "TXT" && h.name == rel;
                && (ok <==> outcome == Accepted || !found)
                && remote == (if outcome == Refused || !found then old(remote)
                              else old(remote)[zone := Perform(NamecheapRuns.DeleteTxt(rel), old(Hosts(zone)))])
      ensures ok ==> forall h | h in Hosts(ZoneOf(domain)) ::
                       !(h.kind == "TXT" && h.name == Zones.RemoveSuffix(name, "." + domain))
      ensures forall h: Host | !(h.kind == "TXT" && h.name == Zones.RemoveSuffix(name, "." + domain)) ::
                multiset(Hosts(ZoneOf(domain)))[h] == multiset(old(Hosts(ZoneOf(domain))))[h]
    {
      var split, zone := SplitDomain(domain);
      if !split { return false; }
      var relName := Zones.RemoveSuffix(name, "." + domain);
      if !readable { return false; }
      var hosts := Hosts(zone);
      var before := |hosts|;
      DeleteDeletes(hosts, relName);
      var kept := Without(hosts, relName);
      if |kept| < before {
        ok := SetHosts(zone, kept, outcome);
      } else {
        ok := true;
      }
    }

    /** The comprehension of delete_txt. */
    static method Without(hosts: seq<Host>, relName: string) returns (kept: seq<Host>)
      ensures kept == Perform(NamecheapRuns.DeleteTxt(relName), hosts)
    {
      kept := [];
      for k := 0 to |hosts|
        invariant kept + DropTxt(hosts[k..], relName) == DropTxt(hosts, relName)
      {
        assert hosts[k..][1..] == hosts[k + 1..];
        if !IsTxt(hosts[k], relName) {
          kept := kept + [hosts[k]];
        }
      }
    }
  }
}
