/** Worked resolutions against fixed transports. */
module Scenarios {
  import opened DnsTypes
  import opened Sections
  import opened ResolverSpec

  const TldServerIp: Address := "192.5.6.30"
  const AuthServerIp: Address := "199.43.135.53"
  const ExampleIp: Address := "93.184.216.34"

  /** A three-level hierarchy: the root refers to the TLD server with glue,
      the TLD server refers to the authoritative server with glue, and the
      authoritative server answers. Every other server times out. */
  function Hierarchy(server: Address, name: Name, qtype: RType): Option<Response>
  {
    if server == RootServerIp then
      Some(Response([], [[Record(A, TldServerIp)]], [[Record(NS, "a.gtld-servers.net.")]]))
    else if server == TldServerIp then
      Some(Response([], [[Record(A, AuthServerIp)]], [[Record(NS, "a.iana-servers.net.")]]))
    else if server == AuthServerIp then
      Some(Response([[Record(A, ExampleIp)]], [], []))
    else None
  }

  /** Resolving example.com. for A through the hierarchy returns the
      configured address after exactly three queries, root first, without any
      nested lookup: glue is used rather than the NS names. */
  lemma ThreeLevelScenario()
    ensures Resolution(Hierarchy, 0, 3, "example.com.", A) ==
            Run(Found(ExampleIp), [Query(RootServerIp, "example.com.", A),
                                   Query(TldServerIp, "example.com.", A),
                                   Query(AuthServerIp, "example.com.", A)])
  {
    var t := Hierarchy;
    var name := "example.com.";
    assert TldServerIp[2] != RootServerIp[2];
    assert AuthServerIp[2] != RootServerIp[2] && AuthServerIp[2] != TldServerIp[2];
    assert t(TldServerIp, name, A) ==
           Some(Response([], [[Record(A, AuthServerIp)]], [[Record(NS, "a.iana-servers.net.")]]));
    assert t(AuthServerIp, name, A) == Some(Response([[Record(A, ExampleIp)]], [], []));
    assert t(RootServerIp, name, A) ==
           Some(Response([], [[Record(A, TldServerIp)]], [[Record(NS, "a.gtld-servers.net.")]]));
    var third := Walk(t, 0, 1, name, A, [AuthServerIp]);
    assert Decide(t(AuthServerIp, name, A).value, A) == Return(ExampleIp);
    assert third == Run(Found(ExampleIp), [Query(AuthServerIp, name, A)]);
    var second := Walk(t, 0, 2, name, A, [TldServerIp]);
    GlueOfOneRecord(AuthServerIp);
    assert Decide(t(TldServerIp, name, A).value, A) == Extend([AuthServerIp]);
    assert [TldServerIp][1..] + [AuthServerIp] == [AuthServerIp];
    assert second == Prepend([Query(TldServerIp, name, A)], third);
    GlueOfOneRecord(TldServerIp);
    assert Decide(t(RootServerIp, name, A).value, A) == Extend([TldServerIp]);
    assert [RootServerIp][1..] + [TldServerIp] == [TldServerIp];
    assert Walk(t, 0, 3, name, A, [RootServerIp]) == Prepend([Query(RootServerIp, name, A)], second);
  }

  /** One A record in one rrset is one glue address. */
  lemma GlueOfOneRecord(ip: Address)
    ensures Glue([[Record(A, ip)]]) == [ip]
  {
    var items := [Record(A, ip)];
    assert items[..0] == [];
    assert GlueItems(items) == [ip];
    var additional := [items];
    assert additional[..0] == [];
    assert Glue(additional) == Glue([]) + GlueItems(items);
  }
}
