/** The resolver itself: a queue of nameserver addresses worked through
    front to back, each response read section by section, with recursive
    resolution of alias targets and of NS names that came without glue. */
module Resolver {
  import opened DnsTypes
  import opened Sections
  import opened ResolverSpec

  /** The answer-section scan: rrsets in order, items in order; the first
      record of the requested type, or the first CNAME met before one, ends
      the scan. */
  method FirstAnswer(answer: seq<RRset>, recordType: RType) returns (scan: AnswerScan)
    ensures scan == ScanAnswer(answer, recordType)
  {
    var i := 0;
    while i < |answer|
      invariant 0 <= i <= |answer|
      invariant ScanAnswer(answer[i..], recordType) == ScanAnswer(answer, recordType)
    {
      var items := answer[i];
      var j := 0;
      while j < |items|
        invariant 0 <= j <= |items|
        invariant ScanItems(items[j..], recordType) == ScanItems(items, recordType)
      {
        var item := items[j];
        if item.rdtype == recordType {
          return Match(item.data);
        } else if item.rdtype == CNAME {
          return Alias(item.data);
        }
        assert items[j..][1..] == items[j + 1..];
        j := j + 1;
      }
      assert answer[i..][1..] == answer[i + 1..];
      i := i + 1;
    }
    return NoAnswer;
  }

  /** The additional-section scan: the address of every A record, in order. */
  method CollectGlue(additional: seq<RRset>) returns (nextHopIps: seq<Address>)
    ensures nextHopIps == Glue(additional)
  {
    nextHopIps := [];
    var i := 0;
    while i < |additional|
      invariant 0 <= i <= |additional|
      invariant nextHopIps == Glue(additional[..i])
    {
      var items := additional[i];
      var j := 0;
      while j < |items|
        invariant 0 <= j <= |items|
        invariant nextHopIps == Glue(additional[..i]) + GlueItems(items[..j])
      {
        assert items[..j + 1][..j] == items[..j];
        if items[j].rdtype == A {
          nextHopIps := nextHopIps + [items[j].data];
        }
        j := j + 1;
      }
      assert items[..j] == items;
      assert additional[..i + 1][..i] == additional[..i];
      i := i + 1;
    }
    assert additional[..i] == additional;
  }

  /** The authority-section scan: the name of the first NS record of the
      first rrset; the scan leaves the section after that rrset whatever it
      found. */
  method FirstReferral(authority: seq<RRset>) returns (nsHostname: Option<Name>)
    ensures nsHostname == Referral(authority)
  {
    nsHostname := None;
    if |authority| > 0 {
      var items := authority[0];
      var j := 0;
      while j < |items|
        invariant 0 <= j <= |items|
        invariant FirstNs(items[j..]) == FirstNs(items)
      {
        if items[j].rdtype == NS {
          nsHostname := Some(items[j].data);
          break;
        }
        assert items[j..][1..] == items[j + 1..];
        j := j + 1;
      }
    }
  }

  /** Reads one response in the resolver's fixed order: the answer section,
      then the glue of the additional section, then the authority referral. */
  method Interpret(response: Response, recordType: RType) returns (action: Action)
    ensures action == Decide(response, recordType)
  {
    var scan := FirstAnswer(response.answer, recordType);
    match scan {
      case Match(value) => return Return(value);
      case Alias(target) => return FollowAlias(target);
      case NoAnswer =>
    }
    var nextHopIps := CollectGlue(response.additional);
    if nextHopIps != [] {
      return Extend(nextHopIps);
    }
    var referral := FirstReferral(response.authority);
    match referral {
      case Some(nsHostname) => return Refer(nsHostname);
      case None => return Skip;
    }
  }

  /** Resolves `hostname` for `recordType`, starting from the root server.
      `result` is the payload of the record found, the exhaustion error, or
      OutOfFuel when `depth` (nesting of alias and NS lookups) or `budget`
      (queries of this walk) ran out first; `sent` lists every query sent
      through `t`, nested lookups included, in the order sent. */
  method Resolve(t: Transport, depth: nat, budget: nat, hostname: Name, recordType: RType)
    returns (result: Outcome, sent: seq<Query>)
    ensures Run(result, sent) == Resolution(t, depth, budget, hostname, recordType)
    decreases depth
  {
    var nameservers := [RootServerIp];
    var steps := budget;
    sent := [];
    while nameservers != []
      invariant Prepend(sent, Walk(t, depth, steps, hostname, recordType, nameservers)) ==
                Resolution(t, depth, budget, hostname, recordType)
      decreases steps
    {
      if steps == 0 {
        return OutOfFuel, sent;
      }
      var nsIp := nameservers[0];
      nameservers := nameservers[1..];
      steps := steps - 1;
      sent := sent + [Query(nsIp, hostname, recordType)];
      var reply := t(nsIp, hostname, recordType);
      ghost var pending := Continue(t, depth, steps, hostname, recordType, nameservers, reply);
      assert Prepend(sent, pending) == Resolution(t, depth, budget, hostname, recordType);
      if reply.None? {
        continue;
      }
      var action := Interpret(reply.value, recordType);
      match action {
        case Return(value) =>
          return Found(value), sent;
        case FollowAlias(target) =>
          if depth == 0 {
            return OutOfFuel, sent;
          }
          var aliased, aliasSent := Resolve(t, depth - 1, steps, target, recordType);
          return aliased, sent + aliasSent;
        case Extend(nextHopIps) =>
          nameservers := nameservers + nextHopIps;
        case Refer(nsHostname) =>
          if depth == 0 {
            return OutOfFuel, sent;
          }
          var nsResult, nsSent := Resolve(t, depth - 1, steps, nsHostname, A);
          sent := sent + nsSent;
          match nsResult {
            case Found(ip) =>
              assert pending == Prepend(nsSent, Walk(t, depth, steps, hostname, recordType, nameservers + [ip]));
              nameservers := nameservers + [ip];
            case Failed(_) =>
              assert pending == Prepend(nsSent, Walk(t, depth, steps, hostname, recordType, nameservers));
            case OutOfFuel =>
              return OutOfFuel, sent;
          }
        case Skip =>
      }
    }
    return Failed(hostname), sent;
  }
}
