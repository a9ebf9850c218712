# Iterative DNS resolver: a Dafny model of `resolve`

This project models the delegation walk of `resolve` in `week3/resolver.py`. The resolver answers a
(hostname, record type) question without a recursive resolver of its own. It starts from one root
server address and keeps a FIFO queue of nameserver addresses. It pops the head, queries it over
UDP, and reads the response in a fixed priority:

1. **Answer section.** Rrsets and their items are scanned in message order. The first record of the
   requested type is returned. A CNAME met before such a record makes the resolver resolve the alias
   target from scratch and return that result.
2. **Additional section.** The address of every A record (glue) is appended to the queue.
3. **Authority section.** Only reached when there was no glue. The first NS record of the first
   rrset is resolved for `A`. A found address is appended to the queue. A failure is swallowed.

A timeout skips the server. When the queue runs dry, resolution fails with an error naming the
hostname. This is a simplified form of the resolver algorithm of section 5.3.3 of RFC 1034: there is
no cache and no server ordering.

## Layout

- `dns_types.dfy` (`DnsTypes`): record type codes, records, responses, the transport, outcomes.
- `sections.dfy` (`Sections`): the three section scans as functions. It also has their reference
  characterisations by record position in message order, and `Decide`, the priority between sections.
- `resolver_spec.dfy` (`ResolverSpec`): the walk as functions and the lemmas about it.
  - `Walk` pops and queries the head of the queue. Every step lemma below fixes that first query
    as the one sent to the head of the queue.
  - `Continue` acts on the reply.
  - `Resolution` starts a walk from the root.
- `resolver.dfy` (`Resolver`): the imperative resolver. `Resolve` runs a `while` loop over a
  sequence-valued queue and recurses for aliases and NS names. The section scans are the loop
  methods `FirstAnswer`, `CollectGlue` and `FirstReferral`, combined by `Interpret`. Each method is
  proved equal to its specification function.
- `scenarios.dfy` (`Scenarios`): a resolution through a fixed three-level hierarchy.

### Modelling decisions

- **Transport.** `dns.query.udp` becomes a parameter `t: (server, name, type) -> Option<Response>`.
  `None` is a timeout. Each query is also logged in `Run.queries`, so the order of queries can be
  stated. The order includes the queries of nested resolutions.
- **Fuel.** The source bounds neither its recursion nor its loop. A referral or alias cycle recurses
  forever. Glue that points back at a server keeps the loop running forever. The model therefore
  has two bounds:
  - `depth` bounds the nesting of alias and NS resolutions.
  - `budget` bounds the queries of one walk. A nested walk gets what remains after the query that
    triggered it.

  Running out of either gives `OutOfFuel`. This outcome propagates through everything, including the
  NS lookup's `except`, so every other outcome is exactly the source's. `FuelMonotone` shows that a
  conclusive outcome does not change when more fuel is given.
- **Records.** A record is `(rdtype, data)`. `data` stands for `item.to_text()`, which for the A,
  CNAME and NS records the resolver reads is the same text as `item.address` or
  `item.target.to_text()`. Owner names are never consulted by the source and are not represented.
  Record types are 16-bit codes: A = 1, NS = 2, CNAME = 5.
- **Errors.** The exhaustion error is `Failed(hostname)`. For an alias, the nested call's failure is
  passed on unchanged, so that failure names the alias target, as the source's message does.

### The authority section

Only the first authority rrset is examined. The unconditional `break` at `week3/resolver.py:67`
leaves the section after that rrset even when it holds no NS record, so NS records in later rrsets
are never used. `Referral` and `NothingUsable` state this.

## Model

| member | source | states |
|---|---|---|
| `Resolver.Resolve` | week3/resolver.py:11-69 | The loop with its queue, recursion on aliases and NS names, and the exhaustion error. Outcome and full query log equal `Resolution` for the same fuel. |
| `Resolver.Interpret` | week3/resolver.py:30-67 | Reading one response (answer, then glue, then referral) yields exactly `Decide`'s action. |
| `Resolver.FirstAnswer` | week3/resolver.py:31-40 | The nested rrset/item loop with early returns yields exactly the answer scan `ScanAnswer`. |
| `Resolver.CollectGlue` | week3/resolver.py:43-48 | The nested loop that builds `next_hop_ips` yields exactly `Glue` of the additional section. |
| `Resolver.FirstReferral` | week3/resolver.py:55-67 | The authority loop with its two `break`s yields exactly `Referral`: the first NS of the first rrset. |
| `Sections.ScanAnswerFlat` | week3/resolver.py:32-33 | The two-level scan over rrsets and items equals one scan over the whole answer section in message order. |
| `Sections.ScanItemsFirst` | week3/resolver.py:33-40 | The scan finds nothing iff no record has the requested type or is a CNAME. Otherwise the first such record alone decides: its payload if it has the requested type, else an alias to its target. |
| `Sections.AnswerScanFirst` | week3/resolver.py:31-40 | The same first-match characterisation for the whole answer section, over all rrsets in message order. |
| `Sections.CnameQueryNeverAliases` | week3/resolver.py:34-37 | With requested type CNAME the type test fires first, so the answer scan never yields an alias to follow. |
| `Sections.GlueItemsAppend` | week3/resolver.py:45-48 | Glue of a concatenation is the concatenation of glues: addresses keep their records' order. |
| `Sections.GlueItemsMembers` | week3/resolver.py:46-48 | An address is glue iff some A record carries it. The glue list is empty iff there is no A record, and is no longer than the record list. |
| `Sections.GlueFlat` | week3/resolver.py:44-48 | Rrset-by-rrset glue collection equals the glue of the whole additional section in message order. |
| `Sections.FirstNsFirst` | week3/resolver.py:57-59 | No NS target is found iff the rrset has no NS record. Otherwise the target found is that of the first NS record. |
| `ResolverSpec.QueriesToAppend` | week3/resolver.py:18-19 | The queries sent to the servers of a concatenated queue are those sent to the first part, followed by those sent to the second. `TimeoutsSkipped` uses this to peel the head query off a run of timeouts. |
| `ResolverSpec.TimeoutsSkipped` | week3/resolver.py:18-28 | Timed-out servers at the front of the queue are each queried once, in order, and dropped. The walk continues on the untouched rest of the queue with the budget reduced by the number of those servers. |
| `ResolverSpec.AllTimeoutsExhaust` | week3/resolver.py:24-28 | When every queued server times out, the walk fails with the error naming its host, after exactly one query per server in queue order. |
| `ResolverSpec.RootTimeoutFails` | week3/resolver.py:16 | The walk starts from the root server alone. If it times out, resolution fails naming the host after that single query. |
| `ResolverSpec.AnswerReturned` | week3/resolver.py:31-36 | If the first answer record that has the requested type or is a CNAME has the requested type, its payload is returned after that one query. Later records and the rest of the queue are not consulted. |
| `ResolverSpec.AliasFollowed` | week3/resolver.py:37-40 | If that first record is a CNAME instead, the result is the resolution of its target from the root. The remaining queue is dropped and the target's result, failure included, is returned unchanged. |
| `ResolverSpec.GlueAppended` | week3/resolver.py:43-52 | With no actionable answer and at least one A record in the additional section, every A address is appended to the queue end in message order, whatever the authority section holds. |
| `ResolverSpec.ReferralFollowed` | week3/resolver.py:55-67 | With no answer and no glue, the first NS record of the first authority rrset is resolved for A. A found address is appended to the queue. A failure leaves the queue as it was after the pop. |
| `ResolverSpec.NothingUsable` | week3/resolver.py:55-67 | With no answer, no glue and no NS record in the first authority rrset, the walk continues with the rest of the queue. NS records in later rrsets are ignored. |
| `ResolverSpec.FuelMonotone` | week3/resolver.py:11-69 | Once a walk reaches a conclusive outcome, any larger depth and budget give the same outcome after the same queries. |
| `ResolverSpec.FailureNamesHost` | week3/resolver.py:69 | A failure names the walk's own host unless some query for the walk's own name and type got a response that made the resolver follow an alias. So a failure naming another host always traces back to an alias taken by a query for the walk's own name and type. An alias inside a nested NS lookup for another name or type never explains it. |
| `Scenarios.ThreeLevelScenario` | week3/resolver.py:42-52 | Through a root → TLD → authoritative hierarchy with glue at each referral, resolution returns the configured address after exactly three queries and no nested lookup. |

## Left out

- The dnspython library (`dns.name.from_text`, `dns.message.make_query`, `dns.query.udp`,
  `dns.rdatatype.from_text`, `to_text`, `.target`, `.address`). Wire encoding, name syntax and
  type-mnemonic parsing are not modelled. The requested type is given as its numeric code.
- Real UDP timing: the 2-second timeout is the transport returning `None`.
- Exceptions other than a timeout that the library could raise (malformed or truncated replies).
  These would propagate out of `resolve` uncaught.
- Python's recursion limit. In the source, a runaway nested NS lookup would raise `RecursionError`,
  a subclass of `RuntimeError`, which that lookup's `except` would catch. The model's `OutOfFuel`
  propagates instead, so a run that exhausts fuel says nothing about such behaviour.
- Termination in general: referral, glue and alias cycles are unbounded in the source. Every
  property is stated for a given `depth` and `budget`.
- A changing network: the transport is a fixed function of (server, name, type). The same query
  always gets the same reply, so a server that times out once and answers when asked again cannot
  be represented.
- The default argument `record_type="A"` (line 11). The model always takes the record type
  explicitly. Only the command-line driver relies on the default.
- The progress narration (`print` on lines 20, 27, 35, 39, 60 and 65) and the command-line driver
  (lines 72-83).
