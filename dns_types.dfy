/** The values the resolver consumes and produces: record types, resource
    records, the three sections of a DNS response, the transport the resolver
    queries through, and the outcome of a resolution. */
module DnsTypes {

  /** A DNS record type code (a 16-bit value on the wire). */
  newtype RType = x: int | 0 <= x < 0x1_0000

  /** Type codes the resolver tests for explicitly (RFC 1035, section 3.2.2). */
  const A: RType := 1
  const NS: RType := 2
  const CNAME: RType := 5

  type Name = string
  type Address = string

  /** A resource record as the resolver sees it: its type code and the textual
      form of its payload. For an A record that text is the address, for a
      CNAME or NS record it is the target name. The owner name is never
      consulted by the resolver and is not represented. */
  datatype Record = Record(rdtype: RType, data: string)

  /** The items of one resource record set, in message order. */
  type RRset = seq<Record>

  /** The three sections of a response the resolver inspects, each a sequence
      of resource record sets in message order. */
  datatype Response = Response(answer: seq<RRset>, additional: seq<RRset>, authority: seq<RRset>)

  datatype Option<+T> = None | Some(value: T)

  /** One UDP exchange: the response a server gives for a (name, type) query,
      or None when the query times out. */
  type Transport = (Address, Name, RType) -> Option<Response>

  /** The single bootstrap address: a.root-servers.net. */
  const RootServerIp: Address := "198.41.0.4"

  /** A query sent through the transport. */
  datatype Query = Query(server: Address, name: Name, qtype: RType)

  /** The result of a resolution: the textual payload of the record found, the
      exhaustion error (which names the host whose queue ran dry), or the
      verdict that the recursion depth or query budget ran out first. */
  datatype Outcome = Found(value: string) | Failed(hostname: Name) | OutOfFuel

  /** An outcome together with every query sent to obtain it, in the order sent. */
  datatype Run = Run(outcome: Outcome, queries: seq<Query>)
}
