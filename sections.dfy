/** How the resolver reads one response: the answer scan (a matching record or
    an alias), the glue scan of the additional section, the referral taken
    from the authority section, and the fixed priority between the three. */
module Sections {
  import opened DnsTypes

  /** All records of a section in message order: rrsets first, items within. */
  function Flatten(rrsets: seq<RRset>): seq<Record>
  {
    if rrsets == [] then [] else rrsets[0] + Flatten(rrsets[1..])
  }

  // ---------------------------------------------------------------------
  // Answer section
  // ---------------------------------------------------------------------

  /** A record of the answer section that ends the scan: one of the
      requested type, or an alias. */
  predicate Actionable(r: Record, qtype: RType)
  {
    r.rdtype == qtype || r.rdtype == CNAME
  }

  /** Position k holds the first actionable record of `items`. */
  ghost predicate FirstActionableAt(items: seq<Record>, qtype: RType, k: int)
  {
    && 0 <= k < |items|
    && Actionable(items[k], qtype)
    && forall i :: 0 <= i < k ==> !Actionable(items[i], qtype)
  }

  datatype AnswerScan = Match(value: string) | Alias(target: Name) | NoAnswer

  /** The inner scan over the items of one rrset: the type test comes before
      the CNAME test. */
  function ScanItems(items: seq<Record>, qtype: RType): AnswerScan
  {
    if items == [] then NoAnswer
    else if items[0].rdtype == qtype then Match(items[0].data)
    else if items[0].rdtype == CNAME then Alias(items[0].data)
    else ScanItems(items[1..], qtype)
  }

  /** The outer scan over the rrsets of the answer section. */
  function ScanAnswer(rrsets: seq<RRset>, qtype: RType): AnswerScan
  {
    if rrsets == [] then NoAnswer
    else
      var s := ScanItems(rrsets[0], qtype);
      if s.NoAnswer? then ScanAnswer(rrsets[1..], qtype) else s
  }

  lemma {:induction false} ScanItemsAppend(a: seq<Record>, b: seq<Record>, qtype: RType)
    ensures ScanItems(a + b, qtype) ==
            if ScanItems(a, qtype).NoAnswer? then ScanItems(b, qtype) else ScanItems(a, qtype)
  {
    if a != [] {
      assert (a + b)[0] == a[0];
      assert (a + b)[1..] == a[1..] + b;
      ScanItemsAppend(a[1..], b, qtype);
    } else {
      assert a + b == b;
    }
  }

  /** The two-level scan is a single scan over the section in message order. */
  lemma {:induction false} ScanAnswerFlat(rrsets: seq<RRset>, qtype: RType)
    ensures ScanAnswer(rrsets, qtype) == ScanItems(Flatten(rrsets), qtype)
  {
    if rrsets != [] {
      ScanAnswerFlat(rrsets[1..], qtype);
      ScanItemsAppend(rrsets[0], Flatten(rrsets[1..]), qtype);
    }
  }

  /** The scan finds nothing exactly when no record is actionable; otherwise
      its result is decided by the first actionable record alone: its payload
      when its type is the requested one, an alias to its target otherwise. */
  lemma {:induction false} ScanItemsFirst(items: seq<Record>, qtype: RType)
    ensures ScanItems(items, qtype).NoAnswer? <==>
            forall k :: 0 <= k < |items| ==> !Actionable(items[k], qtype)
    ensures forall k :: FirstActionableAt(items, qtype, k) ==>
              ScanItems(items, qtype) ==
                if items[k].rdtype == qtype then Match(items[k].data) else Alias(items[k].data)
  {
    if items != [] {
      var tail := items[1..];
      ScanItemsFirst(tail, qtype);
      if !Actionable(items[0], qtype) {
        forall k | 0 <= k < |tail| ensures tail[k] == items[k + 1] { }
        forall k | FirstActionableAt(items, qtype, k)
          ensures FirstActionableAt(tail, qtype, k - 1)
        {
          assert k != 0;
          forall i | 0 <= i < k - 1 ensures !Actionable(tail[i], qtype) {
            assert tail[i] == items[i + 1];
          }
        }
      }
    }
  }

  /** Answer-section version of ScanItemsFirst, in message order over all rrsets. */
  lemma AnswerScanFirst(rrsets: seq<RRset>, qtype: RType)
    ensures var flat := Flatten(rrsets);
            ScanAnswer(rrsets, qtype).NoAnswer? <==>
            forall k :: 0 <= k < |flat| ==> !Actionable(flat[k], qtype)
    ensures var flat := Flatten(rrsets);
            forall k :: FirstActionableAt(flat, qtype, k) ==>
              ScanAnswer(rrsets, qtype) ==
                if flat[k].rdtype == qtype then Match(flat[k].data) else Alias(flat[k].data)
  {
    ScanAnswerFlat(rrsets, qtype);
    ScanItemsFirst(Flatten(rrsets), qtype);
  }

  /** When the requested type is CNAME, a CNAME record satisfies the type test
      and is returned: the scan never yields an alias to follow. */
  lemma {:induction false} CnameQueryNeverAliases(rrsets: seq<RRset>)
    ensures !ScanAnswer(rrsets, CNAME).Alias?
  {
    if rrsets != [] {
      CnameItemsNeverAlias(rrsets[0]);
      CnameQueryNeverAliases(rrsets[1..]);
    }
  }

  lemma {:induction false} CnameItemsNeverAlias(items: seq<Record>)
    ensures !ScanItems(items, CNAME).Alias?
  {
    if items != [] {
      CnameItemsNeverAlias(items[1..]);
    }
  }

  // ---------------------------------------------------------------------
  // Additional section
  // ---------------------------------------------------------------------

  /** The addresses of the A records among `items`, in order. */
  function GlueItems(items: seq<Record>): seq<Address>
  {
    if items == [] then []
    else
      var last := items[|items| - 1];
      GlueItems(items[..|items| - 1]) + (if last.rdtype == A then [last.data] else [])
  }

  /** The addresses of the A records of a section, rrset by rrset. */
  function Glue(rrsets: seq<RRset>): seq<Address>
  {
    if rrsets == [] then []
    else Glue(rrsets[..|rrsets| - 1]) + GlueItems(rrsets[|rrsets| - 1])
  }

  /** Collecting glue distributes over concatenation: addresses keep the
      order of their records. */
  lemma {:induction false} GlueItemsAppend(a: seq<Record>, b: seq<Record>)
    ensures GlueItems(a + b) == GlueItems(a) + GlueItems(b)
  {
    if b == [] {
      assert a + b == a;
    } else {
      var init := b[..|b| - 1];
      assert (a + b)[..|a + b| - 1] == a + init;
      assert (a + b)[|a + b| - 1] == b[|b| - 1];
      GlueItemsAppend(a, init);
    }
  }

  /** The glue list holds exactly the addresses of A records, and no more
      entries than there are records. */
  lemma {:induction false} GlueItemsMembers(items: seq<Record>)
    ensures |GlueItems(items)| <= |items|
    ensures GlueItems(items) == [] <==> forall k :: 0 <= k < |items| ==> items[k].rdtype != A
    ensures forall x :: x in GlueItems(items) <==>
              exists k :: 0 <= k < |items| && items[k].rdtype == A && items[k].data == x
  {
    if items != [] {
      var init := items[..|items| - 1];
      var last := items[|items| - 1];
      GlueItemsMembers(init);
      forall x | x in GlueItems(items)
        ensures exists k :: 0 <= k < |items| && items[k].rdtype == A && items[k].data == x
      {
        if x in GlueItems(init) {
          var k :| 0 <= k < |init| && init[k].rdtype == A && init[k].data == x;
          assert items[k] == init[k];
        } else {
          assert items[|items| - 1] == last;
        }
      }
      forall x | exists k :: 0 <= k < |items| && items[k].rdtype == A && items[k].data == x
        ensures x in GlueItems(items)
      {
        var k :| 0 <= k < |items| && items[k].rdtype == A && items[k].data == x;
        if k < |items| - 1 {
          assert init[k] == items[k];
        }
      }
    }
  }

  lemma {:induction false} FlattenSnoc(rrsets: seq<RRset>, last: RRset)
    ensures Flatten(rrsets + [last]) == Flatten(rrsets) + last
  {
    if rrsets == [] {
      assert [] + [last] == [last];
      assert [last][1..] == [];
    } else {
      assert (rrsets + [last])[1..] == rrsets[1..] + [last];
      FlattenSnoc(rrsets[1..], last);
    }
  }

  /** The rrset-by-rrset glue collection is the glue of the whole section in
      message order. */
  lemma {:induction false} GlueFlat(rrsets: seq<RRset>)
    ensures Glue(rrsets) == GlueItems(Flatten(rrsets))
  {
    if rrsets != [] {
      var init := rrsets[..|rrsets| - 1];
      var last := rrsets[|rrsets| - 1];
      assert rrsets == init + [last];
      GlueFlat(init);
      FlattenSnoc(init, last);
      GlueItemsAppend(Flatten(init), last);
    }
  }

  // ---------------------------------------------------------------------
  // Authority section
  // ---------------------------------------------------------------------

  /** Position k holds the first NS record of `items`. */
  ghost predicate FirstNsAt(items: seq<Record>, k: int)
  {
    && 0 <= k < |items|
    && items[k].rdtype == NS
    && forall i :: 0 <= i < k ==> items[i].rdtype != NS
  }

  /** The target of the first NS record among `items`. */
  function FirstNs(items: seq<Record>): Option<Name>
  {
    if items == [] then None
    else if items[0].rdtype == NS then Some(items[0].data)
    else FirstNs(items[1..])
  }

  /** The referral the resolver takes: the first NS record of the first rrset
      of the authority section; later rrsets are never looked at. */
  function Referral(authority: seq<RRset>): Option<Name>
  {
    if authority == [] then None else FirstNs(authority[0])
  }

  /** FirstNs finds nothing exactly when there is no NS record, and otherwise
      yields the target of the first one. */
  lemma {:induction false} FirstNsFirst(items: seq<Record>)
    ensures FirstNs(items).None? <==> forall k :: 0 <= k < |items| ==> items[k].rdtype != NS
    ensures forall k :: FirstNsAt(items, k) ==> FirstNs(items) == Some(items[k].data)
  {
    if items != [] {
      var tail := items[1..];
      FirstNsFirst(tail);
      if items[0].rdtype != NS {
        forall k | 0 <= k < |tail| ensures tail[k] == items[k + 1] { }
        forall k | FirstNsAt(items, k) ensures FirstNsAt(tail, k - 1) {
          assert k != 0;
          forall i | 0 <= i < k - 1 ensures tail[i].rdtype != NS {
            assert tail[i] == items[i + 1];
          }
        }
      }
    }
  }

  // ---------------------------------------------------------------------
  // The decision for one response
  // ---------------------------------------------------------------------

  /** What the resolver does with one response. */
  datatype Action =
    | Return(value: string)        // a record of the requested type
    | FollowAlias(target: Name)    // a CNAME met first: resolve its target
    | Extend(glue: seq<Address>)   // glue found: append all of it to the queue
    | Refer(nsName: Name)          // no glue: resolve the first NS name
    | Skip                         // nothing usable: go on with the queue

  /** Answer section first, then glue, then the authority referral. */
  function Decide(response: Response, qtype: RType): Action
  {
    match ScanAnswer(response.answer, qtype)
    case Match(v) => Return(v)
    case Alias(target) => FollowAlias(target)
    case NoAnswer =>
      var glue := Glue(response.additional);
      if glue != [] then Extend(glue)
      else
        match Referral(response.authority)
        case Some(host) => Refer(host)
        case None => Skip
  }
}
