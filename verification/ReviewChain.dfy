/** `verifyReviewChainHead` of `transparency-verify.ts`: the hash chain over one review's events. */
module ReviewChain {
  import opened Results
  import opened SafeIntegers
  import opened Sorting
  import opened Text
  import opened Json
  import opened CanonicalIdentity
  import opened ProtocolShapes

  const MAX_REVIEW_EVENTS: nat := 10_000

  datatype ChainVerdict = Verified | InvalidEvents | InvalidClaimedHead | HeadMismatch

  /** What the chain commits to of one event. */
  datatype Link = Link(sequence: nat, eventId: Text)

  datatype ReadEvent = ReadEvent(link: Link, reviewId: Text)

  predicate LinkLt(a: Link, b: Link) { a.sequence < b.sequence }

  // ---------------------------------------------------------------- hashing

  function LeafDomain(): Bytes { AsciiBytes("codeattest:v0:review-log-leaf") }

  function HeadDomain(): Bytes { AsciiBytes("codeattest:v0:review-log-head") }

  function EmptyDomain(): Bytes { AsciiBytes("codeattest:v0:review-log-empty") }

  function LeafInput(link: Link): Bytes {
    LeafDomain() + BigEndian(link.sequence, 8) + Utf8(link.eventId)
  }

  /** The last input hashed for a list of links. */
  function HeadInput(h: HashFn, links: seq<Link>): Bytes
    decreases |links|, 0
  {
    var n := |links|;
    if n == 0 then EmptyDomain()
    else if n == 1 then HeadDomain() + h(LeafInput(links[0]))
    else HeadDomain() + ChainHead(h, links[..n - 1]) + h(LeafInput(links[n - 1]))
  }

  function ChainHead(h: HashFn, links: seq<Link>): Digest
    decreases |links|, 1
  {
    h(HeadInput(h, links))
  }

  /** Everything hashed for the head of `links`. */
  ghost function ChainInputs(h: HashFn, links: seq<Link>): set<Bytes> {
    if links == [] then {HeadInput(h, links)}
    else ChainInputs(h, links[..|links| - 1]) + {HeadInput(h, links), LeafInput(links[|links| - 1])}
  }

  // ---------------------------------------------------------------- reading events

  /** `schemaOk` stands for validation against the review-event schema. */
  function ReadOne(h: HashFn, schemaOk: Json -> bool, v: Json): Option<ReadEvent> {
    if !v.Obj? || !schemaOk(v) then None
    else
      match (NumberField(v, Lit("sequence_number")), StringField(v, Lit("event_id")), StringField(v, Lit("review_id")))
      case (Some(sequence), Some(id), Some(review)) =>
        if !IsSafeInteger(sequence) || sequence < 0 || !IsPrefixedSha256(id) || !IsReviewId(review) then None
        else if ExcludedFieldsIdentity(h, v, [Lit("event_id")], None) != Ok(Some(id)) then None
        else Some(ReadEvent(Link(sequence, id), review))
      case _ => None
  }

  type Reader = Json -> Option<ReadEvent>

  function EventReader(h: HashFn, schemaOk: Json -> bool): Reader {
    v => ReadOne(h, schemaOk, v)
  }

  predicate Readable(read: Reader, items: seq<Json>) {
    (forall i :: 0 <= i < |items| ==> read(items[i]).Some?) &&
    (forall i :: 0 <= i < |items| ==> read(items[i]).value.reviewId == read(items[0]).value.reviewId)
  }

  function LinkOf(read: Reader, v: Json): Link {
    match read(v)
    case Some(e) => e.link
    case None => Link(0, [])
  }

  function Links(read: Reader, items: seq<Json>): (r: seq<Link>)
    ensures |r| == |items|
    ensures forall i :: 0 <= i < |items| ==> r[i] == LinkOf(read, items[i])
  {
    seq(|items|, i requires 0 <= i < |items| => LinkOf(read, items[i]))
  }

  predicate DistinctSequences(links: seq<Link>) {
    forall i, j :: 0 <= i < j < |links| ==> links[i].sequence != links[j].sequence
  }

  /** The links an event array commits to, in sequence order; `None` where it is refused. */
  function Committed(read: Reader, events: Json): Option<seq<Link>> {
    if !events.Arr? || |events.items| > MAX_REVIEW_EVENTS || !Readable(read, events.items) then None
    else
      var links := Links(read, events.items);
      if DistinctSequences(links) then Some(Sort(links, LinkLt)) else None
  }

  function ReviewChainVerdict(h: HashFn, schemaOk: Json -> bool, events: Json, claimedHead: Json): ChainVerdict {
    if !(claimedHead.Str? && IsSha256Hex(claimedHead.s)) then InvalidClaimedHead
    else
      match Committed(EventReader(h, schemaOk), events)
      case None => InvalidEvents
      case Some(links) => if ChainHead(h, links) == HexDecode(claimedHead.s) then Verified else HeadMismatch
  }

  lemma LinkOrder()
    ensures StrictWeakOrder(LinkLt)
  {
  }

  // ---------------------------------------------------------------- the verifier

  method ReadLinks(read: Reader, items: seq<Json>) returns (r: Option<seq<Link>>)
    ensures r == if Readable(read, items) then Some(Links(read, items)) else None
  {
    var ordered: seq<Link> := [];
    var reviewId: Option<Text> := None;
    var index := 0;
    while index < |items|
      invariant 0 <= index <= |items| && |ordered| == index
      invariant forall i :: 0 <= i < index ==> read(items[i]).Some?
      invariant forall i :: 0 <= i < index ==> Some(read(items[i]).value.reviewId) == reviewId
      invariant forall i :: 0 <= i < index ==> ordered[i] == LinkOf(read, items[i])
      invariant index > 0 ==> reviewId.Some?
      invariant index == 0 ==> reviewId.None?
    {
      var event := read(items[index]);
      if event.None? {
        return None;
      }
      if reviewId.None? {
        reviewId := Some(event.value.reviewId);
      }
      if event.value.reviewId != reviewId.value {
        return None;
      }
      ordered := ordered + [event.value.link];
      index := index + 1;
    }
    assert ordered == Links(read, items);
    return Some(ordered);
  }

  method HasRepeat(ordered: seq<Link>, ghost links: seq<Link>) returns (repeat: bool)
    requires ordered == Sort(links, LinkLt)
    ensures repeat == !DistinctSequences(links)
  {
    LinkOrder();
    SortAscending(links, LinkLt);
    var index := 1;
    while index < |ordered|
      invariant 1 <= index
      invariant forall i :: 0 < i < index && i < |ordered| ==> ordered[i - 1].sequence < ordered[i].sequence
    {
      if ordered[index].sequence == ordered[index - 1].sequence {
        AdjacentRepeat(links, index);
        return true;
      }
      assert !LinkLt(ordered[index], ordered[index - 1]);
      index := index + 1;
    }
    NoRepeat(links);
    return false;
  }

  method RecomputeReviewChainHead(h: HashFn, read: Reader, events: Json) returns (r: Option<Digest>)
    ensures r == match Committed(read, events) case None => None case Some(links) => Some(ChainHead(h, links))
  {
    if !events.Arr? || |events.items| > MAX_REVIEW_EVENTS {
      return None;
    }
    var links := ReadLinks(read, events.items);
    if links.None? {
      return None;
    }
    var ordered := Sort(links.value, LinkLt);
    var repeat := HasRepeat(ordered, links.value);
    if repeat {
      return None;
    }
    var head := HashLinks(h, ordered);
    return Some(head);
  }

  /** Adjacent equal sequence numbers in the sorted list are equal sequence numbers in the list. */
  lemma AdjacentRepeat(links: seq<Link>, k: nat)
    requires 0 < k < |links| && Sort(links, LinkLt)[k - 1].sequence == Sort(links, LinkLt)[k].sequence
    ensures !DistinctSequences(links)
  {
    var sorted := Sort(links, LinkLt);
    if DistinctSequences(links) {
      LinkOrder();
      SortStrict(links, LinkLt);
      assert false;
    }
  }

  lemma NoRepeat(links: seq<Link>)
    requires forall i :: 0 < i < |links| ==> Sort(links, LinkLt)[i - 1].sequence < Sort(links, LinkLt)[i].sequence
    ensures DistinctSequences(links)
  {
    var sorted := Sort(links, LinkLt);
    Climbs(sorted);
    LinkOrder();
    SeparatedPermutation(sorted, links, LinkLt);
    forall i, j | 0 <= i < j < |links| ensures links[i].sequence != links[j].sequence {
      assert LinkLt(links[i], links[j]) || LinkLt(links[j], links[i]);
    }
  }

  lemma {:induction false} Climbs(links: seq<Link>)
    requires forall i :: 0 < i < |links| ==> links[i - 1].sequence < links[i].sequence
    ensures StrictlyAscending(links, LinkLt)
  {
    if links != [] {
      var n := |links| - 1;
      Climbs(links[..n]);
      forall i, j | 0 <= i < j < |links| ensures LinkLt(links[i], links[j]) {
        if j == n && i < n - 1 {
          assert LinkLt(links[..n][i], links[..n][n - 1]);
        } else if j < n {
          assert LinkLt(links[..n][i], links[..n][j]);
        }
      }
    }
  }

  method HashLinks(h: HashFn, ordered: seq<Link>) returns (r: Digest)
    ensures r == ChainHead(h, ordered)
  {
    if |ordered| == 0 {
      return h(EmptyDomain());
    }
    var head: Option<Digest> := None;
    var index := 0;
    while index < |ordered|
      invariant 0 <= index <= |ordered|
      invariant head == if index == 0 then None else Some(ChainHead(h, ordered[..index]))
    {
      assert ordered[..index + 1][..index] == ordered[..index];
      var leaf := h(LeafInput(ordered[index]));
      head := Some(if head.None? then h(HeadDomain() + leaf) else h(HeadDomain() + head.value + leaf));
      index := index + 1;
    }
    assert ordered[..index] == ordered;
    return head.value;
  }

  method VerifyReviewChainHead(h: HashFn, schemaOk: Json -> bool, events: Json, claimedHead: Json)
    returns (verdict: ChainVerdict)
    ensures verdict == ReviewChainVerdict(h, schemaOk, events, claimedHead)
  {
    if !(claimedHead.Str? && IsSha256Hex(claimedHead.s)) {
      return InvalidClaimedHead;
    }
    var computed := RecomputeReviewChainHead(h, EventReader(h, schemaOk), events);
    if computed.None? {
      return InvalidEvents;
    }
    HexRoundTrip(computed.value);
    return if HexDecode(HexEncode(computed.value)) == HexDecode(claimedHead.s) then Verified else HeadMismatch;
  }
}
