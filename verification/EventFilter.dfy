/** The judging loop of `review-event-log.ts`, over what it reads of an event. */
module EventFilter {
  import opened Results
  import opened Sorting
  import opened Text
  import opened Json

  datatype Issue =
    | SequenceNotIncreasing | DuplicateId | DuplicateKey | ProtocolMismatch | ReviewMismatch
    | ExcludesInvalid | IdentityMismatched | SupersedesUnresolved

  datatype Judged = Judged(event: Json, issues: seq<Issue>)

  /** The filter returns events, or throws. */
  datatype Filtered = Thrown | Kept(events: seq<Json>)

  /** The tests and members that the judging of events goes by; `own` are the issues an event has by
      itself, and `throws` says that finding them out throws. */
  datatype Reading = Reading(
    shaped: Json -> bool,
    sequence: Json -> int,
    id: Json -> Text,
    key: Json -> Text,
    supersedes: Json -> Option<Text>,
    own: Json -> seq<Issue>,
    throws: Json -> bool)

  function SequenceLt(read: Reading): (Json, Json) -> bool {
    (a: Json, b: Json) => read.sequence(a) < read.sequence(b)
  }

  function Ids(read: Reading, events: seq<Json>): set<Text> { set e | e in events :: read.id(e) }

  function Keys(read: Reading, events: seq<Json>): set<Text> { set e | e in events :: read.key(e) }

  // ---------------------------------------------------------------- judging

  function Flag(condition: bool, issue: Issue): seq<Issue> { if condition then [issue] else [] }

  predicate NotAfter(read: Reading, e: Json, prior: seq<Json>) {
    prior != [] && read.sequence(e) <= read.sequence(prior[|prior| - 1])
  }

  /** All issues of an event, given the events before it and the good ones among them. */
  function IssuesOf(read: Reading, prior: seq<Json>, good: seq<Json>, e: Json): seq<Issue> {
    Flag(NotAfter(read, e, prior), SequenceNotIncreasing) + Flag(read.id(e) in Ids(read, good), DuplicateId) +
      Flag(read.key(e) in Keys(read, good), DuplicateKey) +
    read.own(e) + Flag(read.supersedes(e).Some? && read.supersedes(e).value !in Ids(read, good), SupersedesUnresolved)
  }

  /** The events without issues. */
  function Good(judged: seq<Judged>): seq<Json> {
    if judged == [] then []
    else
      var last := judged[|judged| - 1];
      var good := Good(judged[..|judged| - 1]);
      if last.issues == [] then good + [last.event] else good
  }

  /** The verdicts on an ordered list; `None` where one of them throws. */
  function Judge(read: Reading, ordered: seq<Json>): Option<seq<Judged>> {
    if ordered == [] then Some([])
    else
      var prior, e := ordered[..|ordered| - 1], ordered[|ordered| - 1];
      match Judge(read, prior)
      case None => None
      case Some(judged) => if read.throws(e) then None
        else Some(judged + [Judged(e, IssuesOf(read, prior, Good(judged), e))])
  }

  /** The shaped events of an array in sequence order. */
  function Ordered(read: Reading, events: seq<Json>): seq<Json> {
    Sort(Keep(read.shaped, events), SequenceLt(read))
  }

  /** The good events of an array, in sequence order. */
  function Filter(read: Reading, events: seq<Json>): Filtered {
    match Judge(read, Ordered(read, events))
    case None => Thrown
    case Some(judged) => Kept(Good(judged))
  }

  lemma JudgeSnoc(read: Reading, prior: seq<Json>, e: Json)
    ensures Judge(read, prior + [e]) ==
      match Judge(read, prior)
      case None => None
      case Some(judged) => if read.throws(e) then None
        else Some(judged + [Judged(e, IssuesOf(read, prior, Good(judged), e))])
  {
    assert (prior + [e])[..|prior|] == prior;
  }

  lemma GoodSnoc(judged: seq<Judged>, j: Judged)
    ensures Good(judged + [j]) == if j.issues == [] then Good(judged) + [j.event] else Good(judged)
  {
    assert (judged + [j])[..|judged|] == judged;
  }

  lemma GoodIds(read: Reading, judged: seq<Judged>, j: Judged)
    ensures Ids(read, Good(judged + [j])) == Ids(read, Good(judged)) +
      (if j.issues == [] then {read.id(j.event)} else {})
    ensures Keys(read, Good(judged + [j])) == Keys(read, Good(judged)) +
      (if j.issues == [] then {read.key(j.event)} else {})
  {
    GoodSnoc(judged, j);
    KeysSnoc(read, Good(judged), j.event);
  }

  lemma KeysSnoc(read: Reading, prior: seq<Json>, e: Json)
    ensures Ids(read, prior + [e]) == Ids(read, prior) + {read.id(e)}
    ensures Keys(read, prior + [e]) == Keys(read, prior) + {read.key(e)}
  {
  }

  lemma {:induction false} JudgePrefix(read: Reading, ordered: seq<Json>, n: nat)
    requires n <= |ordered| && Judge(read, ordered[..n]).None?
    ensures Judge(read, ordered).None?
  {
    if n < |ordered| {
      assert ordered[..|ordered| - 1][..n] == ordered[..n];
      JudgePrefix(read, ordered[..|ordered| - 1], n);
    } else {
      assert ordered[..n] == ordered;
    }
  }

  // ---------------------------------------------------------------- survivors

  /** An event without any issue, given the events before it and the good ones among them. */
  predicate Survives(read: Reading, prior: seq<Json>, good: seq<Json>, e: Json) {
    !read.throws(e) && read.own(e) == [] && !NotAfter(read, e, prior) && read.id(e) !in Ids(read, good) &&
      read.key(e) !in Keys(read, good) &&
    (read.supersedes(e).Some? ==> read.supersedes(e).value in Ids(read, good))
  }

  lemma SurvivesIff(read: Reading, prior: seq<Json>, good: seq<Json>, e: Json)
    requires !read.throws(e)
    ensures IssuesOf(read, prior, good, e) == [] <==> Survives(read, prior, good, e)
  {
  }

  function Next(read: Reading, prior: seq<Json>, good: seq<Json>, e: Json): seq<Json> {
    if Survives(read, prior, good, e) then good + [e] else good
  }

  /** The good events of an ordered list; `None` where the filter throws. */
  function Survivors(read: Reading, ordered: seq<Json>): Option<seq<Json>> {
    if ordered == [] then Some([])
    else
      var prior, e := ordered[..|ordered| - 1], ordered[|ordered| - 1];
      match Survivors(read, prior)
      case None => None
      case Some(good) => if read.throws(e) then None else Some(Next(read, prior, good, e))
  }

  lemma SurvivorsSnoc(read: Reading, prior: seq<Json>, e: Json)
    ensures Survivors(read, prior + [e]) ==
      match Survivors(read, prior)
      case None => None
      case Some(good) => if read.throws(e) then None else Some(Next(read, prior, good, e))
  {
    assert (prior + [e])[..|prior|] == prior;
  }

  /** The filter is what survives of the shaped events in sequence order. */
  lemma {:induction false} JudgedSurvivors(read: Reading, ordered: seq<Json>)
    ensures Judge(read, ordered).Some? <==> Survivors(read, ordered).Some?
    ensures Judge(read, ordered).Some? ==> Good(Judge(read, ordered).value) == Survivors(read, ordered).value
  {
    if ordered != [] {
      var prior, e := ordered[..|ordered| - 1], ordered[|ordered| - 1];
      JudgedSurvivors(read, prior);
      if Judge(read, prior).Some? && !read.throws(e) {
        var judged := Judge(read, prior).value;
        GoodSnoc(judged, Judged(e, IssuesOf(read, prior, Good(judged), e)));
        SurvivesIff(read, prior, Good(judged), e);
      }
    }
  }

  lemma FilterIsSurvivors(read: Reading, events: seq<Json>)
    ensures Filter(read, events) ==
      match Survivors(read, Ordered(read, events)) case None => Thrown case Some(good) => Kept(good)
  {
    JudgedSurvivors(read, Ordered(read, events));
  }

  // ---------------------------------------------------------------- lists that pass whole

  ghost predicate Fits(read: Reading, events: seq<Json>) {
    events == [] ||
    var prior := events[..|events| - 1];
    Fits(read, prior) && Survives(read, prior, prior, events[|events| - 1])
  }

  lemma FitsSnoc(read: Reading, prior: seq<Json>, e: Json)
    ensures Fits(read, prior + [e]) <==> Fits(read, prior) && Survives(read, prior, prior, e)
  {
    assert (prior + [e])[..|prior|] == prior;
  }

  lemma {:induction false} FitsThroughout(read: Reading, events: seq<Json>)
    requires forall n :: 0 <= n < |events| ==> Survives(read, events[..n], events[..n], events[n])
    ensures Fits(read, events)
  {
    if events != [] {
      var prior := events[..|events| - 1];
      forall n | 0 <= n < |prior| ensures Survives(read, prior[..n], prior[..n], prior[n]) {
        assert prior[..n] == events[..n] && prior[n] == events[n];
      }
      FitsThroughout(read, prior);
    }
  }

  lemma {:induction false} FittingListPasses(read: Reading, events: seq<Json>)
    requires Fits(read, events)
    ensures Survivors(read, events) == Some(events)
  {
    if events != [] {
      var prior, e := events[..|events| - 1], events[|events| - 1];
      FittingListPasses(read, prior);
      assert events == prior + [e];
    }
  }

  lemma {:induction false} FittingListAscends(read: Reading, events: seq<Json>)
    requires Fits(read, events)
    ensures StrictlyAscending(events, SequenceLt(read))
    ensures forall e :: e in events ==> read.own(e) == []
  {
    if events != [] {
      var n := |events| - 1;
      FittingListAscends(read, events[..n]);
      forall i, j | 0 <= i < j < |events| ensures SequenceLt(read)(events[i], events[j]) {
        if j < n {
          assert SequenceLt(read)(events[..n][i], events[..n][j]);
        } else if i < n - 1 {
          assert SequenceLt(read)(events[..n][i], events[..n][n - 1]);
        }
      }
    }
  }

  lemma FittingLogKept(read: Reading, events: seq<Json>)
    requires Fits(read, events) && forall e :: e in events ==> read.shaped(e)
    ensures Filter(read, events) == Kept(events)
  {
    FittingListAscends(read, events);
    KeepAll(read.shaped, events);
    assert Ascending(events, SequenceLt(read));
    SortOfAscending(events, SequenceLt(read));
    FittingListPasses(read, events);
    FilterIsSurvivors(read, events);
  }

  lemma OrderBySequence(read: Reading)
    ensures StrictWeakOrder(SequenceLt(read))
  {
  }

  lemma {:induction false} SurvivorsFit(read: Reading, ordered: seq<Json>)
    requires Survivors(read, ordered).Some? && Ascending(ordered, SequenceLt(read))
    ensures var good := Survivors(read, ordered).value;
      Fits(read, good) && (forall e :: e in good ==> e in ordered)
  {
    if ordered != [] {
      var prior, e := ordered[..|ordered| - 1], ordered[|ordered| - 1];
      assert ordered == prior + [e];
      SurvivorsFit(read, prior);
      var good := Survivors(read, prior).value;
      if Survives(read, prior, good, e) {
        SurvivorBefore(read, good, prior, e);
        FitsSnoc(read, good, e);
      }
    }
  }

  lemma SurvivorBefore(read: Reading, good: seq<Json>, prior: seq<Json>, e: Json)
    requires forall x :: x in good ==> x in prior
    requires Ascending(prior + [e], SequenceLt(read)) && !NotAfter(read, e, prior)
    ensures !NotAfter(read, e, good)
  {
    if good != [] {
      var k := Position(prior, good[|good| - 1]);
      var n := |prior| - 1;
      assert k < n ==> !SequenceLt(read)((prior + [e])[n], (prior + [e])[k]);
    }
  }

  // ---------------------------------------------------------------- main results

  /** Idempotence: what survives, filtered again, survives whole and in the same order. */
  lemma SurvivorsSurvive(read: Reading, events: seq<Json>)
    requires Filter(read, events).Kept?
    ensures var kept := Filter(read, events);
      Filter(read, kept.events) == kept
  {
    var shaped := Keep(read.shaped, events);
    var ordered := Ordered(read, events);
    OrderBySequence(read);
    SortAscending(shaped, SequenceLt(read));
    SameElements(shaped, ordered);
    FilterIsSurvivors(read, events);
    SurvivorsFit(read, ordered);
    var kept := Filter(read, events).events;
    FittingLogKept(read, kept);
  }

  /** Array order does not matter when sequence numbers are distinct. */
  lemma FilterIgnoresOrder(read: Reading, events: seq<Json>, permuted: seq<Json>)
    requires multiset(events) == multiset(permuted)
    requires Separated(Keep(read.shaped, events), SequenceLt(read))
    ensures Filter(read, permuted) == Filter(read, events)
  {
    OrderBySequence(read);
    KeepPermutation(read.shaped, events, permuted);
    SortIgnoresOrder(Keep(read.shaped, events), Keep(read.shaped, permuted), SequenceLt(read));
  }

  lemma {:induction false} SurvivorsAreSound(read: Reading, ordered: seq<Json>)
    requires Survivors(read, ordered).Some?
    ensures forall e :: e in Survivors(read, ordered).value ==> read.own(e) == []
  {
    if ordered != [] {
      SurvivorsAreSound(read, ordered[..|ordered| - 1]);
    }
  }

  // ---------------------------------------------------------------- one bad event more

  /** A bad event in the ordered list leaves the fate of the others as it is. */
  lemma {:induction false} BadEventIsInert(read: Reading, p: seq<Json>, x: Json, q: seq<Json>)
    requires StrictlyAscendingAround(read, p, x, q)
    requires read.own(x) != [] && !read.throws(x)
    ensures Survivors(read, p + [x] + q) == Survivors(read, p + q)
    decreases |q|
  {
    if q == [] {
      assert p + [x] + q == p + [x] && p + q == p;
      SurvivorsSnoc(read, p, x);
    } else {
      var front, e := q[..|q| - 1], q[|q| - 1];
      assert q == front + [e];
      assert p + [x] + q == (p + [x] + front) + [e] && p + q == (p + front) + [e];
      BadEventIsInert(read, p, x, front);
      SurvivorsSnoc(read, p + [x] + front, e);
      SurvivorsSnoc(read, p + front, e);
      LastBefore(read, p, x, front, e);
    }
  }

  /** `x` stands strictly between what is before and what is after it. */
  ghost predicate StrictlyAscendingAround(read: Reading, p: seq<Json>, x: Json, q: seq<Json>) {
    (forall e :: e in p ==> SequenceLt(read)(e, x)) && (forall e :: e in q ==> SequenceLt(read)(x, e))
  }

  lemma LastBefore(read: Reading, p: seq<Json>, x: Json, front: seq<Json>, e: Json)
    requires StrictlyAscendingAround(read, p, x, front + [e])
    ensures NotAfter(read, e, p + [x] + front) <==> NotAfter(read, e, p + front)
  {
    assert e in front + [e];
    if front == [] {
      assert p + [x] + front == p + [x] && p + front == p;
      if p != [] {
        assert p[|p| - 1] in p;
      }
    } else {
      assert (p + [x] + front)[|p + [x] + front| - 1] == front[|front| - 1] == (p + front)[|p + front| - 1];
    }
  }

  /** Inserting an event that is not shaped, or fails one of its own checks without throwing, changes no
      other event's fate, if no shaped event has its sequence number. */
  lemma BadEventIsAlone(read: Reading, before: seq<Json>, x: Json, after: seq<Json>)
    requires forall e :: (e in before || e in after) && read.shaped(e) ==> read.sequence(e) != read.sequence(x)
    requires read.shaped(x) ==> read.own(x) != [] && !read.throws(x)
    ensures Filter(read, before + [x] + after) == Filter(read, before + after)
  {
    ShapedAround(read, before, x, after);
    if read.shaped(x) {
      BadEventInSorted(read, Keep(read.shaped, before), x, Keep(read.shaped, after));
    }
    FilterIsSurvivors(read, before + after);
    FilterIsSurvivors(read, before + [x] + after);
  }

  lemma ShapedAround(read: Reading, before: seq<Json>, x: Json, after: seq<Json>)
    ensures var p := read.shaped;
      && Keep(p, before + after) == Keep(p, before) + Keep(p, after)
      && Keep(p, before + [x] + after) == if read.shaped(x) then Keep(p, before) + [x] + Keep(p, after)
         else Keep(p, before) + Keep(p, after)
  {
    var p := read.shaped;
    KeepConcat(p, before, after);
    KeepConcat(p, before + [x], after);
    KeepConcat(p, before, [x]);
    assert [x][1..] == [];
    assert Keep(p, []) == [];
    assert Keep(p, [x]) == if read.shaped(x) then [x] else [];
    assert Keep(p, before) + [] == Keep(p, before);
  }

  lemma BadEventInSorted(read: Reading, a: seq<Json>, x: Json, b: seq<Json>)
    requires forall e :: e in a || e in b ==> read.sequence(e) != read.sequence(x)
    requires read.own(x) != [] && !read.throws(x)
    ensures Survivors(read, Sort(a + [x] + b, SequenceLt(read))) == Survivors(read, Sort(a + b, SequenceLt(read)))
  {
    var sorted := Sort(a + b, SequenceLt(read));
    var k := PlaceInSorted(read, a, x, b);
    BadEventIsInert(read, sorted[..k], x, sorted[k..]);
    assert sorted == sorted[..k] + sorted[k..];
  }

  /** Where an event with a fresh sequence number stands among the sorted others. */
  lemma PlaceInSorted(read: Reading, a: seq<Json>, x: Json, b: seq<Json>) returns (k: nat)
    requires forall e :: e in a || e in b ==> read.sequence(e) != read.sequence(x)
    ensures var sorted := Sort(a + b, SequenceLt(read));
      && k <= |sorted| && Sort(a + [x] + b, SequenceLt(read)) == sorted[..k] + [x] + sorted[k..]
      && StrictlyAscendingAround(read, sorted[..k], x, sorted[k..])
  {
    OrderBySequence(read);
    k := SortWithout(a, x, b, SequenceLt(read));
    SortAscending(a + [x] + b, SequenceLt(read));
    AroundInSorted(read, a, x, b, Sort(a + b, SequenceLt(read)), k);
  }

  lemma AroundInSorted(read: Reading, a: seq<Json>, x: Json, b: seq<Json>, sorted: seq<Json>, k: nat)
    requires sorted == Sort(a + b, SequenceLt(read)) && k <= |sorted|
    requires Ascending(InsertedAt(x, sorted, k), SequenceLt(read))
    requires forall e :: e in a || e in b ==> read.sequence(e) != read.sequence(x)
    ensures StrictlyAscendingAround(read, sorted[..k], x, sorted[k..])
  {
    SameElements(sorted, a + b);
    var all := InsertedAt(x, sorted, k);
    assert all[k] == x;
    forall e | e in sorted[..k] ensures SequenceLt(read)(e, x) {
      var i := Position(sorted[..k], e);
      assert sorted[i] in a + b;
      assert all[i] == e;
      assert !SequenceLt(read)(all[k], all[i]);
    }
    forall e | e in sorted[k..] ensures SequenceLt(read)(x, e) {
      var i := Position(sorted[k..], e);
      assert sorted[k + i] in a + b;
      assert all[k + 1 + i] == e;
      assert !SequenceLt(read)(all[k + 1 + i], all[k]);
    }
  }

  /** An event whose check throws takes every other with it. */
  lemma ThrowingEventThrows(read: Reading, events: seq<Json>, x: Json)
    requires x in events && read.shaped(x) && read.throws(x)
    ensures Filter(read, events) == Thrown
  {
    var shaped := Keep(read.shaped, events);
    var ordered := Sort(shaped, SequenceLt(read));
    SameElements(shaped, ordered);
    var k := Position(ordered, x);
    assert ordered[..k + 1] == ordered[..k] + [x];
    JudgeSnoc(read, ordered[..k], x);
    JudgePrefix(read, ordered, k + 1);
  }

  /** The filter throws exactly when some event of the right shape does. */
  lemma FilterThrowsIff(read: Reading, events: seq<Json>)
    ensures Filter(read, events) == Thrown <==>
      exists e :: e in events && read.shaped(e) && read.throws(e)
  {
    var shaped := Keep(read.shaped, events);
    var ordered := Sort(shaped, SequenceLt(read));
    SameElements(shaped, ordered);
    if e :| e in events && read.shaped(e) && read.throws(e) {
      ThrowingEventThrows(read, events, e);
    }
    if Judge(read, ordered).None? {
      var e := SomeThrows(read, ordered);
      assert e in shaped && read.shaped(e);
    }
  }

  lemma {:induction false} SomeThrows(read: Reading, ordered: seq<Json>) returns (e: Json)
    requires Judge(read, ordered).None?
    ensures e in ordered && read.throws(e)
  {
    var prior, last := ordered[..|ordered| - 1], ordered[|ordered| - 1];
    if read.throws(last) {
      e := last;
    } else {
      e := SomeThrows(read, prior);
    }
  }
}
