/** Whole-run properties of the review event log: versioned families are linear, supersession
    chains are pure, and packages go from generated to finalized to exported. */
module FamilyTheorems {
  import opened Results
  import opened Sorting
  import opened Text
  import opened ReviewEvents
  import opened ReviewLog
  import opened ReviewLogTheorems

  // ---------------------------------------------------------------- positions in a replayed log

  lemma ReplayOrder(rules: Rules, protocolVersion: Text, reviewId: Text, events: seq<Event>, i: nat, j: nat)
    requires ReplayOk(rules, protocolVersion, reviewId, events) && i < j < |events|
    ensures events[i].id != events[j].id
    ensures events[i].body.sequenceNumber < events[j].body.sequenceNumber
  {
    ReplayAt(rules, protocolVersion, reviewId, events, j);
    var prior := events[..j];
    assert StructuralRejection(rules, prior, events[j]).None?;
    assert prior[i] == events[i] && prior[i] in prior;
    assert events[i].id in Ids(prior);
  }

  ghost predicate DistinctIds(events: seq<Event>) {
    forall i, j :: 0 <= i < j < |events| ==> events[i].id != events[j].id
  }

  lemma ReplayIds(rules: Rules, protocolVersion: Text, reviewId: Text, events: seq<Event>)
    requires ReplayOk(rules, protocolVersion, reviewId, events)
    ensures DistinctIds(events)
  {
    forall i, j | 0 <= i < j < |events| ensures events[i].id != events[j].id {
      ReplayOrder(rules, protocolVersion, reviewId, events, i, j);
    }
  }

  lemma FindAt(events: seq<Event>, k: nat)
    requires DistinctIds(events) && k < |events|
    ensures FindFirst(events, WithId(events[k].id)) == Some(events[k])
  {
    assert WithId(events[k].id)(events[k]);
    var found := FindFirst(events, WithId(events[k].id));
    var m := Position(events, found.value);
    assert m < k || k < m || m == k;
  }

  // ---------------------------------------------------------------- linear families

  /** The position of the last member of a family, or -1. */
  function LastMember(events: seq<Event>, f: Family): (p: int)
    ensures -1 <= p < |events|
    ensures p >= 0 ==> InFamily(events[p], f)
    ensures forall i :: p < i < |events| ==> !InFamily(events[i], f)
  {
    if events == [] then -1
    else if InFamily(events[|events| - 1], f) then |events| - 1
    else LastMember(events[..|events| - 1], f)
  }

  /** `e` continues its family in `prior`: it supersedes the last member so far and has a higher
      version; or it is the first, supersedes nothing, and has version 1 unless it is a scope. */
  ghost predicate Continues(prior: seq<Event>, e: Event, m: Member) {
    var p := LastMember(prior, m.family);
    if p >= 0 then e.body.supersedes == Some(prior[p].id) && VersionOf(prior[p]) < m.version
    else e.body.supersedes.None? && (m.family.ScopeFamily? || m.version == 1)
  }

  ghost predicate Linear(events: seq<Event>) {
    forall j :: 0 <= j < |events| && MemberOf(events[j]).Some? ==>
      Continues(events[..j], events[j], MemberOf(events[j]).value)
  }

  /** Along a family of a linear log versions strictly increase. */
  lemma {:induction false} VersionsClimb(events: seq<Event>, f: Family, i: nat, j: nat)
    requires Linear(events) && i < j < |events| && InFamily(events[i], f) && InFamily(events[j], f)
    ensures VersionOf(events[i]) < VersionOf(events[j])
    decreases j
  {
    assert Continues(events[..j], events[j], MemberOf(events[j]).value);
    var p := LastMember(events[..j], f);
    assert events[..j][i] == events[i];
    assert i <= p && events[..j][p] == events[p];
    if i < p {
      VersionsClimb(events, f, i, p);
    }
  }

  lemma {:induction false} NoMembers(events: seq<Event>, f: Family)
    requires LastMember(events, f) < 0
    ensures Members(events, f) == []
  {
    if events != [] {
      NoMembers(events[..|events| - 1], f);
    }
  }

  lemma OlderMember(events: seq<Event>, f: Family, i: nat)
    requires Linear(events) && LastMember(events, f) >= 0
    requires i < |events| && InFamily(events[i], f) && i != LastMember(events, f)
    ensures VersionOf(events[i]) < VersionOf(events[LastMember(events, f)])
  {
    VersionsClimb(events, f, i, LastMember(events, f));
  }

  lemma LastIsNewest(events: seq<Event>, f: Family)
    requires Linear(events) && LastMember(events, f) >= 0
    ensures var last := events[LastMember(events, f)];
      && last in Members(events, f)
      && (forall x :: x in Members(events, f) && x != last ==> VersionOf(x) < VersionOf(last))
  {
    var p := LastMember(events, f);
    forall x | x in Members(events, f) && x != events[p] ensures VersionOf(x) < VersionOf(events[p]) {
      OlderMember(events, f, Position(events, x));
    }
  }

  /** In a linear log both sort-based lookups return the last-appended member. */
  lemma LookupsFindLast(events: seq<Event>, f: Family)
    requires Linear(events)
    ensures var p := LastMember(events, f);
      && LatestVerification(events, f) == (if p < 0 then None else Some(events[p]))
      && LatestEpic5(events, f) == (if p < 0 then None else Some(events[p]))
  {
    if LastMember(events, f) < 0 {
      NothingFound(events, f);
    } else {
      LastIsNewest(events, f);
      NewestIsFound(events, f, events[LastMember(events, f)]);
    }
  }

  lemma NothingFound(events: seq<Event>, f: Family)
    requires LastMember(events, f) < 0
    ensures LatestVerification(events, f) == None && LatestEpic5(events, f) == None
  {
    NoMembers(events, f);
  }

  lemma NewestIsFound(events: seq<Event>, f: Family, last: Event)
    requires last in Members(events, f)
    requires forall x :: x in Members(events, f) && x != last ==> VersionOf(x) < VersionOf(last)
    ensures LatestVerification(events, f) == Some(last) && LatestEpic5(events, f) == Some(last)
  {
    var up, down := NewestIsSorted(Members(events, f), last);
    LookupsReadEnds(events, f, up, down);
  }

  lemma LookupsReadEnds(events: seq<Event>, f: Family, up: seq<Event>, down: seq<Event>)
    requires up == Sort(Members(events, f), VersionLt) && down == Sort(Members(events, f), VersionGt)
    requires up != [] && down != []
    ensures LatestVerification(events, f) == Some(up[|up| - 1]) && LatestEpic5(events, f) == Some(down[0])
  {
  }

  lemma NewestIsSorted(members: seq<Event>, last: Event) returns (up: seq<Event>, down: seq<Event>)
    requires last in members
    requires forall x :: x in members && x != last ==> VersionOf(x) < VersionOf(last)
    ensures up == Sort(members, VersionLt) && up != [] && up[|up| - 1] == last
    ensures down == Sort(members, VersionGt) && down != [] && down[0] == last
  {
    up, down := Sort(members, VersionLt), Sort(members, VersionGt);
    forall x | x in members && x != last ensures VersionLt(x, last) && !VersionLt(last, x) && VersionGt(last, x) &&
      !VersionGt(x, last) {
    }
    SortPutsMaximumLast(members, last, VersionLt);
    SortPutsMinimumFirst(members, last, VersionGt);
  }

  lemma ChainStarts(events: seq<Event>, id: Text)
    requires ChainFrom(events, id, {}).Some?
    ensures FindFirst(events, WithId(id)).Some?
    ensures Head(ChainFrom(events, id, {}).value) == FindFirst(events, WithId(id))
  {
  }

  lemma StepKnownChain(rules: Rules, protocolVersion: Text, reviewId: Text, prior: seq<Event>, e: Event)
    requires StepOk(rules, protocolVersion, reviewId, prior, e) && e.body.supersedes.Some?
    ensures ChainFrom(prior, e.body.supersedes.value, {}).Some?
    ensures ChainRules(prior, e, ChainFrom(prior, e.body.supersedes.value, {}).value).None?
  {
    assert StructuralRejection(rules, prior, e).None?;
    assert SupersessionRule(prior, e).None?;
  }

  /** The member that the lookup of a family returns in a linear log. */
  function LastOf(prior: seq<Event>, f: Family): Option<Event> {
    var p := LastMember(prior, f);
    if p < 0 then None else Some(prior[p])
  }

  lemma ScopeContinues(prior: seq<Event>, e: Event, m: Member)
    requires MemberOf(e) == Some(m) && e.body.eventType.VerificationScopeRecorded?
    requires LatestVerification(prior, m.family) == LastOf(prior, m.family)
    requires DistinctIds(prior)
    requires ScopeRule(prior, e).None?
    requires e.body.supersedes.Some? ==>
      ChainFrom(prior, e.body.supersedes.value, {}).Some? &&
      ScopeCorrectionRule(prior, e, ChainFrom(prior, e.body.supersedes.value, {}).value).None?
    ensures Continues(prior, e, m)
  {
    var p := LastMember(prior, m.family);
    if e.body.supersedes.Some? {
      var id := e.body.supersedes.value;
      ChainStarts(prior, id);
      var superseded := FindFirst(prior, WithId(id)).value;
      assert InFamily(superseded, m.family) && VersionOf(e) > VersionOf(superseded);
      var k := Position(prior, superseded);
      assert k <= p;
      FindAt(prior, p);
    }
  }

  lemma VersionedContinues(prior: seq<Event>, e: Event, m: Member, t: EventType, mismatch: Rejection,
                           invalid: Rejection)
    requires MemberOf(e) == Some(m) && e.body.eventType == t && m.family.review == e.body.reviewId
    requires LatestVerification(prior, m.family) == LastOf(prior, m.family)
    requires VersionedRule(prior, e, t, mismatch, invalid).None?
    requires e.body.supersedes.Some? ==>
      ChainFrom(prior, e.body.supersedes.value, {}).Some? &&
      VersionedCorrectionRule(prior, e, ChainFrom(prior, e.body.supersedes.value, {}).value, t, invalid).None?
    ensures Continues(prior, e, m)
  {
    assert ActiveVerification(prior, e) == LastOf(prior, m.family);
  }

  lemma Epic5Continues(rules: Rules, prior: seq<Event>, e: Event, m: Member)
    requires MemberOf(e) == Some(m) && IsEpic5(e.body.eventType)
    requires LatestEpic5(prior, m.family) == LastOf(prior, m.family)
    requires Epic5Rule(rules, prior, e).None?
    ensures Continues(prior, e, m)
  {
  }

  lemma StepRules(rules: Rules, protocolVersion: Text, reviewId: Text, prior: seq<Event>, e: Event)
    requires StepOk(rules, protocolVersion, reviewId, prior, e)
    ensures TypedRefsMatch(e)
    ensures ScopeRule(prior, e).None? && Epic5Rule(rules, prior, e).None?
    ensures VersionedRule(prior, e, VerificationEvidenceRecorded, EvidenceFamilyMismatch, EvidenceVersionInvalid).None?
    ensures VersionedRule(prior, e, VerificationRecorded, DecisionFamilyMismatch, DecisionVersionInvalid).None?
  {
    assert StructuralRejection(rules, prior, e).None?;
  }

  lemma MemberCases(e: Event)
    requires MemberOf(e).Some?
    ensures e.body.eventType.VerificationScopeRecorded? || e.body.eventType.VerificationEvidenceRecorded? ||
      e.body.eventType.VerificationRecorded? || IsEpic5(e.body.eventType)
    ensures TypedRefsMatch(e) ==> MemberOf(e).value.family.review == e.body.reviewId
  {
  }

  lemma StepContinues(rules: Rules, protocolVersion: Text, reviewId: Text, prior: seq<Event>, e: Event)
    requires ReplayOk(rules, protocolVersion, reviewId, prior) && Linear(prior)
    requires StepOk(rules, protocolVersion, reviewId, prior, e) && MemberOf(e).Some?
    ensures Continues(prior, e, MemberOf(e).value)
  {
    var m := MemberOf(e).value;
    LookupsFindLast(prior, m.family);
    MemberCases(e);
    if IsEpic5(e.body.eventType) {
      StepRules(rules, protocolVersion, reviewId, prior, e);
      Epic5Continues(rules, prior, e, m);
    } else {
      StepContinuesVerification(rules, protocolVersion, reviewId, prior, e, m);
    }
  }

  lemma StepContinuesVerification(rules: Rules, protocolVersion: Text, reviewId: Text, prior: seq<Event>, e: Event,
                                  m: Member)
    requires ReplayOk(rules, protocolVersion, reviewId, prior)
    requires StepOk(rules, protocolVersion, reviewId, prior, e) && MemberOf(e) == Some(m) && !IsEpic5(e.body.eventType)
    requires LatestVerification(prior, m.family) == LastOf(prior, m.family)
    ensures Continues(prior, e, m)
  {
    StepRules(rules, protocolVersion, reviewId, prior, e);
    ReplayIds(rules, protocolVersion, reviewId, prior);
    MemberCases(e);
    if e.body.supersedes.Some? {
      StepKnownChain(rules, protocolVersion, reviewId, prior, e);
      ChainCorrections(prior, e, ChainFrom(prior, e.body.supersedes.value, {}).value);
    }
    if e.body.eventType.VerificationScopeRecorded? {
      ScopeContinues(prior, e, m);
    } else if e.body.eventType.VerificationEvidenceRecorded? {
      VersionedContinues(prior, e, m, VerificationEvidenceRecorded, EvidenceFamilyMismatch, EvidenceVersionInvalid);
    } else {
      VersionedContinues(prior, e, m, VerificationRecorded, DecisionFamilyMismatch, DecisionVersionInvalid);
    }
  }

  lemma ChainCorrections(prior: seq<Event>, e: Event, chain: seq<Event>)
    requires ChainRules(prior, e, chain).None?
    ensures ScopeCorrectionRule(prior, e, chain).None?
    ensures VersionedCorrectionRule(prior, e, chain, VerificationEvidenceRecorded, EvidenceVersionInvalid).None?
    ensures VersionedCorrectionRule(prior, e, chain, VerificationRecorded, DecisionVersionInvalid).None?
  {
  }

  lemma LinearSnoc(prior: seq<Event>, e: Event)
    requires Linear(prior)
    requires MemberOf(e).Some? ==> Continues(prior, e, MemberOf(e).value)
    ensures Linear(prior + [e])
  {
    var events := prior + [e];
    forall j | 0 <= j < |events| && MemberOf(events[j]).Some?
      ensures Continues(events[..j], events[j], MemberOf(events[j]).value)
    {
      if j < |prior| {
        assert prior[j] == events[j] && prior[..j] == events[..j];
      } else {
        assert events[..j] == prior;
      }
    }
  }

  lemma StepStaysLinear(rules: Rules, protocolVersion: Text, reviewId: Text, prior: seq<Event>, e: Event)
    requires ReplayOk(rules, protocolVersion, reviewId, prior) && Linear(prior)
    requires StepOk(rules, protocolVersion, reviewId, prior, e)
    ensures Linear(prior + [e])
  {
    if MemberOf(e).Some? {
      StepContinues(rules, protocolVersion, reviewId, prior, e);
    }
    LinearSnoc(prior, e);
  }

  /** What holds of the empty list and is kept by every step holds of every stepwise list. */
  lemma {:induction false} StepwiseKeeps(step: (seq<Event>, Event) -> bool, inv: seq<Event> -> bool, events: seq<Event>)
    requires Stepwise(step, events) && inv([])
    requires forall prior, e :: Stepwise(step, prior) && inv(prior) && step(prior, e) ==> inv(prior + [e])
    ensures inv(events)
  {
    if events != [] {
      var n := |events| - 1;
      StepwiseKeeps(step, inv, events[..n]);
      assert events[..n] + [events[n]] == events;
    }
  }

  ghost function IsLinear(): seq<Event> -> bool {
    (events: seq<Event>) => Linear(events)
  }

  /** Versioned families are linear in every log that replay accepts. */
  lemma ReplayedIsLinear(rules: Rules, protocolVersion: Text, reviewId: Text, events: seq<Event>)
    requires ReplayOk(rules, protocolVersion, reviewId, events)
    ensures Linear(events)
  {
    var step := StepFor(rules, protocolVersion, reviewId);
    forall prior, e | Stepwise(step, prior) && IsLinear()(prior) && step(prior, e) ensures IsLinear()(prior + [e]) {
      StepStaysLinear(rules, protocolVersion, reviewId, prior, e);
    }
    StepwiseKeeps(step, IsLinear(), events);
  }

  // ---------------------------------------------------------------- supersession chains

  lemma ChainUnfold(events: seq<Event>, id: Text, visited: set<Text>)
    requires id !in visited && FindFirst(events, WithId(id)).Some?
    ensures var e := FindFirst(events, WithId(id)).value;
      ChainFrom(events, id, visited) == Prepend([e], ChainOn(events, e.body.supersedes, visited + {id}))
  {
    ChainStep(events, id, visited);
  }

  /** `chain` is the whole way from `id` along `supersedes`, down to an event that supersedes nothing. */
  ghost predicate WholeWalk(chain: seq<Event>, id: Text) {
    && chain != []
    && chain[0].id == id
    && (forall k :: 0 < k < |chain| ==> chain[k - 1].body.supersedes == Some(chain[k].id))
    && chain[|chain| - 1].body.supersedes.None?
  }

  lemma SupersedesEarlier(rules: Rules, protocolVersion: Text, reviewId: Text, events: seq<Event>, k: nat)
    returns (m: nat)
    requires ReplayOk(rules, protocolVersion, reviewId, events) && k < |events| && events[k].body.supersedes.Some?
    ensures m < k && events[k].body.supersedes == Some(events[m].id)
  {
    ReplayAt(rules, protocolVersion, reviewId, events, k);
    StepKnownChain(rules, protocolVersion, reviewId, events[..k], events[k]);
    var id := events[k].body.supersedes.value;
    ChainStarts(events[..k], id);
    m := Position(events[..k], FindFirst(events[..k], WithId(id)).value);
  }

  /** Links lead to earlier positions. */
  ghost predicate LinksBack(events: seq<Event>) {
    forall k :: 0 <= k < |events| && events[k].body.supersedes.Some? ==>
      exists m :: 0 <= m < k && events[m].id == events[k].body.supersedes.value
  }

  lemma ReplayLinksBack(rules: Rules, protocolVersion: Text, reviewId: Text, events: seq<Event>)
    requires ReplayOk(rules, protocolVersion, reviewId, events)
    ensures LinksBack(events)
  {
    forall k | 0 <= k < |events| && events[k].body.supersedes.Some?
      ensures exists m :: 0 <= m < k && events[m].id == events[k].body.supersedes.value
    {
      var m := SupersedesEarlier(rules, protocolVersion, reviewId, events, k);
    }
  }

  /** The walk never meets an id twice, so it ends at a root. */
  lemma {:induction false} WalkIsWhole(events: seq<Event>, k: nat, visited: set<Text>)
    requires DistinctIds(events) && LinksBack(events) && k < |events|
    requires forall i :: 0 <= i <= k ==> events[i].id !in visited
    ensures var chain := ChainFrom(events, events[k].id, visited);
      chain.Some? && WholeWalk(chain.value, events[k].id)
    decreases k
  {
    var id := events[k].id;
    FindAt(events, k);
    ChainUnfold(events, id, visited);
    if events[k].body.supersedes.Some? {
      var m := LinkBack(events, k);
      WalkIsWhole(events, m, visited + {id});
      WholeWalkCons(events[k], ChainFrom(events, events[m].id, visited + {id}).value, events[m].id);
    } else {
      assert [events[k]] + [] == [events[k]];
    }
  }

  lemma SameFind(events: seq<Event>, n: nat, k: nat)
    requires DistinctIds(events) && k < n <= |events|
    ensures FindFirst(events[..n], WithId(events[k].id)) == FindFirst(events, WithId(events[k].id)) == Some(events[k])
  {
    assert events[..n][k] == events[k];
    FindAt(events[..n], k);
    FindAt(events, k);
  }

  /** The walk does not look beyond its start: later events leave it as it is. */
  lemma {:induction false} WalkIsStable(events: seq<Event>, log: seq<Event>, k: nat, visited: set<Text>)
    requires DistinctIds(events) && LinksBack(events) && k < |log| && log <= events
    requires forall i :: 0 <= i <= k ==> events[i].id !in visited
    ensures ChainFrom(log, events[k].id, visited) == ChainFrom(events, events[k].id, visited)
    decreases k
  {
    var id := events[k].id;
    assert log == events[..|log|];
    SameFind(events, |log|, k);
    if events[k].body.supersedes.Some? {
      var m := LinkBack(events, k);
      WalkIsStable(events, log, m, visited + {id});
    }
    SameStart(log, events, events[k], visited);
  }

  lemma SameStart(log: seq<Event>, events: seq<Event>, e: Event, visited: set<Text>)
    requires e.id !in visited && FindFirst(log, WithId(e.id)) == FindFirst(events, WithId(e.id)) == Some(e)
    requires e.body.supersedes.Some? ==>
      ChainFrom(log, e.body.supersedes.value, visited + {e.id}) == ChainFrom(events, e.body.supersedes.value,
          visited + {e.id})
    ensures ChainFrom(log, e.id, visited) == ChainFrom(events, e.id, visited)
  {
    ChainUnfold(log, e.id, visited);
    ChainUnfold(events, e.id, visited);
  }

  lemma LinkBack(events: seq<Event>, k: nat) returns (m: nat)
    requires LinksBack(events) && k < |events| && events[k].body.supersedes.Some?
    ensures m < k && events[m].id == events[k].body.supersedes.value
  {
    m :| 0 <= m < k && events[m].id == events[k].body.supersedes.value;
  }

  lemma WholeWalkCons(e: Event, rest: seq<Event>, id: Text)
    requires WholeWalk(rest, id) && e.body.supersedes == Some(id)
    ensures WholeWalk([e] + rest, e.id)
  {
    var chain := [e] + rest;
    assert chain[|chain| - 1] == rest[|rest| - 1];
    forall k | 0 < k < |chain| ensures chain[k - 1].body.supersedes == Some(chain[k].id) {
      if k > 1 {
        assert chain[k] == rest[k - 1] && chain[k - 1] == rest[k - 2];
      }
    }
  }

  /** A type that is superseded only by its own kind and supersedes only its own kind. */
  predicate IsPureType(t: EventType) {
    t.VerificationScopeRecorded? || t.VerificationEvidenceRecorded? || t.VerificationRecorded? ||
      t.FalsePositiveRecorded? || t.CustomerAcceptedRiskRecorded?
  }

  ghost predicate PureChain(e: Event, chain: seq<Event>) {
    && (FromCustomer(e) ==> forall k :: 0 <= k < |chain| ==>
          chain[k].body.eventType !in {ClassificationRecorded, RemediationGuidanceRecorded, ValidationRecorded,
              FalsePositiveRecorded})
    && (forall t | IsPureType(t) ::
        forall k :: 0 <= k < |chain| ==> (chain[k].body.eventType == t <==> e.body.eventType == t))
  }

  lemma ChainRulesPure(events: seq<Event>, e: Event, chain: seq<Event>)
    requires ChainRules(events, e, chain).None?
    ensures PureChain(e, chain)
  {
    forall t | IsPureType(t)
      ensures forall k :: 0 <= k < |chain| ==> (chain[k].body.eventType == t <==> e.body.eventType == t)
    {
      if e.body.eventType == t {
        assert !HasOtherThan(chain, t);
      } else {
        assert !Has(chain, t);
      }
    }
    if FromCustomer(e) {
      assert !Has(chain, ClassificationRecorded) && !Has(chain, RemediationGuidanceRecorded) &&
        !Has(chain, ValidationRecorded) && !Has(chain, FalsePositiveRecorded);
    }
  }

  /** In every log that replay accepts, the chain of every superseding event is whole and pure: a
      customer's event reaches no expert record, and each of the five pure types is in the chain
      only of its own kind, and then alone. */
  lemma SupersessionIsPure(rules: Rules, protocolVersion: Text, reviewId: Text, events: seq<Event>, i: nat)
    requires ReplayOk(rules, protocolVersion, reviewId, events) && i < |events| && events[i].body.supersedes.Some?
    ensures var chain := ChainFrom(events, events[i].body.supersedes.value, {});
      && chain.Some? && WholeWalk(chain.value, events[i].body.supersedes.value)
      && PureChain(events[i], chain.value)
  {
    var e, prior := events[i], events[..i];
    var m := SupersedesEarlier(rules, protocolVersion, reviewId, events, i);
    ReplayIds(rules, protocolVersion, reviewId, events);
    ReplayLinksBack(rules, protocolVersion, reviewId, events);
    WalkIsWhole(events, m, {});
    WalkIsStable(events, events[..i], m, {});
    ReplayAt(rules, protocolVersion, reviewId, events, i);
    StepKnownChain(rules, protocolVersion, reviewId, prior, e);
    ChainRulesPure(prior, e, ChainFrom(prior, e.body.supersedes.value, {}).value);
  }

  // ---------------------------------------------------------------- package lifecycle

  lemma FirstMatch(events: seq<Event>, p: Event -> bool) returns (g: nat)
    requires FindFirst(events, p).Some?
    ensures g < |events| && events[g] == FindFirst(events, p).value && p(events[g])
    ensures forall k :: 0 <= k < g ==> !p(events[k])
  {
    if p(events[0]) {
      g := 0;
    } else {
      var g' := FirstMatch(events[1..], p);
      g := g' + 1;
      assert forall k :: 0 < k < g ==> events[k] == events[1..][k - 1];
    }
  }

  lemma StepLifecycle(rules: Rules, protocolVersion: Text, reviewId: Text, events: seq<Event>, i: nat)
    requires ReplayOk(rules, protocolVersion, reviewId, events) && i < |events|
    ensures LifecycleRule(rules, events[..i], events[i]).None?
  {
    ReplayAt(rules, protocolVersion, reviewId, events, i);
    AdmittedLifecycle(rules, events[..i], events[i]);
  }

  lemma AdmittedLifecycle(rules: Rules, prior: seq<Event>, e: Event)
    requires StructuralRejection(rules, prior, e).None?
    ensures LifecycleRule(rules, prior, e).None?
  {
    assert Epic5Rule(rules, prior, e).None?;
  }

  lemma FirstGenerated(rules: Rules, prior: seq<Event>, e: Event) returns (g: nat)
    requires e.body.eventType.AttestationPackageFinalized? && LifecycleRule(rules, prior, e).None?
    ensures g < |prior| && Generated(prior[g], e) && !Earlier(rules, e, prior[g])
    ensures forall k :: 0 <= k < g ==> !Generated(prior[k], e)
  {
    g := FirstMatch(prior, GeneratedFor(e));
    forall k | 0 <= k < g ensures !Generated(prior[k], e) {
      assert !GeneratedFor(e)(prior[k]);
    }
  }

  /** Every finalization has an earlier generated event for the manifest it names, and is not
      earlier in time than the first such. */
  lemma FinalizationLifecycle(rules: Rules, protocolVersion: Text, reviewId: Text, events: seq<Event>, i: nat)
    returns (g: nat)
    requires ReplayOk(rules, protocolVersion, reviewId, events) && i < |events|
    requires events[i].body.eventType.AttestationPackageFinalized?
    ensures g < i && Generated(events[g], events[i]) && !Earlier(rules, events[i], events[g])
    ensures forall k :: 0 <= k < g ==> !Generated(events[k], events[i])
  {
    StepLifecycle(rules, protocolVersion, reviewId, events, i);
    g := FirstGenerated(rules, events[..i], events[i]);
    forall k | 0 <= k < g ensures !Generated(events[k], events[i]) {
      assert events[..i][k] == events[k];
    }
  }

  lemma FinalizedFamilies(f: Event, e: Event)
    requires Finalized(f, e)
    ensures InFamily(f, Epic5Family(AttestationPackageFinalized, f.body.key.review, f.body.key.bundle))
    ensures VersionOf(f) == f.body.key.version == e.body.key.version
  {
  }

  /** Every export has exactly one finalization with its review, bundle, version, record, manifest
      and generated manifest; it is earlier in the log, not later in time, and itself has an
      earlier generated event for that generated manifest. */
  lemma ExportLifecycle(rules: Rules, protocolVersion: Text, reviewId: Text, events: seq<Event>, j: nat)
    returns (i: nat, g: nat)
    requires ReplayOk(rules, protocolVersion, reviewId, events) && j < |events|
    requires events[j].body.eventType.AttestationPackageExported?
    ensures g < i < j
    ensures Finalized(events[i], events[j]) && !Earlier(rules, events[j], events[i])
    ensures forall k :: 0 <= k < |events| && Finalized(events[k], events[j]) ==> k == i
    ensures Generated(events[g], events[i]) && !Earlier(rules, events[i], events[g])
    ensures forall k :: 0 <= k < g ==> !Generated(events[k], events[i])
  {
    StepLifecycle(rules, protocolVersion, reviewId, events, j);
    i := FirstMatch(events[..j], FinalizedFor(events[j]));
    assert FinalizedFor(events[j])(events[i]);
    FinalizedFamilies(events[i], events[j]);
    ReplayedIsLinear(rules, protocolVersion, reviewId, events);
    var f := Epic5Family(AttestationPackageFinalized, events[i].body.key.review, events[i].body.key.bundle);
    forall k | 0 <= k < |events| && Finalized(events[k], events[j]) ensures k == i {
      FinalizedFamilies(events[k], events[j]);
      if k < i {
        VersionsClimb(events, f, k, i);
      } else if i < k {
        VersionsClimb(events, f, i, k);
      }
    }
    g := FinalizationLifecycle(rules, protocolVersion, reviewId, events, i);
  }

  /** No two exports share a finalization: the exports of a bundle inject into its finalizations. */
  lemma ExportsInject(rules: Rules, protocolVersion: Text, reviewId: Text, events: seq<Event>, i: nat, j: nat, k: nat)
    requires ReplayOk(rules, protocolVersion, reviewId, events) && i < |events| && j < |events| && k < |events|
    requires events[j].body.eventType.AttestationPackageExported? &&
      events[k].body.eventType.AttestationPackageExported?
    requires Finalized(events[i], events[j]) && Finalized(events[i], events[k])
    ensures j == k
  {
    ReplayedIsLinear(rules, protocolVersion, reviewId, events);
    ExportFamily(events[i], events[j]);
    ExportFamily(events[i], events[k]);
    var f := Epic5Family(AttestationPackageExported, events[i].body.key.review, events[i].body.key.bundle);
    if j < k {
      VersionsClimb(events, f, j, k);
    } else if k < j {
      VersionsClimb(events, f, k, j);
    }
  }

  lemma ExportFamily(f: Event, e: Event)
    requires Finalized(f, e) && e.body.eventType.AttestationPackageExported?
    ensures InFamily(e, Epic5Family(AttestationPackageExported, f.body.key.review, f.body.key.bundle))
    ensures VersionOf(e) == f.body.key.version
  {
  }

  // ---------------------------------------------------------------- every run

  /** After any sequence of append attempts on the empty log, all families are linear, the lookups
      return last-appended members, and all supersession chains are whole and pure. */
  lemma EveryRunKeepsFamiliesAndChains(rules: Rules, protocolVersion: Text, reviewId: Text, attempts: seq<Event>)
    ensures var events := Run(rules, Log(protocolVersion, reviewId, []), attempts).events;
      && ReplayOk(rules, protocolVersion, reviewId, events)
      && Linear(events)
      && (forall i :: 0 <= i < |events| && events[i].body.supersedes.Some? ==>
            var chain := ChainFrom(events, events[i].body.supersedes.value, {});
            chain.Some? && WholeWalk(chain.value, events[i].body.supersedes.value) && PureChain(events[i], chain.value))
      && (forall f: Family :: LastMember(events, f) >= 0 ==>
            LatestVerification(events, f) == LatestEpic5(events, f) == Some(events[LastMember(events, f)]))
  {
    ReachableIsReplayable(rules, protocolVersion, reviewId, attempts);
    var events := Run(rules, Log(protocolVersion, reviewId, []), attempts).events;
    ReplayedIsLinear(rules, protocolVersion, reviewId, events);
    forall i | 0 <= i < |events| && events[i].body.supersedes.Some?
      ensures var chain := ChainFrom(events, events[i].body.supersedes.value, {});
        chain.Some? && WholeWalk(chain.value, events[i].body.supersedes.value) && PureChain(events[i], chain.value)
    {
      SupersessionIsPure(rules, protocolVersion, reviewId, events, i);
    }
    forall f: Family | LastMember(events, f) >= 0
      ensures LatestVerification(events, f) == LatestEpic5(events, f) == Some(events[LastMember(events, f)])
    {
      LookupsFindLast(events, f);
    }
  }
}
