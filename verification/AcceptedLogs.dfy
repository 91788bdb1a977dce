/** Which logs replay accepts, said without its rules: families, chains, lifecycles and references. */
module AcceptedLogs {
  import opened Results
  import opened Sorting
  import opened ReviewEvents
  import opened ReviewLog
  import opened ReviewLogTheorems
  import opened FamilyTheorems

  /** Every superseding event reaches a root, along a chain that is pure for it. */
  ghost predicate ChainsPure(events: seq<Event>) {
    forall i :: 0 <= i < |events| && events[i].body.supersedes.Some? ==> ChainPureAt(events, i)
  }

  ghost predicate ChainPureAt(events: seq<Event>, i: nat)
    requires i < |events| && events[i].body.supersedes.Some?
  {
    var chain := ChainFrom(events, events[i].body.supersedes.value, {});
    chain.Some? && PureChain(events[i], chain.value)
  }

  /** The first earlier event that matches is there, and not later in time. */
  ghost predicate FollowsFirst(rules: Rules, events: seq<Event>, j: nat, matches: Event -> bool)
    requires j < |events|
  {
    exists g :: 0 <= g < j && matches(events[g]) && !Earlier(rules, events[j], events[g]) &&
      forall k :: 0 <= k < g ==> !matches(events[k])
  }

  /** Finalizations follow their generated manifest, exports their finalization. */
  ghost predicate LifecyclesKept(rules: Rules, events: seq<Event>) {
    forall j :: 0 <= j < |events| ==>
      && (events[j].body.eventType.AttestationPackageFinalized? ==>
          FollowsFirst(rules, events, j, GeneratedFor(events[j])))
      && (events[j].body.eventType.AttestationPackageExported? ==>
          FollowsFirst(rules, events, j, FinalizedFor(events[j])))
  }

  /** A superseded classification was recorded before, and neither a customer's event nor one of the two
      outcomes supersedes one. */
  ghost predicate ReferencesKept(events: seq<Event>) {
    forall j :: 0 <= j < |events| && events[j].body.supersedesClassification.Some? ==>
      && !events[j].body.eventType.FalsePositiveRecorded? && !events[j].body.eventType.CustomerAcceptedRiskRecorded? &&
         !FromCustomer(events[j])
      && exists i :: 0 <= i < j && Classifies(events[i], events[j].body.supersedesClassification.value)
  }

  // ---------------------------------------------------------------- what the weak check gives

  lemma ValidIds(rules: Rules, log: Log)
    requires EntriesOk(rules, log, log.events)
    ensures DistinctIds(log.events) && LinksBack(log.events)
  {
    forall i, j | 0 <= i < j < |log.events| ensures log.events[i].id != log.events[j].id {
      IdsAndKeysDistinct(rules, log, i, j);
    }
    forall k | 0 <= k < |log.events| && log.events[k].body.supersedes.Some?
      ensures exists m :: 0 <= m < k && log.events[m].id == log.events[k].body.supersedes.value
    {
      EntryAt(rules, log, log.events, k);
      var x :| x in log.events[..k] && x.id == log.events[k].body.supersedes.value;
      var m := Position(log.events[..k], x);
      assert log.events[m] == x;
    }
  }

  // ---------------------------------------------------------------- from the rules to the properties

  lemma FirstFound(rules: Rules, events: seq<Event>, j: nat, matches: Event -> bool)
    requires j < |events|
    ensures FollowsFirst(rules, events, j, matches) <==>
      FindFirst(events[..j], matches).Some? && !Earlier(rules, events[j], FindFirst(events[..j], matches).value)
  {
    if FindFirst(events[..j], matches).Some? {
      var g := FirstMatch(events[..j], matches);
      assert events[..j][g] == events[g];
      assert forall k :: 0 <= k < g ==> events[..j][k] == events[k];
      if FollowsFirst(rules, events, j, matches) {
        var g' :| 0 <= g' < j && matches(events[g']) && !Earlier(rules, events[j], events[g']) &&
          forall k :: 0 <= k < g' ==> !matches(events[k]);
        assert g' == g;
      }
    } else {
      forall g | 0 <= g < j ensures !matches(events[g]) {
        assert events[..j][g] == events[g] && events[..j][g] in events[..j];
      }
    }
  }

  lemma LifecycleIff(rules: Rules, events: seq<Event>, j: nat)
    requires j < |events|
    ensures LifecycleRule(rules, events[..j], events[j]).None? <==>
      && (events[j].body.eventType.AttestationPackageFinalized? ==>
          FollowsFirst(rules, events, j, GeneratedFor(events[j])))
      && (events[j].body.eventType.AttestationPackageExported? ==>
          FollowsFirst(rules, events, j, FinalizedFor(events[j])))
  {
    FirstFound(rules, events, j, GeneratedFor(events[j]));
    FirstFound(rules, events, j, FinalizedFor(events[j]));
  }

  lemma ReferenceIff(events: seq<Event>, j: nat)
    requires j < |events|
    ensures ClassificationRefRule(events[..j], events[j]).None? <==>
      (events[j].body.supersedesClassification.Some? ==>
        && !events[j].body.eventType.FalsePositiveRecorded? &&
           !events[j].body.eventType.CustomerAcceptedRiskRecorded? && !FromCustomer(events[j])
        && exists i :: 0 <= i < j && Classifies(events[i], events[j].body.supersedesClassification.value))
  {
    if events[j].body.supersedesClassification.Some? {
      var record := events[j].body.supersedesClassification.value;
      assert forall i :: 0 <= i < j ==> events[..j][i] == events[i];
      if i :| 0 <= i < j && Classifies(events[i], record) {
        assert Classifies(events[..j][i], record);
      }
    }
  }

  lemma ChainAt(rules: Rules, log: Log, j: nat)
    requires EntriesOk(rules, log, log.events) && j < |log.events| && log.events[j].body.supersedes.Some?
    ensures var s := log.events[j].body.supersedes.value;
      && ChainFrom(log.events[..j], s, {}) == ChainFrom(log.events, s, {})
      && ChainFrom(log.events, s, {}).Some? && WholeWalk(ChainFrom(log.events, s, {}).value, s)
  {
    ValidIds(rules, log);
    var m := LinkBack(log.events, j);
    WalkIsWhole(log.events, m, {});
    WalkIsStable(log.events, log.events[..j], m, {});
  }

  // ---------------------------------------------------------------- from the properties to the rules

  lemma PureChainRules(e: Event, chain: seq<Event>)
    requires PureChain(e, chain)
    ensures !(FromCustomer(e) && (Has(chain, ClassificationRecorded) || Has(chain, RemediationGuidanceRecorded) ||
                                  Has(chain, ValidationRecorded) || Has(chain, FalsePositiveRecorded)))
    ensures forall t, why :: IsPureType(t) ==> PureRule(e, chain, t, why).None?
  {
    forall t, why | IsPureType(t) ensures PureRule(e, chain, t, why).None? {
      if e.body.eventType == t {
        assert !HasOtherThan(chain, t);
      } else {
        assert !Has(chain, t);
      }
    }
  }

  /** A member that continues its family keeps the version rule of its kind. */
  lemma ContinuingScope(prior: seq<Event>, e: Event)
    requires Linear(prior) && (MemberOf(e).Some? ==> Continues(prior, e, MemberOf(e).value))
    requires e.body.eventType.VerificationScopeRecorded? ==> MemberOf(e).Some?
    ensures ScopeRule(prior, e).None?
  {
    if MemberOf(e).Some? {
      LookupsFindLast(prior, MemberOf(e).value.family);
    }
  }

  /** The event that a continuing member supersedes is the head of its family. */
  lemma SupersededHead(prior: seq<Event>, e: Event)
    requires DistinctIds(prior) && MemberOf(e).Some? && Continues(prior, e, MemberOf(e).value)
    ensures FindById(prior, e.body.supersedes) == LastOf(prior, MemberOf(e).value.family)
    ensures e.body.supersedes.Some? <==> LastOf(prior, MemberOf(e).value.family).Some?
  {
    var p := LastMember(prior, MemberOf(e).value.family);
    if p >= 0 {
      FindAt(prior, p);
    }
  }

  lemma OneFamilyOneType(a: Event, e: Event)
    requires MemberOf(e).Some? && InFamily(a, MemberOf(e).value.family)
    ensures a.body.eventType == e.body.eventType
  {
  }

  /** What the lookups of the version rules find for a continuing member. */
  ghost predicate HeadKnown(prior: seq<Event>, e: Event, head: Option<Event>) {
    && MemberOf(e).Some? && head == LastOf(prior, MemberOf(e).value.family) &&
       FindById(prior, e.body.supersedes) == head
    && LatestVerification(prior, MemberOf(e).value.family) == head
    && LatestEpic5(prior, MemberOf(e).value.family) == head
    && (if head.Some? then e.body.supersedes == Some(head.value.id) && VersionOf(head.value) < VersionOf(e) &&
        head.value.body.eventType == e.body.eventType
        else e.body.supersedes.None? && (MemberOf(e).value.family.ScopeFamily? || VersionOf(e) == 1))
  }

  lemma HeadIsKnown(prior: seq<Event>, e: Event)
    requires DistinctIds(prior) && Linear(prior) && MemberOf(e).Some? && Continues(prior, e, MemberOf(e).value)
    ensures HeadKnown(prior, e, LastOf(prior, MemberOf(e).value.family))
  {
    var head := LastOf(prior, MemberOf(e).value.family);
    LookupsFindLast(prior, MemberOf(e).value.family);
    SupersededHead(prior, e);
    if head.Some? {
      OneFamilyOneType(head.value, e);
    }
  }

  lemma KnownHeadVersioned(prior: seq<Event>, e: Event, head: Option<Event>, t: EventType, mismatch: Rejection,
                           invalid: Rejection)
    requires HeadKnown(prior, e, head) && e.body.eventType == t && MemberOf(e).value.family.review == e.body.reviewId
    requires t.VerificationEvidenceRecorded? || t.VerificationRecorded?
    ensures VersionedRule(prior, e, t, mismatch, invalid).None?
  {
    assert ActiveVerification(prior, e) == head;
  }

  lemma ContinuingVersioned(prior: seq<Event>, e: Event, t: EventType, mismatch: Rejection, invalid: Rejection)
    requires DistinctIds(prior) && Linear(prior) && (t.VerificationEvidenceRecorded? || t.VerificationRecorded?)
    requires e.body.eventType == t ==>
      MemberOf(e).Some? && Continues(prior, e, MemberOf(e).value) && MemberOf(e).value.family.review == e.body.reviewId
    ensures VersionedRule(prior, e, t, mismatch, invalid).None?
  {
    if e.body.eventType == t {
      HeadIsKnown(prior, e);
      KnownHeadVersioned(prior, e, LastOf(prior, MemberOf(e).value.family), t, mismatch, invalid);
    }
  }

  lemma KnownHeadEpic5(rules: Rules, prior: seq<Event>, e: Event, head: Option<Event>)
    requires HeadKnown(prior, e, head) && IsEpic5(e.body.eventType) && LifecycleRule(rules, prior, e).None?
    ensures Epic5Rule(rules, prior, e).None?
  {
  }

  lemma ContinuingEpic5(rules: Rules, prior: seq<Event>, e: Event)
    requires DistinctIds(prior) && Linear(prior)
    requires IsEpic5(e.body.eventType) ==> MemberOf(e).Some? && Continues(prior, e, MemberOf(e).value)
    requires LifecycleRule(rules, prior, e).None?
    ensures Epic5Rule(rules, prior, e).None?
  {
    if IsEpic5(e.body.eventType) {
      HeadIsKnown(prior, e);
      KnownHeadEpic5(rules, prior, e, LastOf(prior, MemberOf(e).value.family));
    }
  }

  lemma ContinuingCorrection(prior: seq<Event>, e: Event, chain: seq<Event>)
    requires DistinctIds(prior) && Linear(prior) && MemberOf(e).Some? && Continues(prior, e, MemberOf(e).value)
    requires e.body.supersedes.Some? && ChainFrom(prior, e.body.supersedes.value, {}) == Some(chain)
    ensures var active := LastOf(prior, MemberOf(e).value.family); CorrectionValid(e, Head(chain), active)
  {
    SupersededHead(prior, e);
    ChainStarts(prior, e.body.supersedes.value);
  }

  /** Families and chains in order leave nothing for the supersession rule to reject. */
  lemma ContinuingChain(prior: seq<Event>, e: Event, chain: seq<Event>)
    requires DistinctIds(prior) && Linear(prior) && PureChain(e, chain)
    requires e.body.supersedes.Some? && ChainFrom(prior, e.body.supersedes.value, {}) == Some(chain)
    requires e.body.eventType.VerificationScopeRecorded? || e.body.eventType.VerificationEvidenceRecorded? ||
             e.body.eventType.VerificationRecorded? ==>
      MemberOf(e).Some? && Continues(prior, e, MemberOf(e).value) && MemberOf(e).value.family.review == e.body.reviewId
    ensures ChainRules(prior, e, chain).None?
  {
    PureChainRules(e, chain);
    if e.body.eventType.VerificationScopeRecorded? || e.body.eventType.VerificationEvidenceRecorded? ||
       e.body.eventType.VerificationRecorded? {
      LookupsFindLast(prior, MemberOf(e).value.family);
      ContinuingCorrection(prior, e, chain);
    }
  }

  predicate IsVersioned(t: EventType) {
    IsEpic5(t) || t.VerificationScopeRecorded? || t.VerificationEvidenceRecorded? || t.VerificationRecorded?
  }

  lemma TypedMember(rules: Rules, log: Log, prior: seq<Event>, e: Event)
    requires EntryOk(rules, log, prior, e)
    ensures IsVersioned(e.body.eventType) ==> MemberOf(e).Some? && MemberOf(e).value.family.review == e.body.reviewId
  {
    assert TypedRefsMatch(e);
    if MemberOf(e).Some? {
      MemberCases(e);
    }
  }

  lemma LinearPrefix(events: seq<Event>, j: nat)
    requires Linear(events) && j <= |events|
    ensures Linear(events[..j])
  {
    forall k | 0 <= k < j && MemberOf(events[..j][k]).Some?
      ensures Continues(events[..j][..k], events[..j][k], MemberOf(events[..j][k]).value) {
      assert events[..j][..k] == events[..k] && events[..j][k] == events[k];
    }
  }

  lemma PropertiesGiveRules(rules: Rules, log: Log, j: nat)
    requires EntriesOk(rules, log, log.events) && j < |log.events|
    requires Linear(log.events) && ChainsPure(log.events) && LifecyclesKept(rules, log.events) &&
      ReferencesKept(log.events)
    ensures ChainRejection(rules, log.events[..j], log.events[j]).None?
  {
    var events := log.events;
    var prior, e := events[..j], events[j];
    ValidIds(rules, log);
    EntryAt(rules, log, events, j);
    TypedMember(rules, log, prior, e);
    LinearPrefix(events, j);
    LifecycleIff(rules, events, j);
    ReferenceIff(events, j);
    ContinuingScope(prior, e);
    ContinuingVersioned(prior, e, VerificationEvidenceRecorded, EvidenceFamilyMismatch, EvidenceVersionInvalid);
    ContinuingVersioned(prior, e, VerificationRecorded, DecisionFamilyMismatch, DecisionVersionInvalid);
    ContinuingEpic5(rules, prior, e);
    ChainNotRejected(rules, log, j);
  }

  lemma ChainNotRejected(rules: Rules, log: Log, j: nat)
    requires EntriesOk(rules, log, log.events) && j < |log.events|
    requires Linear(log.events) && ChainsPure(log.events)
    ensures SupersessionRule(log.events[..j], log.events[j]).None?
  {
    var events := log.events;
    if events[j].body.supersedes.Some? {
      EntryFacts(rules, log, j);
      ChainAt(rules, log, j);
      assert ChainPureAt(events, j);
      PureChainNotRejected(events, j, ChainFrom(events[..j], events[j].body.supersedes.value, {}).value);
    }
  }

  lemma EntryFacts(rules: Rules, log: Log, j: nat)
    requires EntriesOk(rules, log, log.events) && j < |log.events|
    ensures var e := log.events[j];
      && DistinctIds(log.events[..j])
      && (IsVersioned(e.body.eventType) ==> MemberOf(e).Some? && MemberOf(e).value.family.review == e.body.reviewId)
  {
    ValidIds(rules, log);
    EntryAt(rules, log, log.events, j);
    TypedMember(rules, log, log.events[..j], log.events[j]);
  }

  lemma PureChainNotRejected(events: seq<Event>, j: nat, chain: seq<Event>)
    requires j < |events| && DistinctIds(events[..j]) && Linear(events) && events[j].body.supersedes.Some?
    requires ChainFrom(events[..j], events[j].body.supersedes.value, {}) == Some(chain) && PureChain(events[j], chain)
    requires IsVersioned(events[j].body.eventType) ==>
      MemberOf(events[j]).Some? && MemberOf(events[j]).value.family.review == events[j].body.reviewId
    ensures SupersessionRule(events[..j], events[j]).None?
  {
    LinearPrefix(events, j);
    ContinuingChain(events[..j], events[j], chain);
  }

  // ---------------------------------------------------------------- the characterization

  lemma RulesGiveProperties(rules: Rules, log: Log)
    requires LogIsValid(rules, log) && ReplayOk(rules, log.protocolVersion, log.reviewId, log.events)
    ensures Linear(log.events) && ChainsPure(log.events) && LifecyclesKept(rules, log.events) &&
      ReferencesKept(log.events)
  {
    var events := log.events;
    ReplayedIsLinear(rules, log.protocolVersion, log.reviewId, events);
    forall i | 0 <= i < |events| && events[i].body.supersedes.Some? ensures ChainPureAt(events, i) {
      SupersessionIsPure(rules, log.protocolVersion, log.reviewId, events, i);
    }
    ValidReplaysIff(rules, log);
    RejectionsGiveRest(rules, events);
  }

  lemma RejectionsGiveRest(rules: Rules, events: seq<Event>)
    requires ChainsOk(rules, events)
    ensures LifecyclesKept(rules, events) && ReferencesKept(events)
  {
    forall j | 0 <= j < |events|
      ensures LifecycleRule(rules, events[..j], events[j]).None? && ClassificationRefRule(events[..j], events[j]).None?
    {
      assert ChainRejection(rules, events[..j], events[j]).None?;
    }
    forall j | 0 <= j < |events|
      ensures events[j].body.eventType.AttestationPackageFinalized? ==>
        FollowsFirst(rules, events, j, GeneratedFor(events[j]))
      ensures events[j].body.eventType.AttestationPackageExported? ==>
        FollowsFirst(rules, events, j, FinalizedFor(events[j]))
    {
      LifecycleIff(rules, events, j);
    }
    forall j | 0 <= j < |events| && events[j].body.supersedesClassification.Some?
      ensures !events[j].body.eventType.FalsePositiveRecorded? &&
        !events[j].body.eventType.CustomerAcceptedRiskRecorded? && !FromCustomer(events[j])
      ensures exists i :: 0 <= i < j && Classifies(events[i], events[j].body.supersedesClassification.value)
    {
      ReferenceIff(events, j);
    }
  }

  /** A valid log replays exactly when its families are linear, its chains are pure, its packages keep
      their lifecycle, and its classification references hold. */
  lemma ReplayIff(rules: Rules, log: Log)
    requires LogIsValid(rules, log)
    ensures ReplayOk(rules, log.protocolVersion, log.reviewId, log.events) <==>
      Linear(log.events) && ChainsPure(log.events) && LifecyclesKept(rules, log.events) && ReferencesKept(log.events)
  {
    if Linear(log.events) && ChainsPure(log.events) && LifecyclesKept(rules, log.events) && ReferencesKept(log.events) {
      forall j | 0 <= j < |log.events| ensures ChainRejection(rules, log.events[..j], log.events[j]).None? {
        PropertiesGiveRules(rules, log, j);
      }
      ValidReplaysIff(rules, log);
    }
    if ReplayOk(rules, log.protocolVersion, log.reviewId, log.events) {
      RulesGiveProperties(rules, log);
    }
  }
}
