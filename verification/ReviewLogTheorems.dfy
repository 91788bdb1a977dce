/** What every append keeps, and how append, the replay of a stored log and the check of a
    preloaded log relate. */
module ReviewLogTheorems {
  import opened Results
  import opened Sorting
  import opened Text
  import opened ProtocolShapes
  import opened ReviewEvents
  import opened ReviewLog

  /** The two consequences of schema validity that the relation of replay and append needs. */
  ghost predicate SchemaFacts(rules: Rules) {
    forall e :: rules.schemaOk(e) ==> e.body.protocolVersion == PROTOCOL_VERSION && rules.nonBlank(e.body.reviewId)
  }

  // ---------------------------------------------------------------- one append

  /** An append succeeds exactly on a valid log, for an event that replay accepts too and that the
      script cap, which replay leaves out, admits. */
  lemma AppendedIff(rules: Rules, log: Log, e: Event)
    ensures Append(rules, log, e).outcome.Appended? <==>
      && LogIsValid(rules, log)
      && StepOk(rules, log.protocolVersion, log.reviewId, log.events, e)
      && ScriptRule(log.events, e).None?
  {
    assert LocalRejection(rules, e).None? <==>
      SemanticRejection(rules, e).None? && rules.identity(e.body) == Some(e.id);
  }

  lemma SupersededIsPrior(rules: Rules, prior: seq<Event>, e: Event)
    requires ChainRejection(rules, prior, e).None? && e.body.supersedes.Some?
    ensures e.body.supersedes.value in Ids(prior)
  {
    assert SupersessionRule(prior, e).None?;
    var id := e.body.supersedes.value;
    assert ChainFrom(prior, id, {}).Some?;
    assert FindFirst(prior, WithId(id)).Some?;
  }

  lemma StepFitsEntry(rules: Rules, log: Log, prior: seq<Event>, e: Event)
    requires StepOk(rules, log.protocolVersion, log.reviewId, prior, e)
    ensures EntryOk(rules, log, prior, e)
  {
    ChainRejectionIsTheRest(rules, prior, e);
    assert e.body.key !in Keys(prior) by {
      assert forall x :: x in prior ==> !WithKey(e.body.key)(x);
    }
    if e.body.supersedes.Some? {
      SupersededIsPrior(rules, prior, e);
    }
  }

  /** Append closure: what is appended is the old log and one event more, and is valid again. */
  lemma AppendKeepsValidity(rules: Rules, log: Log, e: Event)
    ensures var r := Append(rules, log, e);
      && (r.outcome.Appended? ==>
          r.log == Log(log.protocolVersion, log.reviewId, log.events + [e]) && LogIsValid(rules, r.log))
      && (!r.outcome.Appended? ==> r.log == log)
  {
    if Append(rules, log, e).outcome.Appended? {
      AppendedIff(rules, log, e);
      StepFitsEntry(rules, log, log.events, e);
      EntriesSnoc(rules, log, log.events, e);
      EntriesOfLog(rules, log, Log(log.protocolVersion, log.reviewId, log.events + [e]), log.events + [e]);
    }
  }

  /** The entry check reads only the header of the log it is given. */
  lemma {:induction false} EntriesOfLog(rules: Rules, log: Log, log': Log, events: seq<Event>)
    requires log.protocolVersion == log'.protocolVersion && log.reviewId == log'.reviewId
    ensures EntriesOk(rules, log, events) <==> EntriesOk(rules, log', events)
  {
    if events != [] {
      EntriesOfLog(rules, log, log', events[..|events| - 1]);
    }
  }

  // ---------------------------------------------------------------- idempotence

  lemma IdsAndKeysDistinct(rules: Rules, log: Log, i: nat, j: nat)
    requires EntriesOk(rules, log, log.events) && i < j < |log.events|
    ensures log.events[i].id != log.events[j].id
    ensures log.events[i].body.key != log.events[j].body.key
    ensures log.events[i].body.sequenceNumber < log.events[j].body.sequenceNumber
  {
    EntryAt(rules, log, log.events, j);
    assert log.events[..j][i] == log.events[i];
    SequencesClimb(rules, log, i, j);
  }

  lemma {:induction false} SequencesClimb(rules: Rules, log: Log, i: nat, j: nat)
    requires EntriesOk(rules, log, log.events) && i < j < |log.events|
    ensures log.events[i].body.sequenceNumber < log.events[j].body.sequenceNumber
    decreases j - i
  {
    EntryAt(rules, log, log.events, j);
    assert log.events[..j][j - 1] == log.events[j - 1];
    if i < j - 1 {
      SequencesClimb(rules, log, i, j - 1);
    }
  }

  /** Appending any event of a valid log again changes nothing and says so. */
  lemma ReappendIsNoop(rules: Rules, log: Log, e: Event)
    requires LogIsValid(rules, log) && e in log.events
    ensures Append(rules, log, e) == AppendResult(IdempotentNoop, log)
  {
    var i := Position(log.events, e);
    EntryAt(rules, log, log.events, i);
    SequenceNonNegative(rules, log, i);
    var found := FindFirst(log.events, WithKey(e.body.key));
    assert WithKey(e.body.key)(e);
    var j := Position(log.events, found.value);
    if i < j {
      IdsAndKeysDistinct(rules, log, i, j);
    } else if j < i {
      IdsAndKeysDistinct(rules, log, j, i);
    }
  }

  lemma SequenceNonNegative(rules: Rules, log: Log, i: nat)
    requires EntriesOk(rules, log, log.events) && i < |log.events|
    ensures log.events[i].body.sequenceNumber >= 0
  {
    EntryAt(rules, log, log.events, 0);
    if i > 0 {
      IdsAndKeysDistinct(rules, log, 0, i);
    }
  }

  // ---------------------------------------------------------------- customer-facing history

  lemma ValidLogAscends(rules: Rules, log: Log)
    requires EntriesOk(rules, log, log.events)
    ensures Ascending(log.events, SequenceLt)
  {
    forall i, j | 0 <= i < j < |log.events| ensures !SequenceLt(log.events[j], log.events[i]) {
      IdsAndKeysDistinct(rules, log, i, j);
    }
  }

  /** An append adds at most one entry to the customer's history, at its end, and rewrites none:
      exactly one when the event is customer-facing and no pilot record. */
  lemma HistoryGrowsAtTheEnd(rules: Rules, log: Log, e: Event)
    requires LogIsValid(rules, log)
    ensures var before, after := CustomerHistory(rules, log), CustomerHistory(rules, Append(rules, log, e).log);
      after == before.(entries := before.entries +
        if Append(rules, log, e).outcome.Appended? && ShownToCustomer(e) then [EntryOf(e)] else [])
  {
    AppendKeepsValidity(rules, log, e);
    ValidLogAscends(rules, log);
    SortOfAscending(log.events, SequenceLt);
    if Append(rules, log, e).outcome.Appended? {
      var log' := Append(rules, log, e).log;
      ValidLogAscends(rules, log');
      SortOfAscending(log'.events, SequenceLt);
      assert log'.events[..|log.events|] == log.events;
    }
  }

  // ---------------------------------------------------------------- replay and append

  /** Every validation script event states its package, and no included slot is used twice. */
  ghost predicate ScriptsOk(events: seq<Event>) {
    ScriptsParse(events) && NoDuplicates(IncludedSlots(events))
  }

  lemma {:induction false} SlotsInRange(events: seq<Event>)
    ensures forall s :: s in IncludedSlots(events) ==> 1 <= s <= 3
  {
    if events != [] {
      SlotsInRange(events[..|events| - 1]);
    }
  }

  lemma ThreeSlotsAreAll(slots: seq<int>, slot: int)
    requires NoDuplicates(slots) && |slots| >= 3 && 1 <= slot <= 3
    requires forall s :: s in slots ==> 1 <= s <= 3
    ensures slot in slots
  {
    assert slots[0] in slots && slots[1] in slots && slots[2] in slots;
    assert slots[0] != slots[1] && slots[0] != slots[2] && slots[1] != slots[2];
  }

  /** The cap of an append is exactly what keeps the scripts of a log in order. */
  lemma ScriptRuleKeepsOrder(prior: seq<Event>, e: Event)
    requires ScriptsOk(prior)
    ensures ScriptRule(prior, e).None? <==> ScriptsOk(prior + [e])
  {
    var all := prior + [e];
    assert all[..|prior|] == prior;
    assert IncludedSlots(all) == IncludedSlots(prior) + SlotOf(e);
    assert all[|prior|] == e;
    assert ScriptsParse(all) <==> (IsValidationScriptEvent(e) ==> ScriptPackageOf(e.body.reason).Some?);
    if SlotOf(e) == [] {
      assert IncludedSlots(all) == IncludedSlots(prior);
    } else {
      var slot := SlotOf(e)[0];
      SlotsInRange(prior);
      if |IncludedSlots(prior)| >= 3 {
        ThreeSlotsAreAll(IncludedSlots(prior), slot);
      }
      NoDuplicatesSnoc(IncludedSlots(prior), slot);
    }
  }

  lemma NoDuplicatesSnoc(xs: seq<int>, x: int)
    ensures NoDuplicates(xs + [x]) <==> NoDuplicates(xs) && x !in xs
  {
    if NoDuplicates(xs + [x]) {
      forall i, j | 0 <= i < j < |xs| ensures xs[i] != xs[j] {
        assert (xs + [x])[i] != (xs + [x])[j];
      }
      forall i | 0 <= i < |xs| ensures xs[i] != x {
        assert (xs + [x])[i] != (xs + [x])[|xs|];
      }
    }
  }

  lemma {:induction false} ScriptsOkPrefix(events: seq<Event>, i: nat)
    requires ScriptsOk(events) && i <= |events|
    ensures ScriptsOk(events[..i])
  {
    if i < |events| {
      var n := |events| - 1;
      forall k | 0 <= k < n && IsValidationScriptEvent(events[..n][k])
        ensures ScriptPackageOf(events[..n][k].body.reason).Some? {
        assert events[..n][k] == events[k];
      }
      forall a, b | 0 <= a < b < |IncludedSlots(events[..n])|
        ensures IncludedSlots(events[..n])[a] != IncludedSlots(events[..n])[b] {
        assert IncludedSlots(events)[a] == IncludedSlots(events[..n])[a] &&
          IncludedSlots(events)[b] == IncludedSlots(events[..n])[b];
      }
      ScriptsOkPrefix(events[..n], i);
      assert events[..n][..i] == events[..i];
    } else {
      assert events[..i] == events;
    }
  }

  /** Appending a list of events in order; `None` at the first that is not appended. */
  function FoldAppends(rules: Rules, log: Log, events: seq<Event>): Option<Log> {
    if events == [] then Some(log)
    else
      match FoldAppends(rules, log, events[..|events| - 1])
      case None => None
      case Some(before) =>
        var r := Append(rules, before, events[|events| - 1]);
        if r.outcome.Appended? then Some(r.log) else None
  }

  lemma EmptyLogValid(rules: Rules, protocolVersion: Text, reviewId: Text, e: Event)
    requires SchemaFacts(rules) && StepOk(rules, protocolVersion, reviewId, [], e)
    ensures LogIsValid(rules, Log(protocolVersion, reviewId, []))
  {
  }

  /** A nonempty array that replay accepts is a valid log. */
  lemma {:induction false} ReplayedIsValid(rules: Rules, protocolVersion: Text, reviewId: Text, events: seq<Event>)
    requires SchemaFacts(rules) && ReplayOk(rules, protocolVersion, reviewId, events) && events != []
    ensures LogIsValid(rules, Log(protocolVersion, reviewId, events))
    decreases |events|
  {
    var n := |events| - 1;
    var log := Log(protocolVersion, reviewId, events);
    StepFitsEntry(rules, log, events[..n], events[n]);
    if n > 0 {
      ReplayedIsValid(rules, protocolVersion, reviewId, events[..n]);
      EntriesOfLog(rules, Log(protocolVersion, reviewId, events[..n]), log, events[..n]);
    }
  }

  /** Replay equals a fold of appends: replay accepts an array whose scripts are in order exactly
      when appending its events one by one to the empty log succeeds throughout. */
  lemma {:induction false} ReplayIsFoldOfAppends(rules: Rules, protocolVersion: Text, reviewId: Text,
                                                 events: seq<Event>)
    requires SchemaFacts(rules)
    ensures FoldAppends(rules, Log(protocolVersion, reviewId, []), events) ==
      if ReplayOk(rules, protocolVersion, reviewId, events) && ScriptsOk(events) then
         Some(Log(protocolVersion, reviewId, events)) else None
    decreases |events|
  {
    if events != [] {
      var n := |events| - 1;
      var prior, e := events[..n], events[n];
      var log := Log(protocolVersion, reviewId, prior);
      assert events == prior + [e];
      ReplayIsFoldOfAppends(rules, protocolVersion, reviewId, prior);
      ReplaySnoc(rules, protocolVersion, reviewId, prior, e);
      if ScriptsOk(events) {
        ScriptsOkPrefix(events, n);
      }
      if ReplayOk(rules, protocolVersion, reviewId, prior) && ScriptsOk(prior) {
        ReplayStepAppends(rules, log, e);
      }
    }
  }

  /** On a log that replay accepts, an append is a replay step that keeps the scripts in order. */
  lemma ReplayStepAppends(rules: Rules, log: Log, e: Event)
    requires SchemaFacts(rules) && ReplayOk(rules, log.protocolVersion, log.reviewId, log.events) &&
      ScriptsOk(log.events)
    ensures var r := Append(rules, log, e);
      && (r.outcome.Appended? <==>
          StepOk(rules, log.protocolVersion, log.reviewId, log.events, e) && ScriptsOk(log.events + [e]))
      && (r.outcome.Appended? ==> r.log == Log(log.protocolVersion, log.reviewId, log.events + [e]))
  {
    AppendedIff(rules, log, e);
    AppendKeepsValidity(rules, log, e);
    ScriptRuleKeepsOrder(log.events, e);
    if log.events != [] {
      ReplayedIsValid(rules, log.protocolVersion, log.reviewId, log.events);
    } else if StepOk(rules, log.protocolVersion, log.reviewId, [], e) {
      EmptyLogValid(rules, log.protocolVersion, log.reviewId, e);
    }
  }

  // ---------------------------------------------------------------- whole runs

  /** The log after any attempts, accepted or not. */
  function Run(rules: Rules, log: Log, attempts: seq<Event>): Log {
    if attempts == [] then log
    else Append(rules, Run(rules, log, attempts[..|attempts| - 1]), attempts[|attempts| - 1]).log
  }

  /** Every log reachable by appends from the empty one is one that replay accepts. */
  lemma {:induction false} ReachableIsReplayable(rules: Rules, protocolVersion: Text, reviewId: Text,
                                                 attempts: seq<Event>)
    ensures var log := Run(rules, Log(protocolVersion, reviewId, []), attempts);
      && log.protocolVersion == protocolVersion && log.reviewId == reviewId
      && ReplayOk(rules, protocolVersion, reviewId, log.events)
      && ScriptsOk(log.events)
  {
    if attempts != [] {
      var n := |attempts| - 1;
      ReachableIsReplayable(rules, protocolVersion, reviewId, attempts[..n]);
      var log, e := Run(rules, Log(protocolVersion, reviewId, []), attempts[..n]), attempts[n];
      AppendKeepsValidity(rules, log, e);
      if Append(rules, log, e).outcome.Appended? {
        AppendedIff(rules, log, e);
        ScriptRuleKeepsOrder(log.events, e);
        ReplaySnoc(rules, protocolVersion, reviewId, log.events, e);
      }
    }
  }

  // ---------------------------------------------------------------- what the weak check leaves out

  /** The family and supersession rules, which the check of a preloaded log leaves out. */
  function ChainRejection(rules: Rules, events: seq<Event>, e: Event): Option<Rejection> {
    Or(ScopeRule(events, e),
    Or(VersionedRule(events, e, VerificationEvidenceRecorded, EvidenceFamilyMismatch, EvidenceVersionInvalid),
    Or(VersionedRule(events, e, VerificationRecorded, DecisionFamilyMismatch, DecisionVersionInvalid),
    Or(Epic5Rule(rules, events, e),
    Or(SupersessionRule(events, e),
       ClassificationRefRule(events, e))))))
  }

  lemma ChainRejectionIsTheRest(rules: Rules, events: seq<Event>, e: Event)
    ensures StructuralRejection(rules, events, e).None? <==>
      && e.id !in Ids(events)
      && (forall i :: 0 <= i < |events| ==> events[i].body.sequenceNumber < e.body.sequenceNumber)
      && ChainRejection(rules, events, e).None?
  {
  }

  lemma SequencesBelow(rules: Rules, log: Log, prior: seq<Event>, sequence: int)
    requires EntriesOk(rules, log, prior) && sequence > LastSequence(prior)
    ensures sequence >= 0 && forall i :: 0 <= i < |prior| ==> prior[i].body.sequenceNumber < sequence
  {
    var before := Log(log.protocolVersion, log.reviewId, prior);
    EntriesOfLog(rules, log, before, prior);
    forall i | 0 <= i < |prior| ensures prior[i].body.sequenceNumber < sequence {
      if i < |prior| - 1 {
        IdsAndKeysDistinct(rules, before, i, |prior| - 1);
      }
    }
    if prior != [] {
      SequenceNonNegative(rules, before, |prior| - 1);
    }
  }

  lemma EntryFitsStep(rules: Rules, log: Log, prior: seq<Event>, e: Event)
    requires EntriesOk(rules, log, prior) && EntryOk(rules, log, prior, e)
    ensures StepOk(rules, log.protocolVersion, log.reviewId, prior, e) <==> ChainRejection(rules, prior, e).None?
  {
    SequencesBelow(rules, log, prior, e.body.sequenceNumber);
    ChainRejectionIsTheRest(rules, prior, e);
    assert forall x :: x in prior ==> !WithKey(e.body.key)(x) by {
      assert forall x :: x in prior ==> x.body.key in Keys(prior);
    }
  }

  /** The families and chains of a list of events: each event passes the rules against those before it. */
  predicate ChainsOk(rules: Rules, events: seq<Event>) {
    forall i :: 0 <= i < |events| ==> ChainRejection(rules, events[..i], events[i]).None?
  }

  lemma ChainsSnoc(rules: Rules, prior: seq<Event>, e: Event)
    ensures ChainsOk(rules, prior + [e]) <==> ChainsOk(rules, prior) && ChainRejection(rules, prior, e).None?
  {
    var all := prior + [e];
    assert forall i :: 0 <= i < |prior| ==> all[..i] == prior[..i];
    assert all[..|prior|] == prior && all[|prior|] == e;
    if ChainsOk(rules, all) {
      forall i | 0 <= i < |prior| ensures ChainRejection(rules, prior[..i], prior[i]).None? {
        assert ChainRejection(rules, all[..i], all[i]).None?;
      }
    }
  }

  /** A valid preloaded log replays exactly when its families and chains pass the rules. */
  lemma ValidReplaysIff(rules: Rules, log: Log)
    requires LogIsValid(rules, log)
    ensures ReplayOk(rules, log.protocolVersion, log.reviewId, log.events) <==> ChainsOk(rules, log.events)
  {
    EntriesReplayIff(rules, log, log.events);
  }

  lemma {:induction false} EntriesReplayIff(rules: Rules, log: Log, events: seq<Event>)
    requires EntriesOk(rules, log, events)
    ensures ReplayOk(rules, log.protocolVersion, log.reviewId, events) <==> ChainsOk(rules, events)
  {
    if events != [] {
      var n := |events| - 1;
      var prior, e := events[..n], events[n];
      assert events == prior + [e];
      EntriesSnoc(rules, log, prior, e);
      EntriesReplayIff(rules, log, prior);
      EntryFitsStep(rules, log, prior, e);
      ReplaySnoc(rules, log.protocolVersion, log.reviewId, prior, e);
      ChainsSnoc(rules, prior, e);
    }
  }
}
