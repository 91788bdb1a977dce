# Verification model of the CodeAttest core

A Dafny model of the parts of CodeAttest that decide what a review may claim: the append-only review
event log and its versioned families, the evidence lifecycle log with scoped access, the transparency
verifiers (Merkle inclusion proofs and the review chain head), canonical JSON and the identities
derived from it, the generation of static bundle manifests with the independent semantic check, and
the exact arithmetic of timestamps and base32. `dafny verify dfyconfig.toml` checks everything.

## How the model is built

- **Values.** A JSON value is a tree (`Json`): integers, strings of UTF-16 code units, arrays, and
  objects as key/value lists in source order. `WellFormed` says that no object has a key twice; `Same`
  is equality up to key order. Thrown errors and `undefined` are `Result` and `Option`.
- **Hash.** SHA-256 is a parameter `h: HashFn` of which only the 32-byte output is known. Nothing
  assumes injectivity. Binding results say "equal, or here are two different inputs, *both hashed by
  the two computations compared*, with one hash" (`Collision`, `CollisionBetween` over finite sets of
  inputs). A bare "some collision exists" would be true of any hash and say nothing.
- **Parameters.** Schema validation, text filters, timestamp parsing where it is only compared,
  signature outcomes and other calls out of the core are fields of a `Rules` record that every function
  takes, so the theorems hold for all of them. Where a theorem needs a consequence of the schema, it
  says so (`ReviewLogTheorems.SchemaFacts`).
- **Form.** Loops and counters of the source are methods with loops, and classes where recursive calls
  share state (`CanonicalIdentity.Encoder`, `JsonSnapshot.Visitor`). Each is proved equal to a
  specification function or to a condition on its input, and the theorems are about that.

## Files

| file | subject |
|---|---|
| `Results.dfy`, `SafeIntegers.dfy`, `Powers.dfy`, `Sorting.dfy`, `Text.dfy`, `ProtocolShapes.dfy` | shared notions: options and first rejections, sorting and its laws, UTF-16 and UTF-8, hexadecimal, big-endian numbers, id grammars |
| `Json.dfy`, `JsonRoundTrip.dfy`, `CanonicalIdentity.dfy`, `JsonSnapshot.dfy`, `Members.dfy`, `SmallValues.dfy` | canonical JSON, its inverse, bounded encoding, identities, stored rows, the bounded copy |
| `InclusionProof.dfy`, `MerkleTheorems.dfy`, `ReviewChain.dfy`, `EventIdentity.dfy`, `ChainTheorems.dfy`, `SampleEvents.dfy`, `ProtoMember.dfy` | transparency verification, what an event id binds, and a complete event |
| `ReviewEvents.dfy`, `ReviewLog.dfy`, `ReviewLogTheorems.dfy`, `SampleLogs.dfy`, `FamilyTheorems.dfy`, `AcceptedLogs.dfy` | the review event log, what every run keeps, and which logs replay accepts |
| `EventFilter.dfy`, `RenderFilter.dfy`, `RenderTheorems.dfy`, `EscapingLibrary.dfy`, `BrokenEvents.dfy`, `BrokenLog.dfy` | the render filter over stored JSON events, its relation to the log check, and events and an accepted log that break it |
| `EvidenceLifecycle.dfy` | the evidence lifecycle log and scoped access |
| `StaticBundle.dfy`, `BundleSemantics.dfy`, `BundleTheorems.dfy`, `BundleGuarantees.dfy`, `BundleOrder.dfy`, `BundleIdentity.dfy` | bundle generation, the semantic checker, and what relates them |
| `SampleDocuments.dfy`, `SampleBundle.dfy`, `BundleWitness.dfy` | accepted inputs with inclusion reasons of any wording |
| `Timestamps.dfy`, `Base32.dfy` | exact arithmetic |

## What turned out false of the code

Each has a lemma at a concrete input and a lemma with the exact condition.

- **A bad event can make its siblings disappear from rendering.** `review-event-log.ts` documents that
  a structurally invalid event is dropped alone. Recomputing the identity of an event throws when the
  event without its id does not canonicalize, and the exception leaves the whole filter.
  `BrokenEvents.UncanonicalTakesSibling` shows it for every sound event beside any event of event shape
  with a member that has no canonical text; `BrokenEvents.SurrogateTakesSibling` gives two events with
  all members that the schema requires, the second with one unpaired surrogate as reason.
  `BrokenEvents.DeepTimestampBreaks` does the same for a timestamp nested 64 deep, which the placeholder
  timestamp hides from the schema only. `RenderFilter.ThrowsIff` says exactly when the filter throws, by
  the content of the events, and `RenderFilter.BadEventChangesNothing` proves the promise for all others.
- **A log that the control plane accepts need not be rendered whole.** The control plane canonicalizes
  with a library that sets no limits, the filter with the strict canonicalizer. `BrokenLog.AcceptedLogBreaks`
  gives a library that prints what RFC 8785 prints and escapes lone surrogates as `JSON.stringify` does,
  and under it a valid log of one complete event, stored as it is, that makes the filter throw.
  `BrokenEvents.ValidLogCanBreak` shows this of every valid log with an event beyond the strict limits, and
  `RenderTheorems.ValidLogRenderedWhole` that the log is rendered whole if, and but for hash collisions
  only if, the strict canonicalizer takes every event as it is.
- **Event ids do not bind an own `__proto__` member.** `recomputeExcludedFieldsIdentity` assigns members
  to a fresh object, which ignores a primitive `__proto__` member and takes an object or array as
  prototype. `ProtoMember.HeadDoesNotBindProto` gives two different complete events verified against one head;
  `ChainTheorems.EventIdBinds` proves that events with one id are the same up to that member, and the
  same altogether if and only if these members agree.
- **The weak log check accepts logs that no appends build.** `SampleLogs.ValidNeedNotReplay` gives
  a two-event log. `AcceptedLogs.ReplayIff` gives the exact condition without naming a rule: a valid log
  replays if and only if its families are linear, its chains pure, its packages keep their lifecycle and
  its classification references hold.
- **Replay omits one append rule.** The cap on included validation scripts is not replayed.
  `SampleLogs.ReplayedNeedNotAppend` gives two scripts in one slot that replay accepts, and
  `ReviewLogTheorems.ReplayIsFoldOfAppends` the exact condition under which replay and a fold of appends
  agree: scripts parse and included slots are distinct.
- **Two issues of the bundle checker are not screened by the producer.**
  `BundleWitness.ReasonsAreNotScreened` gives, for every wording of an inclusion reason, an accepted input
  that carries it, and `BundleGuarantees.ProducerSatisfiesChecker` says exactly when the checker reports
  internal-learning references and forbidden text, and that it never reports another issue.
- **A snapshot need not canonicalize.** `JsonSnapshot.CopyableNeedNotCanonicalize` gives the input,
  `JsonSnapshot.CopyableCanonicalizesIff` the exact condition.

## Model

| member | source | states |
|---|---|---|
| Text.HasUnpairedSurrogate | packages/protocol-ts/src/canonical-identity.ts:84-94 | The scan answers whether the string has a surrogate outside a high-low pair |
| Text.PairedIsLocal | packages/protocol-ts/src/canonical-identity.ts:84-94 | What the scan accepts is the local rule: every high unit is followed by a low one and every low unit preceded by a high one |
| Text.Utf8Injective | packages/protocol-ts/src/canonical-identity.ts:45-47 | Two strings without unpaired surrogates have different UTF-8 bytes, so hashing the bytes loses nothing of the string |
| JsonRoundTrip.CanonParses | packages/protocol-ts/src/canonical-identity.ts:6-43 | Parsing the canonical text of any value gives that value back, up to key order |
| JsonRoundTrip.CanonInjective | packages/protocol-ts/src/canonical-identity.ts:6-43 | Two values have one canonical text if and only if they are the same up to key order |
| JsonRoundTrip.CanonIdempotent | packages/protocol-ts/src/canonical-identity.ts:6-43 | The canonical text parses, and what it parses to has the same canonical text |
| CanonicalIdentity.Encoder.Encode | packages/protocol-ts/src/canonical-identity.ts:10-41 | One recursive call succeeds exactly when the nodes counted so far plus those of the value (keys count too) stay within 20000, the depth within 64, numbers are safe and surrogates paired; it adds exactly the value's nodes to the shared counter and returns its canonical text |
| CanonicalIdentity.Encoder.EncodeItems | packages/protocol-ts/src/canonical-identity.ts:31-34 | The same for the items of an array, in array order |
| CanonicalIdentity.Encoder.EncodeField | packages/protocol-ts/src/canonical-identity.ts:35-36 | One member costs one node for its key and the nodes of its value, and prints key, colon, value |
| CanonicalIdentity.Encoder.EncodeFields | packages/protocol-ts/src/canonical-identity.ts:35-36 | The same for the members of an object, in sorted key order |
| CanonicalIdentity.CanonicalizeProtocolJson | packages/protocol-ts/src/canonical-identity.ts:6-43 | Canonicalization succeeds exactly on the values within the limits, in spite of the shared counter, and returns the canonical text |
| CanonicalIdentity.NormKeepsCounts | packages/protocol-ts/src/canonical-identity.ts:6-43 | Sorting keys changes neither node count, depth nor cleanness, so acceptance does not depend on key order |
| CanonicalIdentity.ComputeCanonicalSha256Id | packages/protocol-ts/src/canonical-identity.ts:49-51 | Returns the identity exactly of the values that canonicalize |
| CanonicalIdentity.IdentityInputInjective | packages/protocol-ts/src/canonical-identity.ts:45-51 | The bytes hashed for two values are equal exactly when the values are the same |
| CanonicalIdentity.IdentityBinds | packages/protocol-ts/src/canonical-identity.ts:45-51 | Values with one identity are the same value, or their hashed inputs collide |
| CanonicalIdentity.RecomputeExcludedFieldsIdentity | packages/protocol-ts/src/canonical-identity.ts:57-70 | The loop computes the identity of the object without the excluded fields and without an own `__proto__` member, which assignment loses; `undefined` when an excluded field is absent (save `exported_at`); it throws exactly when the rest does not canonicalize or that member is an object or array |
| CanonicalIdentity.StoredRowMatches | packages/evidence-store/src/canonical-row.ts:18-37 | Every row made from an artifact reads back as that artifact, up to key order, and its digest is confirmed |
| JsonSnapshot.Visitor.Visit | packages/protocol-ts/src/json-snapshot.ts:61-135 | One visit succeeds exactly within the remaining node budget and the other limits, returns the value unchanged, and raises the payload flag exactly when the value has a payload key |
| JsonSnapshot.SnapshotJsonData | packages/protocol-ts/src/json-snapshot.ts:51-138 | The copy succeeds exactly within the limits, equals the value, and reports payload keys |
| JsonSnapshot.CanonicalizableIsCopyable | packages/protocol-ts/src/json-snapshot.ts:51-138 | Every value that canonicalizes, with string values of at most a million units, is copied under the default limits |
| JsonSnapshot.CopyableNeedNotCanonicalize | packages/protocol-ts/src/json-snapshot.ts:51-138 | The converse fails: a lone surrogate is copied |
| JsonSnapshot.CopyableCanonicalizesIff | packages/protocol-ts/src/json-snapshot.ts:51-138 | A copied value canonicalizes if and only if it is within the node limit with its keys counted and has only paired surrogates |
| InclusionProof.ReadMerkleSiblings | packages/protocol-ts/src/transparency-verify.ts:191-197 | The loop over the siblings accepts exactly the arrays in which every item is a well-formed sibling, and reads each |
| InclusionProof.ReadMerkleProof | packages/protocol-ts/src/transparency-verify.ts:184-199 | The shape test of a proof, read as its four parts |
| InclusionProof.Climb | packages/protocol-ts/src/transparency-verify.ts:82-106 | The loop reaches a root exactly when the siblings lie on the sides that index and size demand, none missing and none left over, and then it is the fold of the path |
| InclusionProof.VerifyInclusionProof | packages/protocol-ts/src/transparency-verify.ts:68-112 | Every verdict of the verifier, malformed input included |
| MerkleTheorems.SidesSplit | packages/protocol-ts/src/transparency-verify.ts:82-103 | The siblings consumed while halving index and width are those of the RFC 6962 subtree of the leaf, then one on the side of the other subtree |
| MerkleTheorems.SidesBound | packages/protocol-ts/src/transparency-verify.ts:184-200 | A tree of at most 2^e leaves needs at most e siblings |
| MerkleTheorems.AuditPathLeadsToRoot | packages/protocol-ts/src/transparency-verify.ts:82-106 | The audit path of section 2.1.1 of RFC 6962 has exactly the sides the loop consumes and folds to the root of section 2.1 |
| MerkleTheorems.HonestProofVerifies | packages/protocol-ts/src/transparency-verify.ts:68-112 | For every tree of up to 2^53 - 1 heads and every leaf, the honest proof is accepted and has at most 53 siblings |
| MerkleTheorems.PathStartsInTree | packages/protocol-ts/src/transparency-verify.ts:82-106 | Whatever index and size are claimed, a path that folds to the root starts at a leaf of the tree, or a collision was met |
| MerkleTheorems.PathStartsAtIndex | packages/protocol-ts/src/transparency-verify.ts:82-106 | With the true size it starts at the claimed index, or a collision was met |
| MerkleTheorems.AcceptedProofIsSound | packages/protocol-ts/src/transparency-verify.ts:68-112 | An accepted proof against the root of a list of heads puts the given head at the given index when the size is right, and somewhere in the list whatever the size, or a collision was met |
| MerkleTheorems.LevelsBuildTheTree | packages/protocol-ts/src/transparency-verify.ts:82-103 | The tree built level by level, an odd last node promoted, is the recursive tree of RFC 6962 for every size |
| ReviewChain.ReadLinks | packages/protocol-ts/src/transparency-verify.ts:139-153 | The loop reads every event or fails when one fails the schema, its identity, or belongs to another review |
| ReviewChain.HasRepeat | packages/protocol-ts/src/transparency-verify.ts:154-157 | On the sorted array, comparing neighbours finds a repeated sequence number exactly when there is one anywhere |
| ReviewChain.HashLinks | packages/protocol-ts/src/transparency-verify.ts:159-173 | The loop computes the chain head of the sorted links |
| ReviewChain.RecomputeReviewChainHead | packages/protocol-ts/src/transparency-verify.ts:132-174 | The head of the committed links, or nothing |
| ReviewChain.VerifyReviewChainHead | packages/protocol-ts/src/transparency-verify.ts:52-65 | Every verdict of the verifier |
| ChainTheorems.ChainBinds | packages/protocol-ts/src/transparency-verify.ts:132-174 | Two link lists with one head are equal, or a collision was met; empty, leaf, one-event and many-event inputs are kept apart by domain and length |
| ChainTheorems.EventIdBinds | packages/protocol-ts/src/transparency-verify.ts:141-153 | Two readable events with one event id collide, or are the same up to an own `__proto__` member, and the same altogether exactly when these members agree |
| ChainTheorems.VerifiedHeadBindsEvents | packages/protocol-ts/src/transparency-verify.ts:52-65 | Two arrays verified against one claimed head commit to the same links and hold the same events up to own `__proto__` members, or a collision was met |
| ChainTheorems.HeadIgnoresArrayOrder | packages/protocol-ts/src/transparency-verify.ts:132-174 | Permuting the array changes neither acceptance nor the head |
| ChainTheorems.HeadExtends | packages/protocol-ts/src/transparency-verify.ts:132-174 | An event above all others of a nonempty array extends the head by one hash step |
| ProtoMember.ProtoMemberIsNotBound | packages/protocol-ts/src/canonical-identity.ts:60-67 | Every readable event has a different event that reads the same: the one with a primitive `__proto__` member more |
| ProtoMember.HeadDoesNotBindProto | packages/protocol-ts/src/transparency-verify.ts:52-65 | Two different events with all members that the schema requires, each verified against the same head |
| ReviewLog.SupersedesChain | apps/control-plane/src/index.ts:528-547 | The loop over visited ids computes the transitive chain, and terminates |
| ReviewLog.CheckScriptCap | apps/control-plane/src/index.ts:549-579 | The loop over count and slots decides the cap on included validation scripts |
| ReviewLog.ReviewEventLogIsValid | apps/control-plane/src/index.ts:408-419 | The loop with its three sets and its counter decides that every event fits the events before it |
| ReviewLog.StoredReviewEventLogIsAppendValid | apps/control-plane/src/index.ts:435-477 | The replay accepts exactly the arrays whose every event passes the replay step after those before it, and returns their log |
| ReviewLogTheorems.AppendedIff | apps/control-plane/src/index.ts:332-406 | An append succeeds exactly on a valid log, for an event that passes the replay step and the script cap |
| ReviewLogTheorems.AppendKeepsValidity | apps/control-plane/src/index.ts:332-419 | What is appended is the old log and one event, and is valid again; every other outcome leaves the log as it is |
| ReviewLogTheorems.ReappendIsNoop | apps/control-plane/src/index.ts:365-374 | Appending any event of a valid log again is a no-op and says so |
| ReviewLogTheorems.HistoryGrowsAtTheEnd | apps/control-plane/src/index.ts:500-520 | An append adds exactly the customer-facing event, at the end of the customer's history, and rewrites nothing |
| ReviewLogTheorems.ScriptRuleKeepsOrder | apps/control-plane/src/index.ts:549-579 | The cap admits a script exactly when all scripts still parse and no included slot repeats |
| ReviewLogTheorems.ReplayIsFoldOfAppends | apps/control-plane/src/index.ts:332-477 | Appending an array's events one by one to the empty log succeeds throughout if and only if replay accepts the array, scripts parse and included slots are distinct |
| SampleLogs.ReplayedNeedNotAppend | apps/control-plane/src/index.ts:435-477 | Replay accepts two validation scripts in one included slot, which no appends build |
| ReviewLogTheorems.ReplayedIsValid | apps/control-plane/src/index.ts:408-477 | A nonempty array that replay accepts is a valid log |
| ReviewLogTheorems.ReachableIsReplayable | apps/control-plane/src/index.ts:332-477 | After any attempts, accepted or not, the log is one that replay accepts and its scripts are in order |
| SampleLogs.ValidNeedNotReplay | apps/control-plane/src/index.ts:408-477 | The converse fails: a valid log of two events that neither replays nor can be built by appends |
| ReviewLogTheorems.ValidReplaysIff | apps/control-plane/src/index.ts:408-477 | A valid log replays if and only if each event passes the family and supersession rules against the events before it |
| FamilyTheorems.VersionsClimb | apps/control-plane/src/index.ts:160-206 | Along a family of a linear log versions strictly increase |
| FamilyTheorems.LookupsFindLast | apps/control-plane/src/index.ts:1883-1885 | In a linear log both sort-based lookups (this one, and the ascending ones for verification records at lines 5825 and 5891) return the last-appended member, or nothing when there is none |
| FamilyTheorems.ReplayedIsLinear | apps/control-plane/src/index.ts:151-300 | In every accepted log each family member after the first supersedes exactly its predecessor with a higher version; the first supersedes nothing and has version 1, except in scope families |
| FamilyTheorems.WalkIsWhole | apps/control-plane/src/index.ts:528-547 | The walk along superseded events meets no id twice and ends at an event that supersedes nothing |
| FamilyTheorems.WalkIsStable | apps/control-plane/src/index.ts:528-547 | Later events never change the chain of an earlier one |
| FamilyTheorems.SupersessionIsPure | apps/control-plane/src/index.ts:232-297 | In every accepted log a customer's event never reaches a classification, guidance, validation or false-positive event, and each of the five pure types occurs in a chain only of its own kind, and then alone |
| FamilyTheorems.FinalizationLifecycle | apps/control-plane/src/index.ts:198-230 | Every finalization has an earlier generated event for the manifest it names and is not earlier in time than the first such |
| FamilyTheorems.ExportLifecycle | apps/control-plane/src/index.ts:198-230 | Every export has exactly one matching finalization, earlier in the log and not later in time, which has its generated event before it |
| FamilyTheorems.ExportsInject | apps/control-plane/src/index.ts:198-230 | No two exports share a finalization |
| FamilyTheorems.EveryRunKeepsFamiliesAndChains | apps/control-plane/src/index.ts:332-406 | After any sequence of append attempts on the empty log: replayable, all families linear, lookups correct, all chains whole and pure |
| AcceptedLogs.ReplayIff | apps/control-plane/src/index.ts:408-477 | A valid log replays if and only if every versioned family is linear, every chain reaches a root and is pure, finalizations and exports follow the first event they name and not earlier in time, and classification references hold |
| RenderFilter.OrderedEventsWithIssues | packages/protocol-ts/src/review-event-log.ts:63-121 | The filter and sort, then the loop with its sets, compute for each stored event its issues against the events before it, or throw |
| RenderFilter.CheckOwn | packages/protocol-ts/src/review-event-log.ts:95-103 | The header and identity checks of one event, which throw exactly when its identity cannot be recomputed |
| RenderFilter.SurvivorsSurviveAgain | packages/protocol-ts/src/review-event-log.ts:63-139 | Survivors fed back all survive, in the same order |
| RenderFilter.FilterIgnoresArrayOrder | packages/protocol-ts/src/review-event-log.ts:63-139 | With distinct sequence numbers the array order does not matter |
| RenderFilter.BadEventChangesNothing | packages/protocol-ts/src/review-event-log.ts:63-139 | Inserting an event that is not of event shape, or fails its own checks but has an identity to recompute, changes no other event's fate, provided no event of event shape has its sequence number |
| RenderFilter.ThrowingEventTakesAll | packages/protocol-ts/src/review-event-log.ts:63-139 | One event of event shape whose content cannot be canonicalized takes every other with it, against the documented promise |
| RenderFilter.ThrowsIff | packages/protocol-ts/src/review-event-log.ts:63-139 | The filter throws if and only if some event of event shape, with just its id excluded, has an object or array as own `__proto__` member or does not canonicalize without its id |
| RenderTheorems.ValidLogRenderedWhole | packages/protocol-ts/src/review-event-log.ts:134-139 | A log that the control plane accepts is rendered whole if the strict canonicalizer takes each event as it is, and only then, but for events whose two identity inputs collide |
| RenderTheorems.StrictFollowsRfc8785 | apps/control-plane/src/index.ts:124-127 | The strict canonicalizer is one of the libraries that the comparison allows for |
| EscapingLibrary.EscapingFollowsRfc8785 | apps/control-plane/src/index.ts:124-127 | So is a library without limits that escapes lone surrogates by their number: it agrees with RFC 8785 on every value that canonicalizes, prints well-formed text for every value, and different text for different values |
| BrokenEvents.UncanonicalMember | packages/protocol-ts/src/canonical-identity.ts:10-41 | Any member but the id and `__proto__` that is ill-formed, unsafe, too deep or too large makes the identity impossible to recompute |
| BrokenEvents.ValidLogCanBreak | packages/protocol-ts/src/review-event-log.ts:134-139 | A log that the control plane accepts makes the filter throw if it holds such an event |
| BrokenEvents.UncanonicalTakesSibling | packages/protocol-ts/src/review-event-log.ts:123-139 | Every sound event is rendered alone and disappears beside any event of event shape with such a member |
| BrokenEvents.SurrogateTakesSibling | packages/protocol-ts/src/review-event-log.ts:123-139 | The same at two complete events, the second with one unpaired surrogate as its reason |
| BrokenLog.AcceptedLogBreaks | packages/protocol-ts/src/review-event-log.ts:134-139 | A concrete library, log and stored event: the control plane accepts the log, and the filter throws on it |
| BrokenEvents.DeepTimestampBreaks | packages/protocol-ts/src/review-event-log.ts:51-56 | The placeholder timestamp hides a timestamp nested 64 deep from the schema but not from the identity |
| EvidenceLifecycle.EvidenceLifecycleHistoryRejection | apps/control-plane/src/index.ts:6803-6835 | The loop returns the first rejection of the history, or none |
| EvidenceLifecycle.AppendKeepsAccepted | apps/control-plane/src/index.ts:848-942 | An append keeps a history acceptable and adds at most the one event |
| EvidenceLifecycle.NextSequenceNumber | apps/control-plane/src/index.ts:6837-6849 | The loop returns one more than the maximum, and throws exactly when a number is invalid or none is left |
| EvidenceLifecycle.EnforceScopedAccess | apps/control-plane/src/index.ts:1036-1120 | Every decision and the resulting log; on an accepted history it leaves exactly one receipt when it allows, leaves the log alone when it denies, and decides so again |
| EvidenceLifecycle.DecisionLeavesReceipt | apps/control-plane/src/index.ts:1036-1120 | Allowed leaves exactly one access event under the request's key with its tenant and scope, numbered one above everything before; denied leaves the log alone; asking again returns the same |
| EvidenceLifecycle.AllowedIff | apps/control-plane/src/index.ts:1036-1120 | Exactly when access is allowed on an accepted history |
| EvidenceLifecycle.RunKeepsReceipts | apps/control-plane/src/index.ts:848-1120 | Over any run of requests the log stays accepted and only grows, and the receipt of every allowed request is still the only event under its key at the end |
| StaticBundle.RefuseFile | packages/static-bundle/src/signed-static-bundle.ts:455-462 | The first loop over the files refuses none exactly when all are permitted, and otherwise reports the first offender and why |
| StaticBundle.FileByPath | packages/static-bundle/src/signed-static-bundle.ts:466 | The map holds one file of the list for each path that occurs |
| StaticBundle.FileRefCounts | packages/static-bundle/src/signed-static-bundle.ts:467-468 | The counters are the multiplicities of the references |
| StaticBundle.PortalCheck | packages/static-bundle/src/signed-static-bundle.ts:465-470 | With distinct names, the tests on the role set and the path map decide that all required roles and the four required files are there |
| StaticBundle.RefuseContent | packages/static-bundle/src/signed-static-bundle.ts:476-478 | The second loop over the files refuses none exactly when all contents match, and otherwise reports the first offender, or throws on it |
| StaticBundle.ValidateGenerationInput | packages/static-bundle/src/signed-static-bundle.ts:436-489 | Admits exactly the acceptable inputs, and otherwise reports what the first failed check reports, in the source's order |
| BundleSemantics.CoverageTests | packages/protocol-ts/src/epic-5-semantics.ts:92-100 | The four tests of the checker mean that two lists hold the same references, each once |
| BundleSemantics.StaticBundleManifestSemanticIssues | packages/protocol-ts/src/epic-5-semantics.ts:30-114 | Reports exactly the issues that are due, in order and with missing roles and missing paths as two entries, each condition stated apart from how it is tested |
| BundleTheorems.DocumentCanonicalizes | packages/static-bundle/src/signed-static-bundle.ts:148-186 | The manifest of any input that canonicalizes is within the limits too, so its identity never throws |
| BundleGuarantees.PrepareSignedStaticBundle | packages/static-bundle/src/signed-static-bundle.ts:148-186 | Prepares a manifest with its recomputed identity exactly for the acceptable inputs |
| BundleGuarantees.PreparedIsProtocolManifest | packages/static-bundle/src/signed-static-bundle.ts:491-503 | What is prepared passes the protocol test of a manifest |
| BundleGuarantees.PreparedHasItsIdentity | packages/static-bundle/src/signed-static-bundle.ts:659-662 | The identity in the manifest is the one recomputed from the other fields |
| BundleGuarantees.ProducerSatisfiesChecker | packages/protocol-ts/src/epic-5-semantics.ts:30-114 | The checker has nothing to say about a prepared manifest but internal-learning references and forbidden reasons, and reports these exactly when the input has them |
| BundleGuarantees.AcceptedDispositions | packages/static-bundle/src/signed-static-bundle.ts:473-487 | The file references are the included ones, no reference has two dispositions, deleted references match the deletion records one to one, and no file has a deleted digest |
| BundleWitness.ReasonsAreNotScreened | packages/static-bundle/src/signed-static-bundle.ts:436-489 | For every wording there is an accepted input whose files all carry it as inclusion reason, whatever the checker looks for |
| BundleOrder.AcceptanceIgnoresOrder | packages/static-bundle/src/signed-static-bundle.ts:436-489 | Permuting files, deletion records and the four minimization lists does not change acceptance |
| BundleOrder.ManifestIgnoresOrder | packages/static-bundle/src/signed-static-bundle.ts:148-186 | Nor does it change the prepared manifest, identity included |
| BundleIdentity.ManifestIdentityBinds | packages/static-bundle/src/signed-static-bundle.ts:659-662 | Two manifests that carry one recomputed identity are equal in every field, or their documents collide |
| BundleIdentity.PreparedIdentityBinds | packages/static-bundle/src/signed-static-bundle.ts:164-183 | Two accepted inputs with one prepared identity have one manifest, or a collision was met |
| Timestamps.DaysFromCivilIsExact | packages/protocol-ts/src/validation.ts:396-404 | The arithmetic equals the day count summed from the lengths of years and months, for every valid date |
| Timestamps.NextDateIsNextDay | packages/protocol-ts/src/validation.ts:396-404 | The day after a date has the next day number, across months and years |
| Timestamps.ComparisonFollowsFields | packages/protocol-ts/src/validation.ts:363-393 | Without leap seconds, timestamps compare as their fields do, the fraction filled up to nine digits |
| Timestamps.LeapSecondIsNextMinute | packages/protocol-ts/src/validation.ts:363-378 | A second of 60 is the instant at which the next minute starts |
| Base32.Drain | packages/identity-store/src/totp.ts:71-74 | The inner loop emits the complete groups of the live bits and keeps fewer than five, although the accumulator wraps at 32 bits |
| Base32.EncodeBase32 | packages/identity-store/src/totp.ts:64-80 | The loops compute the base32 text of the whole bit string |
| Base32.SymbolsAreGroups | packages/identity-store/src/totp.ts:64-80 | One symbol for every five bits begun, each its own group of the zero-filled bit string (section 6 of RFC 4648) |
| Base32.EncodingDecodes | packages/identity-store/src/totp.ts:64-80 | Every encoding can be decoded |

## Left out

- Schema validation, claim-safety and PII patterns, Unicode normalization and lower-casing: predicates and functions of the `Rules` records.
- SHA-256, ML-DSA, AES-GCM, scrypt and HMAC: the hash is a parameter, signature outcomes are predicates.
- Numbers other than integers: `Json.Num` is an integer, so number printing with fractions or exponents is not modelled.
- `Json.Parse` accepts canonical text and some variants of it, not white space or fractions; it inverts the printer and is not a model of `JSON.parse`. Where the bundle producer calls `JSON.parse`, a parameter stands for it.
- Prototypes, accessors, proxies, symbol keys, sparse arrays, cyclic graphs, freezing and cloning of caller objects: JSON values are trees. The own `__proto__` member is modelled where members are assigned.
- Idempotency keys and validation script reasons are datatypes of what their patterns parse; the patterns themselves are not modelled. Where the log is compared with stored JSON, reading a key is a function of its text.
- An event that the schema accepts has the members that the render filter reads, with their types (`RenderFilter.HasShape`): the model makes that part of the shape test.
- The canonicalizing library of the control plane is not part of this model: it is a parameter of which only what RFC 8785 fixes is assumed (`RenderTheorems.FollowsRfc8785`), and what it does with a lone surrogate is left open.
- The event-local text rules of the review log are predicates; the order of the authority rules follows the source.
- `ReviewLog.Append` and the lookups are functions: the source returns new logs and sorts copies. The asynchronous digest is a function call.
- `parseUtcTimestampNs` in the control plane is a partial function; lifecycle theorems speak about timestamps that both parse.
- The default parameter of `verificationScopeCorrectionVersionIsValid` (apps/control-plane/src/index.ts:5803) is modelled as a call that passes all three arguments, with `undefined` taking the default.
- Checkpoint identities (packages/protocol-ts/src/transparency-verify.ts:115-130): one identity comparison.
- TOTP codes and their time window (packages/identity-store/src/totp.ts:21-62): a table of HMAC outputs.
- Finalization of bundles and the portal generator, the signing request and `completeSignedStaticBundle`: the portal code is not part of this model, and completion only adds schema checks.
- Generation inputs have their declared shape in the model (roles and source classes are enumerations, no extra keys); the tests for other shapes are left out.
- BundleOrder.ManifestIgnoresOrder: does not cover the order of `retained_export_approved_payload_refs`, because one payload file must match that list in the caller's order.
- Human-readable messages and next paths of failures: only codes and affected identities are modelled.
- Record builders, projectors, HTTP handlers, stores, queues and retention draining.
