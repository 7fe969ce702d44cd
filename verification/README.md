# DKIM2 lifecycle: model and proofs

The program keeps DKIM2 signing keys in an LDAP directory as numbered, immutable *generations*: closed sets of
handles, profiles, credentials, policies and private key materials. One entry, `cn=current`, names the active
generation. Campaigns plan a successor, stage it entry by entry, publish its public keys in DNS, commit its root and
move the pointer forward by one; automatic retention later deletes the oldest generations. This project models those
parts in Dafny and proves what they are meant to keep.

## Layout

* Vocabulary: `Wrappers`, `Order` (keys and a verified sort), `Text` (the two name grammars), `Records`.
* Generation algebra: `Generations` (validity, the validating constructor, equivalence), `Snapshots` (a generation as
  three tables: profiles, policies, and slots that join a credential with its key material), `Builders` (the mutable
  builder), `Rebasing` (renumbered copies), `Bindings` (lookups), `Joins`, `Kept` and `Rekeying` (cutting a record set
  along a profile and putting parts together), `Supply` (when a planner cannot run dry).
* Planners and validators: `Rotation`, `Eligibility`, `Planners`, `Campaign`, `Lifecycle`, `Lineage`, `Transitions`,
  `Rollback`, `Agreement`, where independently written planners and validators meet, and `Renewal` (what a rotation
  does to the age of bindings).
* Commitment and directory mapping: `Candidate` (the framed byte stream), `Mapper` (entries, the ordered write, the
  strict reading), `ReadBack` (the round trip).
* Protocol: `Directory` (pointer, subtrees, single requests), `Publication` and `Fencing` (any number of concurrent
  clients, every step one request, crashes and lost replies anywhere), `RetainedRoots`, `History`, `Purge`,
  `Retention` (class `Store`), `CampaignRun` (staging, loading and activation, each of which may stop after any
  request) and `AutomaticCampaign` (the automatic campaign with its resume branches, and sequences of commands).
* Legacy CNAME slots: `CnameRenames`. DNS text: `Base64`, `KeyRecords`, `DnsZones`.

Loops that update variables are methods with invariants, objects with fields are classes (`Builder`, `KeyReplacer`,
`Hasher`, `Store`), and pure expressions are functions. Randomness and the key generator are input sequences read in
order. A fault (a crash, a refused request, a lost reply) is a nondeterministic early return, switched off where a
claim is about an undisturbed run. The hash of a candidate is represented by the bytes hashed.

## Main results

1. **Pointer safety under full concurrency.** In every interleaving of publishers, resumers and purgers, a committed
   pointer names a retained committed root that maps completely; its number never decreases, every switch moves it by
   exactly one, and no root lies more than one above it. Under v3 the pointer carries the digest of exactly that root
   (`PointerNamesItsDigest`), and the root it leaves carries the activation mark (`LeftGenerationIsMarked`; all in
   `Publication`, by rely and guarantee: `StepIsSafe`, `KnowledgeIsStable`, `RunIsSafe`). From the point where a root
   is complete, no record below it ever changes until the pointer leaves it behind, so the generation that becomes
   current is, record for record, the one that was read back (`CurrentIsWhatWasRead`). Every load, plan and delete is
   fenced by readings of the pointer (`Fencing`). `BootstrapSucceeds` shows a run that gets there.
2. **Shape of the retained history under serialised commands.** From any legacy-only history, any sequence of staging,
   activation and retention, disturbed anywhere, keeps every v3 root below the pointer marked, the roots in two
   consecutive runs and the pending successor acceptable, and never touches a legacy subtree
   (`AutomaticCampaign.Lifecycle`). A campaign interrupted anywhere and run again undisturbed finishes if and only if
   the successor subtree is empty or completely written (`RerunCampaign`). Whatever happens to a staging or an
   activation, as long as the reads that settle it succeed a campaign answers yes exactly when the pointer moved
   (`RunCampaign`).
3. **Resumable purge.** However a purge is interrupted, what is left is a part of the target with all its ancestors;
   resumed undisturbed it succeeds if and only if the pointer is where the plan saw it and the target is gone or still
   matches the plan, and then removes exactly the target. As long as its reads succeed a deletion under a ready plan
   answers yes exactly when the subtree is gone, whatever became of the requests. However retention stops, the next
   run can take it up. Undisturbed retention of any readable history, legacy roots included and from a journalled
   start as well, deletes exactly the oldest v3 generations below the floor, as many as the excess, the batch and the
   floor allow, and is blocked exactly when the floor allows fewer than the other two; on an all-v3 history with a
   reserve below the bound that never happens. Two limits are proved exactly. The rollback reserve survives every run
   that starts without a journalled target left at or above the floor; from any other recoverable start an undisturbed
   run deletes from it, because a recovery does not consult the floor (`RaisedReserveIsLost`: the reserve was raised
   after the plan was written). And a journal that an activation has overtaken is never recovered: whatever commands
   follow, every enabled retention answers that its outcome is uncertain and deletes nothing (`RunCommands`).
4. **Planner and validator agreement.** What the global planners build is what the campaign validators recognise,
   binding for binding and in the same order; a planned rotation is a rotation to the intent test and to retirement.
   The planners fail only for stated reasons: `RotationFits`, `SingleFits` and `ExtensionFits` are necessary for a
   candidate, and sufficient once randomness and key generation suffice. One of those reasons is not obvious from the
   code: a domain longer than 211 characters leaves no room for an allocated selector, and its binding can never be
   rotated. New keys are pairwise different as long as the generator does not repeat itself. Once the successor is
   recorded, a renewed binding is as old as its record and every other one keeps its date, so right after a global
   rotation nothing is due (`Renewal`).
5. **A gap in retirement.** `uniqueRotatedBinding` compares selectors algorithm by algorithm, so two algorithms that
   swap their selectors pass `PlanRetirement` although a selector to be retired is still active
   (`Agreement.SwappedSelectorsRetire`). The selectors are disjoint if and only if no key of the successor holds a
   selector that the predecessor gave to another key (`NoSelectorMoves`, which a caller can evaluate on the two
   generations before the call); with one retiring key they always are (`Transitions.RetirementSeparates`).
   `IntentSeparatesSelectors` shows that the intent test run before activation excludes the case.
6. **Commitment and round trip.** The hashed stream determines source, number, operation and records and depends
   neither on record order nor on the state; a written candidate reads back as itself, and no proper prefix of the
   write maps.
7. **CNAME renames.** The planner fails exactly when some cycle consists of active selectors; otherwise replaying its
   plan is accepted, ends with every selector at its target, parks only inactive selectors and takes one step per move
   plus one per cycle. It terminates.
8. **DNS text.** Printed key records parse back in both parsers (the lenient one up to exactly 6144 key bytes); a
   strict record is a lenient one exactly when it respects stated bounds; zone search returns the longest SOA-bearing
   name among the zone and its dotted rests, misses none, and keeps the owner name.

Where a comment and the code disagree, the code is followed: the comment on `applyAutomaticRetention` speaks of a
prefix above the rollback floor, the code deletes below it, and while it recovers a journal it checks no floor at all.
The mapper's separate checks for a second root or unit entry can never fire, because its duplicate-name check rejects
such entries first; the 16384-character test in `decodeDNSPublicValue` and the lower-case test in `parseDNSRecord` are
implied by later ones in the same way.

## Model

| member | source | states |
|---|---|---|
| `Publication.AddsSafe` | internal/dkim2store/publication.go:28-157 | Each add of a candidate, reply lost or not, keeps the shared invariant: before it the subtree is empty, cut short or below the pointer, so no complete root can be disturbed; the writer still owns exactly the prefix it wrote. |
| `Publication.VerifiesSafe` | internal/dkim2store/publication.go:162-203 | A readback that maps the staged subtree entitles the publisher to commit that root. |
| `Publication.LoadsSafe` | internal/dkim2store/ldap_repository.go:457-536 | Reading pointer, subtree and pointer again yields a pending candidate directly above a pointer value that has been current; it stays complete, and its root keeps the loaded digest, until the pointer reaches it. |
| `Publication.RechecksSafe` | internal/dkim2store/ldap_repository.go:565-577 | Re-reading the committed root and the pointer before a plain switch establishes that the root is complete and committed. |
| `Publication.MarksSafe` | internal/dkim2store/publication.go:282-313 | Adding the activation mark under its assertion keeps completeness of the current root, honours every other client, and is known to be there when the pointer is switched. |
| `Publication.SealsSafe` | internal/dkim2store/publication.go:206-248 | An asserted commit changes only a staging root, never the current one, and keeps it complete. |
| `Publication.SealAboveCurrent` | internal/dkim2store/publication.go:228-248 | Because the current root is committed, no commit request can succeed on it. |
| `Publication.SwitchesSafe` | internal/dkim2store/publication.go:349-443 | Every successful switch (claim, plain, campaign) moves the current number by exactly one onto a complete committed root; a campaign switch leaves the digest of that root in the pointer. |
| `Publication.ReservesSafe` | internal/dkim2store/ldap_repository.go:1069-1122 | Reserving the pointer of an empty directory at number one in state staging activates nothing and is safe against a second bootstrap. |
| `Publication.PlansSafe` | internal/dkim2store/retention.go:124-146 | Every plan ever journalled targets a number below the current one. |
| `Publication.PurgesSafe` | internal/dkim2store/retention.go:128-177 | A leaf-only delete, by however stale a purger, never touches the current root or one above it and leaves every entry its ancestors. |
| `Publication.StepIsSafe` | internal/dkim2store/ldap_repository.go:396-647 | One step of any client keeps the shared invariant, gives the client what its next program point relies on, and guarantees the others that the number grows by at most one and complete roots at or above it stay complete with the same records. |
| `Publication.KnowledgeIsStable` | internal/dkim2store/ldap_repository.go:396-647 | What a client relies on between two of its steps survives every step of every other client. |
| `Publication.NextIsSafe` | internal/dkim2store/ldap_repository.go:396-647 | A step of the whole system keeps the invariant of the directory and of all clients. |
| `Publication.RunIsSafe` | internal/dkim2store/ldap_repository.go:396-647 | The invariant holds at every point of every run, whatever the interleaving, crashes and lost replies. |
| `Publication.RunNeverGoesBack` | internal/dkim2store/publication.go:349-443 | Between any two points of a run the current number does not decrease and grows by at most the number of steps. |
| `Publication.PointerNamesCompleteRoot` | internal/dkim2store/publication.go:206-248 | At every point of a run a committed pointer names a retained committed root that maps to a generation, every entry has its ancestors, and no root number exceeds the pointer by more than one. |
| `Publication.PointerNamesItsDigest` | internal/dkim2store/publication.go:349-378 | At every point of a run a committed v3 pointer names a committed v3 root of its number whose digest equals the one in the pointer, which is what the activation mark asserts. |
| `Publication.LeftGenerationIsMarked` | internal/dkim2store/publication.go:282-347 | Whenever a step moves the pointer on from a v3 generation, the root it leaves carries the activation mark. |
| `Fencing.LoadIsFenced` | internal/dkim2store/ldap_repository.go:457-536 | A client that resumes a candidate read the pointer before and after it, and at every point of the run in between the pointer was that value, directly below the candidate; in between the candidate mapped, with the loaded metadata on its root. |
| `Fencing.PlanIsFenced` | internal/app/dkim2_campaign.go:393-419 | A purge plan is made only for a generation found complete, committed and marked while the pointer stayed, at every point in between, where the plan says it was. |
| `Fencing.DeleteIsFenced` | internal/dkim2store/retention.go:152-177 | Before every single delete the client has read the pointer once more and found it where the plan saw it. |
| `Fencing.WritesAreAsserted` | internal/dkim2store/publication.go:206-313 | A commit takes effect only on a staging root, for a campaign only on the one that carries the operation, source and digest loaded; a mark only on the unmarked committed root of the pointer that was read; a campaign switch only from exactly that pointer. |
| `Fencing.CommitIsFenced` | internal/dkim2store/publication.go:162-248 | A freshly written candidate is committed only after its subtree was read back and mapped. |
| `Fencing.ReservationIsFenced` | internal/dkim2store/ldap_repository.go:1069-1122 | The pointer is reserved only after it was found absent, then the container empty, then the pointer absent again. |
| `Fencing.RecheckIsFenced` | internal/dkim2store/ldap_repository.go:565-577 | An ordinary switch after a load is sent only after the committed candidate and then the pointer directly below it have been read once more. |
| `Fencing.PointerBetween` | internal/dkim2store/publication.go:349-443 | As long as the current number is the same at two points of a run, the pointer is the same at every point in between. |
| `Publication.RecordsNeverChange` | internal/dkim2store/publication.go:206-313 | From the point where a root is complete until the pointer leaves it behind, it stays complete and no entry changes but the state and the mark of the root. |
| `Publication.CurrentIsWhatWasRead` | internal/dkim2store/publication.go:162-203 | A generation read completely at any point of a run is, record for record and under the same schema, what every search finds when its number has become current. |
| `Publication.EmptyIsSafe` | internal/dkim2store/ldap_repository.go:1230-1253 | The empty directory satisfies the invariant. |
| `Publication.BootstrapSucceeds` | internal/dkim2store/ldap_repository.go:1069-1122 | From the empty directory one undisturbed publisher has a run that ends with its generation committed and current. |
| `Directory.CutIsIncomplete` | internal/dkim2store/publication.go:28-157 | A subtree that holds only a proper prefix of the adds maps to no generation in any state. |
| `Directory.AssertedIsRecorded` | internal/dkim2store/publication.go:251-269 | The assertion of a campaign commit holds of exactly the metadata that a readable v3 root records. |
| `Directory.FinishedIsComplete` | internal/dkim2store/publication.go:28-203 | A finished write with a matching commitment maps as a staging generation. |
| `Directory.NextIsAddable` | internal/dkim2store/publication.go:28-157 | In the order written, each entry is new and its parent has been written before it. |
| `Directory.CommitKeepsComplete` | internal/dkim2store/publication.go:228-248 | Committing the root of a complete subtree keeps it complete and makes it committed. |
| `Directory.MarkKeepsComplete` | internal/dkim2store/publication.go:282-313 | Adding the activation mark keeps a subtree complete and its state. |
| `Directory.MapsInAnyOrder` | internal/dkim2store/mapper.go:14-221 | A subtree maps in one search order exactly when it maps in every order. |
| `Directory.RemoveKeepsShape` | internal/dkim2store/retention.go:146-177 | Deleting a leaf leaves every remaining entry its ancestors. |
| `RetainedRoots.ValidRetainedRoots` | internal/dkim2store/retained_roots.go:12-44 | True exactly when the roots are distinct positive numbers forming a consecutive legacy run followed by a consecutive v3 run, with v1 only at number one and a gap only between the runs. |
| `RetainedRoots.ShapeIgnoresOrder` | internal/dkim2store/retained_roots.go:12-44 | The shape does not depend on the order of the listing. |
| `RetainedRoots.AppendNextV3` | internal/dkim2store/retained_roots.go:12-44 | A v3 root directly above the largest root keeps the shape, whichever run the largest belongs to. |
| `RetainedRoots.AppendNextV2` | internal/dkim2store/retained_roots.go:12-44 | A v2 root directly above the largest root keeps the shape if and only if no v3 root is retained. |
| `RetainedRoots.RemoveOldestV3` | internal/dkim2store/retained_roots.go:12-44 | Removing the smallest of several v3 roots keeps the shape. |
| `RetainedRoots.ExactPendingSuccessor` | internal/app/dkim2_lifecycle.go:513-535 | Succeeds exactly on the two-run shape with the current number present and every other root committed below it or directly above it; the result is that successor or zero. |
| `RetainedRoots.HistoryHasExactCurrentMaximum` | internal/dkim2store/ldap_repository.go:657-674 | True exactly when the shape holds, all roots are committed and at most current, and current is among them. |
| `RetainedRoots.HistoryHasPendingShape` | internal/dkim2store/ldap_repository.go:676-696 | True exactly when the shape holds, the candidate is the largest root and directly above the committed expected one, and all others are committed. |
| `History.LegacyIsSafe` | internal/dkim2store/ldap_repository.go:657-701 | A history written before campaigns satisfies the invariant of serialised runs. |
| `History.NewRootKeepsSafe` | internal/dkim2store/publication.go:28-60 | A staging v3 root directly above the current one keeps the invariant. |
| `History.SealKeepsSafe` | internal/dkim2store/publication.go:228-248 | Committing the successor root keeps the invariant. |
| `History.SwitchKeepsSafe` | internal/dkim2store/publication.go:349-378 | Moving the pointer to the committed successor keeps the invariant once a v3 source is marked. |
| `History.SameFactsKeepSafe` | internal/dkim2store/publication.go:282-313 | Changes that leave schema, state and digest of a root alone, or add its mark, keep the invariant. |
| `History.RemoveOldestKeepsSafe` | internal/app/dkim2_campaign.go:393-433 | Removing the oldest v3 root below the pointer keeps the invariant. |
| `History.SafeHistoryIsAccepted` | internal/app/dkim2_lifecycle.go:513-535 | Every listing of a history that satisfies the invariant has the two-run shape and its pending successor is accepted. |
| `Purge.NextIsLeaf` | internal/dkim2store/retention.go:146-177 | In the sorted order the next remaining entry has no child left. |
| `Purge.RootIsLast` | internal/dkim2store/retention.go:146-177 | When the root is next, it is the only entry left. |
| `Purge.RemainderMatches` | internal/dkim2store/retention.go:180-253 | After deleting any entry but the root the remainder still matches the plan. |
| `Purge.CompleteIsPurgeable` | internal/dkim2store/retention.go:180-253 | A complete committed v3 generation with the activation mark matches the plan made from its own root. |
| `Purge.MatchIsEvidence` | internal/dkim2store/retention.go:228-253 | A remainder that matches a plan has a committed, marked v3 root with exactly the operation, source, number and digest of the plan. |
| `Purge.MatchingEntries` | internal/dkim2store/retention.go:180-226 | Below that root it holds only units and records of that generation, each under its own name and of the class of its unit. |
| `Retention.Store.PurgeSnapshotMatchesPlan` | internal/dkim2store/retention.go:180-226 | True exactly when the root is present and matches the plan and every remaining entry is a deletable part of the target generation. |
| `Retention.Store.DeleteAll` | internal/dkim2store/retention.go:146-177 | However the delete loop ends, only entries of the target are gone, the rest has its ancestors and still matches the plan; while the reads succeed, the answer is yes exactly when nothing of the target is left. |
| `Retention.Store.DeleteGeneration` | internal/dkim2store/retention.go:124-177 | Deletes nothing outside the target under any fault and leaves a rooted part that the same plan can resume; while the reads succeed it answers yes exactly when the plan was ready and the subtree is gone, and undisturbed it is. A plan that is not ready changes nothing. |
| `Retention.Store.PurgeAfterInterruptions` | internal/dkim2store/retention.go:124-177 | Any number of interrupted attempts followed by an undisturbed one removes exactly the target subtree. |
| `Retention.Store.ListRoots` | internal/dkim2store/ldap_repository.go:234-326 | Lists every root once with its schema and state; fails exactly when some root has no readable state. |
| `Retention.Store.InventoryRootFacts` | internal/dkim2store/retention.go:65-112 | A row is returned exactly when the subtree maps in its root state and the root evidence is well formed, and it repeats that evidence. |
| `Retention.Store.InventoryGenerations` | internal/dkim2store/retention.go:18-63 | Succeeds exactly with a committed pointer to a committed root and readable roots in the two-run shape; returns every root once, completely read, in ascending order under one pointer. |
| `Retention.Store.ChooseTarget` | internal/app/dkim2_campaign.go:400-414 | The chosen target is the oldest v3 root and lies below the rollback floor; none is chosen only if every v3 root is at or above the floor. |
| `Retention.Store.PurgeOldest` | internal/app/dkim2_campaign.go:415-433 | One round journals a plan, removes at most the target and keeps the history and the journal consistent under any fault; the target is touched only under a journal that can finish it. |
| `Retention.Store.ApplyAutomaticRetention` | internal/app/dkim2_campaign.go:377-435 | Under any fault: history and journal stay consistent, and the pointer, the current generation and every legacy subtree are untouched; the rollback reserve is untouched when no journalled target is left at or above the floor. A recoverable journal is undisturbed finished and forgotten, and the reserve is then kept exactly under that condition; an unrecoverable one stops retention, uncertain and without a change. However a run stops, a recoverable and readable history stays so for the next one. Undisturbed on any history that can be inventoried once the journal is recovered, exactly the oldest v3 subtrees below the floor are gone, as many as excess, batch and floor allow, and it is blocked exactly when the floor allows fewer; on an all-v3 history with a reserve below the maximum it ends at max(maximum, count - batch) roots when it started above the maximum. |
| `Retention.Store.RecoverJournal` | internal/app/dkim2_campaign.go:382-392 | Undisturbed recovery succeeds exactly when the pointer is the planned one and the target is gone or still a remainder of the plan; success clears the journal and the target, and any failure of that condition leaves everything as it was. |
| `Retention.Store.DeleteOldest` | internal/app/dkim2_campaign.go:393-435 | Started without a journal, only v3 subtrees below the rollback floor ever lose entries, under any fault. Undisturbed on any history whose roots can all be inventoried, exactly min(batch, excess over the maximum, number of v3 roots below the floor) subtrees are gone, each older than every v3 root left, all others untouched; it is blocked exactly when the last of the three is smaller than the other two. However it stops, a journal left can be finished, and without its target every root is still readable. |
| `Retention.RaisedReserveIsLost` | internal/app/dkim2_campaign.go:382-392 | Counterexample: a target planned below the floor lies in the reserve once the configured reserve is raised by one, and its recovery is still due. |
| `Retention.FirstPurgeable` | internal/app/dkim2_campaign.go:400-414 | The first purgeable row is the oldest v3 root, because every older one would carry the mark as well. |
| `Retention.EligibleInterval` | internal/app/dkim2_campaign.go:393-414 | An eligible history is one interval ending at the current number, so its size locates its oldest root. |
| `Retention.OldestBelowFloor` | internal/app/dkim2_campaign.go:396-411 | With a reserve smaller than the maximum, an oversized eligible history has a v3 root below the floor. |
| `Retention.OldestAfterPurge` | internal/dkim2store/retention.go:128-177 | After any purge attempt a surviving target root is still the oldest v3 root, so the journal stays valid. |
| `CampaignRun.AddCampaignCandidate` | internal/dkim2store/publication.go:20-157 | Stopped anywhere, the subtree holds exactly a prefix of the ordered write and the history stays well formed; undisturbed, every add succeeds. |
| `CampaignRun.ValidateReadback` | internal/dkim2store/publication.go:162-203 | Accepts exactly a subtree that a complete search reads as the candidate itself in state staging; the finished write is one. |
| `CampaignRun.StageCampaign` | internal/dkim2store/ldap_repository.go:385-454 | Changes nothing but the successor subtree, which was empty before; success leaves exactly the written candidate and returns what is stored. Undisturbed it succeeds exactly when the current generation is readable, nothing lies above it and the candidate is a committed-to successor. |
| `CampaignRun.LoadPending` | internal/dkim2store/ldap_repository.go:457-536 | A loaded candidate maps in its root state directly above or at the pointer, with the metadata of its v3 root; undisturbed it loads exactly the readable successors, and the current generation above its retained source. |
| `CampaignRun.MarkSourceWasActive` | internal/dkim2store/publication.go:282-347 | At most the mark is added, and the history stays well formed. While the readback succeeds, the answer for an unmarked source is yes exactly when the mark is there, whatever became of the request. |
| `CampaignRun.CommitCampaignGeneration` | internal/dkim2store/publication.go:228-248 | Commits only a staging root that carries number, operation, source and digest of the metadata. |
| `CampaignRun.SwitchCurrentCampaign` | internal/dkim2store/publication.go:349-378 | The pointer either stays or names the candidate with its digest; undisturbed it moves. |
| `CampaignRun.CommitCampaignAndSwitch` | internal/dkim2store/ldap_repository.go:592-647 | Under any fault only the mark of the source and the state of the candidate may have changed, and the pointer stays or moves by one to a complete committed candidate with the evidenced digest; undisturbed it succeeds on every activatable candidate. |
| `CampaignRun.ActivationSparesLegacy` | internal/dkim2store/ldap_repository.go:613-620 | Legacy roots are never marked or sealed. |
| `CampaignRun.CampaignPreparedMatches` | internal/app/dkim2_campaign.go:208-236 | True exactly when source, number and digest agree and the stored records are the candidate, the stored ones possibly committed in the meantime. |
| `CampaignRun.DigestDecides` | internal/app/dkim2_campaign.go:208-236 | For a loaded candidate the digest alone determines metadata and records; the comparison can then fail only if the stored state is behind the given one. |
| `AutomaticCampaign.RunCampaign` | internal/app/dkim2_campaign.go:19-96 | Resumes the pending successor if there is one, otherwise stages the planned one, settling an uncertain staging by loading it, and activates. The pointer stays or moves by one to a complete committed generation; stopped anywhere, the successor holds a part of the write or the committed whole. While the settling reads succeed, the answer is yes exactly when the pointer moved; success requires a readable current generation. Undisturbed it succeeds exactly when nothing lies above the current generation, or a complete candidate made from it. |
| `AutomaticCampaign.StageAndContinue` | internal/app/dkim2_campaign.go:79-96 | Stages, settles a failed staging by loading the candidate and comparing it, and activates. With settlement and activation undisturbed, it succeeds exactly when the candidate has been written completely, however the staging ended. |
| `AutomaticCampaign.ContinueCampaign` | internal/app/dkim2_campaign.go:239-345 | A loaded candidate made from another generation is refused without a change. Otherwise at most the mark of its source, its own state and the pointer change; success means that it is current under its digest. While the settling load succeeds, the answer is yes exactly when the pointer moved, whatever happened to the activation; undisturbed every activatable candidate succeeds. |
| `AutomaticCampaign.RerunCampaign` | internal/app/dkim2_campaign.go:32-63 | After an interruption anywhere, an undisturbed rerun with whatever the planner then offers finishes exactly when the successor subtree is empty or maps completely, unless the first run had already moved the pointer. |
| `AutomaticCampaign.RunCommands` | internal/app/dkim2_campaign.go:377-392 | Any sequence of commands keeps history and journal consistent; once an activation has overtaken the journal, it stays as it is and every enabled retention answers that its outcome is uncertain. |
| `AutomaticCampaign.Lifecycle` | internal/app/dkim2_manager.go:35-45 | Any sequence of fenced commands from a legacy-only history, disturbed anywhere: every v3 root below current is marked, every listing has the two-run shape and an acceptable successor, the number does not decrease, and legacy subtrees are untouched. |
| `Generations.NewGeneration` | internal/dkim2model/generation.go:39-79 | Accepts exactly the record sets with complete relationships and global uniqueness, in any order, and returns the same records in canonical order. |
| `Generations.ValidateCredentials` | internal/dkim2model/generation.go:112-152 | Accepts exactly credentials that are linked to a listed handle and profile, pairwise apart in handle, selector and profile with algorithm, and leave no profile without one. |
| `Generations.ValidatePolicies` | internal/dkim2model/generation.go:152-174 | Accepts exactly policies linked to a profile of the same domain and fit status, one per binding. |
| `Generations.ValidateMaterials` | internal/dkim2model/generation.go:174-205 | Accepts exactly materials in one-to-one correspondence with handles and credentials and bound by a policy of the credential's profile. |
| `Generations.EquivalentIsSameRecords` | internal/dkim2model/generation.go:343-380 | Two constructed generations are equivalent exactly when number, state and record sets agree, whatever order the records were supplied in. |
| `Generations.CanonicalUnique` | internal/dkim2model/generation.go:665-690 | There is one canonical order of a consistent record set. |
| `Generations.SortedIsCanonical` | internal/dkim2model/generation.go:665-690 | Sorting consistent records leaves no two with the same key, so the order is strict. |
| `Generations.CoverageByCount` | internal/dkim2model/generation.go:174-205 | Counting distinct handles decides full coverage, so the count comparison of the validator loses nothing. |
| `Snapshots.ViewDetermines` | internal/dkim2model/generation.go:343-380 | Two constructed generations are equivalent exactly when number, state and the three tables agree. |
| `Snapshots.SameRecordsSameView` | internal/dkim2model/generation.go:39-79 | Record order does not show in the tables. |
| `Snapshots.ConsistentView` | internal/dkim2model/generation.go:82-205 | The tables of a valid generation are closed: every slot belongs to a listed profile and to a native policy of that profile, and no two slots share handle or selector. |
| `Builders.Builder.Next` | internal/dkim2model/generation.go:383-409 | A renumbered copy of every record: for a consistent generation the contents are consistent again and have the same three tables. |
| `Rebasing.RebaseKeepsView` | internal/dkim2model/generation.go:383-409 | Renumbering a consistent generation and resetting its state changes no profile, policy, key or correspondence. |
| `Builders.Builder.ReplaceProfileKeys` | internal/dkim2model/generation.go:542-619 | Succeeds exactly on well-paired keys for a listed profile that has keys; replaces that profile's credentials, handles and materials and nothing else; unused distinct handles keep the one-to-one correspondence; on failure nothing changes. |
| `Builders.Builder.Build` | internal/dkim2model/generation.go:639-646 | Accepts exactly the consistent contents. |
| `Builders.ReplacementOneToOne` | internal/dkim2model/generation.go:542-619 | Replacing one profile's keys by keys with unused distinct handles keeps handles, credentials and materials in one-to-one correspondence. |
| `Joins.PartRelated` | internal/dkim2model/generation.go:82-205 | Cutting a consistent set along whole profiles leaves a set with complete relationships. |
| `Joins.UnionRelated` | internal/dkim2model/generation.go:82-205 | Two such sets without common handle, profile, selector or binding are complete together. |
| `Rekeying.RekeyKeepsConsistent` | internal/dkim2model/generation.go:542-646 | Rekeying a bound profile with fresh identifiers and fitting selectors always passes the constructor. |
| `Supply.ShortNameFits` | internal/dkim2model/rotation.go:417-442 | An allocated selector fits under a domain exactly when the domain has at most 211 characters. |
| `Supply.RoomNeeded` | internal/dkim2model/rotation.go:343-378 | A rekeyed record set that passes the constructor leaves that room in the domain of every rekeyed binding. |
| `Bindings.ExactActiveBinding` | internal/dkim2model/rotation.go:380-415 | Succeeds exactly for an active policy that alone names an active profile; returns that profile with all its credentials. |
| `Bindings.ExclusivePolicyForProfile` | internal/dkim2model/lifecycle.go:796-806 | Finds the policy that alone names a profile, exactly when there is one. |
| `Bindings.CredentialsForProfile` | internal/dkim2model/campaign.go:194-202 | Exactly the credentials of a profile, with pairwise different algorithms; none only for an unknown profile. |
| `Bindings.NativeBinding` | internal/dkim2model/rotation.go:75-113 | Every exact active binding has a use with native key custody. |
| `Lifecycle.UniqueRotatedBinding` | internal/dkim2model/lifecycle.go:530-611 | Succeeds exactly when one profile, bound by an enforced active native policy alone, has every old algorithm renewed in selector, handle and public key and added algorithms fresh, while all other profiles, policies and keys are logically equal; returns both public projections. |
| `Lifecycle.CompareProfiles` | internal/dkim2model/lifecycle.go:545-583 | A result classifies every profile as equal or renewed and names the one that changed; a rejection proves that no rotation exists. |
| `Lifecycle.ValidateExtendedCredentials` | internal/dkim2model/lifecycle.go:850-886 | Acceptance proves handles and selectors of added credentials unknown to the predecessor; where one binding holds the profile, such credentials are accepted. |
| `Lifecycle.LifecycleCredentials` | internal/dkim2model/lifecycle.go:738-747 | The public projection lists each key of the profile once, in canonical order. |
| `Lineage.ValidateGenerationLineageProjection` | internal/dkim2model/lifecycle.go:613-646 | True exactly when as many facts as keys are recorded for the generation, every key has exactly one of them and its profile one policy. |
| `Lineage.ProjectionIsExact` | internal/dkim2model/lifecycle.go:613-646 | Under a passed projection every fact recorded for the generation belongs to one of its keys. |
| `Transitions.ValidateRotationCandidateIntent` | internal/dkim2model/lifecycle.go:293-334 | Accepts exactly the fresh rotations of one enforced binding: direct successor, complete bounded lineage, one renewed binding, exact projections of both generations, and no selector, handle or public key of an earlier generation reused. |
| `Transitions.PlanRetirement` | internal/dkim2model/lifecycle.go:276-290 | Planned exactly for committed neighbours that differ by one complete rotation; retiring and active lists are the two projections of that binding, and their selectors are disjoint exactly when no selector moved to another key. |
| `Rollback.PlanForwardRollback` | internal/dkim2model/lifecycle.go:429-458 | Succeeds exactly when the guards hold, the source profile is the current one or new, and its handles and selectors clash with no key that stays; the candidate is valid, numbered one above current, carries the source's policy, profile and keys for the binding and equals current elsewhere. |
| `Rollback.RebaseSourceBinding` | internal/dkim2model/lifecycle.go:648-711 | The rebased record set passes the constructor exactly when there is no such clash, and its tables are the current ones with the target binding taken from the source. |
| `Rollback.BindingsEqual` | internal/dkim2model/lifecycle.go:713-732 | True exactly when policy, profile and every key of the binding agree in both generations. |
| `Rollback.FittingIsConsistent` | internal/dkim2model/lifecycle.go:648-711 | Without a clash the assembled set is consistent. |
| `Rollback.ConsistentIsFitting` | internal/dkim2model/lifecycle.go:648-711 | A consistent rollback has no clash. |
| `Rollback.RollbackIsNotRotation` | internal/dkim2model/lifecycle.go:322-334 | With the source facts retained, the intent test rejects every rollback candidate. |
| `Campaign.ActiveBindings` | internal/dkim2model/campaign.go:32-66 | Succeeds exactly on a committed generation whose active bindings are native and within the bound; lists them in canonical order. |
| `Campaign.ChangedActiveBindings` | internal/dkim2model/campaign.go:69-130 | Accepts exactly the direct successors with equal profiles and policies in which every profile is untouched or is the completely replaced profile of one active binding, within a positive bound, and lists the replaced bindings in canonical order. |
| `Campaign.CampaignProfileUnchanged` | internal/dkim2model/campaign.go:139-177 | True exactly for an untouched profile; otherwise acceptance proves that no algorithm was dropped and added keys are fresh, and any such change under one binding is accepted. |
| `Campaign.CrossCheck` | internal/dkim2model/campaign.go:108-118 | Accepts exactly when no old key of the profile shares selector, handle or public key with any new one. |
| `Campaign.SameFactsInOrder` | internal/dkim2model/campaign.go:179-192 | Positional comparison of sorted profiles and policies is equality of their tables. |
| `Campaign.ValidateExtensionCandidate` | internal/dkim2model/campaign.go:235-263 | Accepts exactly the successors in which every active source binding is replaced and carries exactly the requested algorithms. |
| `Campaign.CanonicalAlgorithmSet` | internal/dkim2model/rotation.go:284-296 | Accepts exactly nonempty duplicate-free lists and returns them in signing order. |
| `Eligibility.EligibleBindings` | internal/dkim2model/rotation.go:521-585 | Succeeds exactly with complete history, valid limits and sound lineages for every active binding; returns exactly the bindings whose earliest matching fact is at least the rotation age old, in canonical order, each with that fact. |
| `Eligibility.EarliestFact` | internal/dkim2model/rotation.go:541-563 | Finds the earliest matching fact, exactly when there is one, none is duplicated for a generation and none lies beyond the clock skew. |
| `Eligibility.BindingSince` | internal/dkim2model/rotation.go:537-570 | The earliest matching fact over all keys of a binding, exactly when every key has a sound lineage. |
| `Renewal.RotationResetsAge` | internal/dkim2model/rotation.go:521-585 | On a recorded campaign successor a renewed binding is due exactly from the rotation age of its records on, under their date; every other binding is due exactly as on the predecessor, under the same date. |
| `Renewal.SuccessorLineage` | internal/dkim2model/rotation.go:549-563 | The lineage of a recorded successor is sound exactly when its records are not dated beyond the clock skew. |
| `Renewal.TwiceRecordedIsRejected` | internal/dkim2model/rotation.go:549-552 | A successor recorded twice for one generation has no sound lineage. |
| `Renewal.GlobalRotationLeavesNothingDue` | internal/dkim2model/rotation.go:75-113 | Right after a recorded global rotation no binding is due. |
| `Renewal.ForeignRecordsIgnored` | internal/dkim2model/rotation.go:541-548 | A record that differs from every key in binding, selector, algorithm, handle or public key changes neither acceptance nor any date. |
| `Renewal.SingleIsCampaign` | internal/dkim2model/rotation.go:116-210 | The candidate of a single rotation is a campaign of one binding. |
| `Rotation.KeysApartStep` | internal/dkim2model/rotation.go:343-376 | Each new key stems from an answer of the generator of its own, so keys are pairwise different when the answers are. |
| `Rotation.CampaignKeysApart` | internal/dkim2model/rotation.go:75-113 | No two keys of the rekeyed profiles of a candidate are the same, as long as the generator does not repeat itself. |
| `Rotation.AllocateHistoricalId` | internal/dkim2model/rotation.go:417-442 | Returns the first draw that is neither used nor historical, exactly when one exists within the attempts and the lookup is available. |
| `Rotation.CampaignAdvance` | internal/dkim2model/rotation.go:343-378 | Rekeying one more profile leaves the keys of all others, old and new, as they were. |
| `Rotation.CampaignResult` | internal/dkim2model/rotation.go:75-113 | The built candidate carries fresh keys of the target algorithms at exactly the targeted profiles and equals current elsewhere. |
| `Planners.KeyReplacer.AllocateSelector` | internal/dkim2model/rotation.go:417-442 | The selector is unused and not historical, fits in one label, and is reserved at once; an unused draw is never skipped. |
| `Planners.KeyReplacer.IssueKeys` | internal/dkim2model/rotation.go:343-376 | Fresh identifiers that avoid each other, everything in use and everything historical, with generated keys of the requested algorithms; cannot fail with enough supply. |
| `Planners.KeyReplacer.Replace` | internal/dkim2model/rotation.go:343-378 | Replaces the profile's keys in the builder by exactly the issued ones, or leaves the builder alone. |
| `Planners.PlanGlobalRotation` | internal/dkim2model/rotation.go:75-113 | Success implies, and with enough supply follows from, complete sound lineage, exact due bindings and room in their domains; no candidate exactly when nothing is due, otherwise one successor that rekeys exactly the due bindings under their own algorithms; its new keys are pairwise different unless the generator repeats itself. |
| `Planners.PlanRotation` | internal/dkim2model/rotation.go:116-210 | Success implies, and with enough supply follows from, an exact active binding, an algorithm set that drops nothing, and room; the successor has fresh keys of exactly that set there and equals current elsewhere; its new keys are pairwise different unless the generator repeats itself. |
| `Planners.PlanGlobalExtension` | internal/dkim2model/rotation.go:230-280 | Every active binding is rekeyed to exactly the requested superset, or nothing is built because all carry it; fails only if a binding would lose an algorithm, has no room, a guard fails or supply runs out; its new keys are pairwise different unless the generator repeats itself. |
| `Planners.OwnAlgorithms` | internal/dkim2model/rotation.go:124-133 | The algorithms of an exact active binding in signing order. |
| `Agreement.GlobalRotationIsRecognised` | internal/dkim2model/campaign.go:69-130 | With fresh public keys, the campaign test recognises a planned global rotation as exactly the due bindings, in the same order. |
| `Agreement.GlobalExtensionIsAccepted` | internal/dkim2model/campaign.go:235-263 | Every planned global extension passes the extension test for the same request. |
| `Agreement.PlannedRotationIsIntended` | internal/dkim2model/lifecycle.go:293-334 | A planned rotation of an enforced binding is a rotation to the intent test for the same binding once both generations are recorded, given fresh public keys and one policy per profile. |
| `Agreement.PlannedRotationRetires` | internal/dkim2model/lifecycle.go:276-290 | Committed, it is one complete rotation of the same binding, and retiring and active selectors are disjoint. |
| `Agreement.IntentSeparatesSelectors` | internal/dkim2model/lifecycle.go:322-334 | A candidate accepted by the intent test never reuses a retiring selector. |
| `Transitions.RetirementSeparates` | internal/dkim2model/lifecycle.go:530-611 | Two generations accepted for retirement have disjoint selectors if and only if no key of the successor holds a selector that the predecessor gave to another key; with at most one retiring key they always have. |
| `Agreement.SwappedSelectorsRetire` | internal/dkim2model/lifecycle.go:276-290 | Counterexample with private keys present: swapped selectors are accepted for retirement although a retiring selector is still active. |
| `Candidate.Hasher.WriteList` | internal/dkim2model/candidate.go:179-265 | Writes the count and then every record of a list. |
| `Candidate.NewCandidateMetadata` | internal/dkim2model/candidate.go:99-119 | Succeeds exactly with a source below the number and every private key present; the result commits to the candidate. |
| `Candidate.ValidateCandidate` | internal/dkim2model/candidate.go:90-96 | True exactly when the metadata commits to the candidate. |
| `Candidate.EncodePeel` | internal/dkim2model/candidate.go:266-283 | A framed stream of known field kinds determines its fields and where they end. |
| `Candidate.StreamDecodes` | internal/dkim2model/candidate.go:99-119 | Equal streams come from equal source, number, operation and record rows, for counts and lengths below 2^32. |
| `Candidate.CommitmentBinds` | internal/dkim2model/candidate.go:99-119 | Equal commitments bind equal metadata and, up to the state, the same records. |
| `Candidate.CommitmentIgnoresOrderAndState` | internal/dkim2model/candidate.go:179-259 | Reordering records or committing the root never invalidates a commitment. |
| `Candidate.ArrangementUnique` | internal/dkim2model/candidate.go:179-259 | The order in which records are hashed depends on the records only. |
| `Mapper.MapGeneration` | internal/dkim2store/mapper.go:14-221 | Succeeds exactly on a closed subtree of one schema: every entry readable, no name twice, root and all five units present, consistent records and, under v3, an intact commitment; returns those records. |
| `Mapper.FinishMapping` | internal/dkim2store/mapper.go:190-221 | The constructor and the recomputed commitment decide. |
| `Mapper.FindSchema` | internal/dkim2store/mapper.go:319-331 | Finds the schema on the root entry; without one the subtree can be read under no schema. |
| `Mapper.ParseOfDecimal` | internal/dkim2store/mapper.go:380-386 | Canonical decimals read back. |
| `Mapper.RecordCnInjective` | internal/dkim2store/publication.go:489-494 | Storage names of different positions differ, under both schemas. |
| `ReadBack.WrittenReadsBack` | internal/dkim2store/publication.go:28-203 | Whatever order the directory returns the entries in, the written candidate is read back with the same records and number, in state staging. |
| `ReadBack.InterruptedWriteRejected` | internal/dkim2store/mapper.go:14-221 | A write cut short before its last add is never taken for a generation, in whatever order it is read. |
| `ReadBack.WriteDistinct` | internal/dkim2store/publication.go:28-157 | No two adds of one candidate use the same name. |
| `ReadBack.PrefixParts` | internal/dkim2store/publication.go:28-157 | A cut write holds fewer key materials than handles, or none at all. |
| `CnameRenames.PlanCnameRenames` | internal/app/manager.go:1635-1689 | Fails exactly when some cycle consists of active selectors. Otherwise replaying the steps never renames a missing name or lands on a held one, ends with every planned selector at its target and every other name untouched, gives a name outside the slots only to inactive selectors, and takes one step per move plus one per cycle; the loop terminates. |
| `CnameRenames.StuckIsClosed` | internal/app/manager.go:1655-1670 | Pigeonhole: when every target is held by a waiting move, the waiting moves form a permutation. |
| `CnameRenames.CycleThrough` | internal/app/manager.go:1670-1687 | Every move of a permutation lies on a cycle inside it. |
| `CnameRenames.CycleUnique` | internal/app/manager.go:1670-1687 | No move lies on two cycles. |
| `CnameRenames.ProgressKeepsCycles` | internal/app/manager.go:1655-1669 | Carrying out a move whose target is free keeps every cycle. |
| `CnameRenames.BreakRemovesOneCycle` | internal/app/manager.go:1670-1687 | Parking one member of a permutation breaks exactly the cycle it is on. |
| `CnameRenames.TemporarySelectorName` | internal/app/manager.go:1691-1700 | Returns the shortest unused digest name, or the longest one unchecked. |
| `Base64.DecodesExactly` | internal/dkim2model/values.go:330-340 | A text decodes to some bytes exactly when it is their encoding, padded or not. |
| `KeyRecords.ParseDkimContent` | internal/dnsupdate/rotation.go:520-559 | Succeeds exactly on three or four distinct tags of the closed vocabulary, version first, known key type, allowed hash and a nonempty strictly encoded key; returns that algorithm and key. |
| `KeyRecords.ParseDnsRecord` | internal/app/dkim2_manager.go:953-1005 | Succeeds exactly on bounded records of distinct known tags with a leading version if any, valid flags, known or absent key type and one canonical key encoding of at most 8192 bytes. |
| `KeyRecords.PublicValueDecodes` | internal/app/dkim2_manager.go:1063-1088 | Blanks aside, the value is exactly one of the two canonical encodings of a nonempty key of at most 8192 bytes. |
| `KeyRecords.PrintedParsesStrictly` | internal/dkim2model/values.go:330-340 | Printing any algorithm and nonempty key and parsing strictly gives both back. |
| `KeyRecords.PrintedParsesLeniently` | internal/dkim2model/values.go:330-340 | The lenient parser returns the same exactly up to 6144 key bytes. |
| `KeyRecords.StrictIsLenient` | internal/app/dkim2_manager.go:953-1005 | A strict record is a lenient record for the same key exactly when it has at most 16384 characters and its trimmed key value at most 8192 and no line break. |
| `KeyRecords.TxtChunks` | internal/dnsupdate/dns.go:73-83 | The pieces join to the record, all but the last have 254 characters, and their number is the rounded-up quotient, at least one. |
| `KeyRecords.MatchingDkimContent` | internal/dnsupdate/rotation.go:497-515 | True exactly when both records parse strictly to one algorithm with equal or equivalent keys. |
| `KeyRecords.PrintedRecordsMatch` | internal/dnsupdate/rotation.go:497-515 | Two printed records match exactly when their keys do. |
| `KeyRecords.StrictKeyIsUnique` | internal/dnsupdate/rotation.go:520-559 | A record has at most one strict reading. |
| `DnsZones.ResolveUpdateTarget` | internal/dnsupdate/dns.go:113-157 | Returns the longest name, among the cleaned zone and every dotted rest behind one of its dots, that bears an SOA record, with what was cut off in front moved to the subdomain; fails exactly when the zone is empty, all of them are denied, or a lookup fails before one is found. |
| `DnsZones.SearchOnText` | internal/dnsupdate/dns.go:134-155 | The label-wise search finds exactly what the definition on the text says, and misses nothing. |
| `DnsZones.CleanCutsEdges` | internal/dnsupdate/dns.go:119-120 | Cleaning cuts outer blanks, then outer dots, and nothing else. |
| `DnsZones.FqdnOnText` | internal/dnsupdate/dns.go:65-71 | A final dot counts as escaped exactly after an odd number of backslashes; otherwise a name that ends in it stays as it is, and any other gets one. |
| `DnsZones.ChosenIsLongest` | internal/dnsupdate/dns.go:113-157 | No other SOA-bearing candidate is as long as the one chosen. |
| `DnsZones.ResolvedOwner` | internal/dnsupdate/dns.go:65-71 | The full record name is the same under the resolved zone as under the zone asked for. |
| `DnsZones.ResolveUpdateZone` | internal/dnsupdate/rotation.go:253-266 | The result is an eligible enclosing zone; for a name without a leading blank it fails exactly when the search fails, so the final checks never reject. |
| `DnsZones.CandidateIsEligible` | internal/dnsupdate/rotation.go:253-266 | Every candidate of an eligible zone is itself eligible and encloses it. |
| `DnsZones.ResolvedZoneIsValid` | internal/dnsupdate/rotation.go:470-477 | Every resolved zone passes the later validation of records under the logical zone. |

## Left out

* LDAP transport, TLS, binds, result codes, referrals, search bounds and timeouts; a request is one atomic guarded step, and a refused or unanswered one is a fault.
* Cryptography, DER and X.509: key pairs are opaque values; the composite public-key equivalence used when records are compared is a parameter.
* SHA-256 itself: the commitment is the hashed bytes, so claims about it are claims about the preimage; the all-zero digest is not singled out.
* Contexts, mutexes, clearing of secret buffers, redacted formatting, journal file permissions and fsync.
* Validity windows are canonical texts that are kept and compared; that a window ends after it begins is not modelled.
* Per-entry and per-history byte and count limits of the mapper (`validateDatasetSize` and the history limit): they only refuse.
* Reading the records of every retained generation before staging or loading (`loadHistoricalLineages`): it only refuses; the historical identifiers it yields are an input of the planners.
* The DNS part of a campaign (publication, proofs, polling) between staging and activation, and the order of reads in `--auto`: `AutomaticCampaign.Lifecycle` admits every order of commands instead.
* `internal/dkim2store/role_repository.go`: the same protocol split over four authorities; the requests and their order are those modelled.
* `ClassifyRecovery`, the work budget, observation and retirement clocks: easy members without state.
* The rest of the legacy manager (`CmdAuto`, `CmdDelete`, `CmdActive`, the slot assignment in `reorderByType`).
* github.com/miekg/dns is not part of this model: absolute names are modelled on labels of 1 to 63 characters and at most 255 characters in all, for ASCII text.
* Lengths in key records count characters, which are bytes for the ASCII texts that both parsers accept.
* Publication: the concurrent model omits the checks on the whole retained history and the comparison of a purge target with its plan, which only refuse; claims about them are made for serialised commands.
* Plain `Stage` and `CommitAndSwitch` above a v3 history: they would write a v2 root above v3 ones or skip the activation mark, so the shape claims are for v3 candidates activated through `CommitCampaignAndSwitch`, from legacy-only histories.
* CnameRenames.PlanCnameRenames: assumes distinct existing sources, distinct targets not held outside the plan, and a free longest temporary name, which the planner returns unchecked.
* Agreement.PlannedRotationIsIntended: assumes rollout enforce, one policy per profile and public keys unknown to the history, which the planner does not check and the validator demands.
* Planners.PlanGlobalRotation: that a supply of randomness is enough is stated for draws that are all unused and distinct; repeated or used draws are covered by the per-allocation contract only.
* Renewal.RotationResetsAge: assumes that the history is older than the successor in number and date and that the identifier lookup knows its selectors; `LoadRetainedHistory` returns both from one reading.
* Candidate.StreamDecodes: assumes counts and lengths below 2^32, because the framing truncates to 32 bits.
* The `--keytype` request of a resumed campaign (`validateExtensionResume`) and the recognition of the changed bindings before activation: they only refuse, and `Campaign` proves what they accept.
* Automatic retention runs as a command of its own, after any campaign, not as the last step of the same command; the guard that the whole history has been read first is not part of it.
