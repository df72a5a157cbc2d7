# Governed retrieval, verified

This project models the deterministic engines of the Enterprise Brain service in Dafny and proves what its
design promises of them. `dafny verify dfyconfig.toml` checks all of it.

- **Ledgers** (`Ledger`, `AccessRequests`, `AccessGrants`, `AccessRuns`, `AccessHistory`, `HashChain`, `Proposals`,
  `ProposalRuns`, `ProposalHistory`, `LaneBoxes`, `LaneOwnership`, `Identifiers`). An append-only file, a memory
  rebuilt from it, and methods that append one line and then update the memory. Each store is a class whose invariant
  is that the memory is the replay of the file. Runs put the stores together, with closes, reopens and crashes between
  the append and the memory update at any step. The source holds a mutex for each method, so a method is one step; a
  status change of a lane box takes several locks, so there a call is three steps and runs interleave them.
- **Access semantics** (`AccessModel`, `CompilerSemantics`, `OracleSemantics`, `AccessReasons`, `Agreement`,
  `Supersedes`). The Rust compiler and the Python oracle are two programs with different control flow. The agreement
  is proved for every company, not on a fixed matrix, and the condition under which it holds is exact.
- **Governed search** (`Fusion`, `TopK`, `Judging`, `Search`, `SearchOrder`, `Indexing`, `Estate`, `EstateOrder`).
  Partitioned top-k, reciprocal rank fusion, an untrusted judge, and an inverted index against the naive scan it
  stands for.
- **Untrusted generation** (`Generation`, `StrictParsing`, `Grounding`, `Answering`, `Mosaic`, `Redaction`). The
  strict block parser and its printer, extractive anchors, the composed text that an older gate reads again, the
  mosaic bound, and what a redacted proposal tells a viewer.
- **Time and recency** (`Civil`, `Timestamps`, `RateLimit`, `Cache`).
- **Structure** (`Brm`, `BrmFacts`, `Atlas`, `AtlasFacts`, `LaneSeeds`, `LaneFacts`, `Cards`). The capability graph,
  the views built over it, and the evidence cards of the demo reel.
- `Basics`, `Text` and `Ordering` hold the shared vocabulary: options, filters, the string operations the source takes
  from its standard library, and sorting.

The modules `AccessHistory`, `ProposalHistory`, `LaneOwnership`, `AccessReasons`, `SearchOrder`, `EstateOrder`,
`StrictParsing`, `BrmFacts`, `AtlasFacts` and `LaneFacts` say what the specification functions of their neighbours come
to, in terms of the arguments, the entries, the rows or the text alone.

Modelling choices that hold throughout. A log is a sequence of rows; where bytes matter, a canonical encoding of rows
into newline-terminated lines is assumed injective. SHA-256 is any function, and freedom from collisions is a stated
hypothesis, only on the lines at hand. Clocks, embedders, judges, generators and relevance scores are arbitrary
inputs. Ids are arbitrary strings, hash collisions of ids included. Reciprocal-rank scores are exact reals. Strings
are sequences of Unicode scalar values, ordered as their UTF-8 bytes are. Sets and tables whose iteration order the
source fixes but never shows are walked in any order.

Where the code and its documentation differ, the code is followed:

- The generation contract speaks of blank lines between blocks; the code also accepts them before and after.
- The lane's transition law is documented as covering every change; it holds for calls that do not overlap.
- The rate limiters read the clock before they take the lock, so attempts can be counted out of the order of their
  readings; the bound of twice the cap holds while none is counted more than one second behind an earlier one, and
  for the source's caps not beyond that.

## Model

| member | source | states |
|---|---|---|
| `AccessRequests.AccessRequestStore.Open` | service/src/access_requests.rs:125-189 | Opening rebuilds the memory as the replay of the event file, refuses exactly the files whose replay refuses, and on a live store changes nothing |
| `AccessRequests.AccessRequestStore.Create` | service/src/access_requests.rs:215-270 | An existing request for the same key and snapshot is returned and an id collision refused, both changing nothing; otherwise one line is added and the stored request holds exactly the requester, target, justification, approver and snapshot asked with, pending, under its own key, id and line number |
| `AccessRequests.AccessRequestStore.Decide` | service/src/access_requests.rs:287-330 | A decision is recorded exactly when the status is an outcome and the request is pending under the snapshot named; it then carries status, actor, reason and line and nothing else of it changes. An unknown id and a stale snapshot are told exactly so, and every refusal leaves file and memory alone |
| `AccessRequests.AccessRequestStore.Audit` | service/src/access_requests.rs:272-285 | Each audit line carries its own line index |
| `AccessRequests.CreateConsistent` | service/src/access_requests.rs:215-270 | Creation keeps key index, request table, ordinals and file in agreement, and never finds the index pointing nowhere |
| `AccessRequests.DecideConsistent` | service/src/access_requests.rs:287-330 | A decision keeps memory and file in agreement: both ordinals of a request are the lines holding its two events |
| `AccessRequests.DecidedAtMostOnce` | service/src/access_requests.rs:287-330 | A consistent file holds at most one decision line for a request, after its creation line |
| `AccessGrants.AccessGrantStore.Open` | service/src/access_grants.rs:122-179 | Opening rebuilds the grant memory as the replay of the file and keeps a live store as it is |
| `AccessGrants.AccessGrantStore.CreateFromApprovedRequestWithExpiry` | service/src/access_grants.rs:217-281 | Memory, line and reply of minting: refused exactly for a request that is not approved, one grant a request, an existing grant returned, and a new one holds the approver, requester, target, snapshot, reason and expiry it was minted from |
| `AccessGrants.AccessGrantStore.Revoke` | service/src/access_grants.rs:297-332 | A revocation is accepted exactly for an active grant that does not expire on the snapshot named; it then carries who, why and its line, and each refusal leaves everything alone |
| `AccessGrants.AccessGrantStore.HasActiveReadFor` | service/src/access_grants.rs:347-361 | Asking the grants one by one answers yes exactly when some stored grant covers the person, capability and snapshot |
| `AccessGrants.CreateConsistent` | service/src/access_grants.rs:217-281 | Minting keeps by_request and grants mutually inverse and agreeing with the file |
| `AccessGrants.RevokeConsistent` | service/src/access_grants.rs:297-332 | Revocation keeps by_request and grants mutually inverse and agreeing with the file |
| `AccessRuns.CrashIsAtomic` | service/src/access_grants.rs:269-280 | A crash between the append and the memory update, followed by reopening, is the whole operation; a bare reopen is nothing |
| `AccessRuns.RunIsSound` | service/src/access_grants.rs:122-332 | In every state of every run of the two stores with closes, reopens and crashes, both are consistent with their event and audit files and every grant copies an approved request |
| `AccessRuns.RunKeeps` | service/src/access_grants.rs:217-332 | Later states of a run keep every request, grant and audit row, and decided requests and revoked grants stay as they are |
| `AccessRuns.ReplayIsTheLiveState` | service/src/access_requests.rs:125-189 | At every point of every run, re-reading both files yields the live memory |
| `AccessRuns.AuditsStayNumbered` | service/src/access_requests.rs:272-285 | In every state of every run both audit files are numbered by line and counted right, crashes included, and later states only add rows |
| `AccessRuns.CrashesLeaveBeforeOrAfter` | service/src/access_requests.rs:255-269 | Every interrupted step of a run leaves the state before or after the whole operation |
| `AccessRuns.DecisionIsFinal` | service/src/access_requests.rs:287-330 | A decision is taken on a pending request under its own snapshot, carries its line index, and is what every later state records |
| `AccessRuns.DecidedOnce` | service/src/access_requests.rs:287-330 | No run decides a request twice |
| `AccessRuns.OneGrantPerApprovedRequest` | service/src/access_grants.rs:217-281 | At every point each grant copies its approved request and is the only grant of that request, and the index points to it |
| `AccessRuns.RevokedForGood` | service/src/access_grants.rs:297-361 | Once a grant is revoked, no later state reads any grant of its request as active, at any snapshot |
| `AccessRuns.GateOpensExactly` | service/src/access_grants.rs:347-361 | In every state of every run the read gate opens exactly when some step minted a grant from a request that still stands approved for that requester, capability and snapshot, no later step revoked it, and it does not expire on that snapshot |
| `AccessRuns.RevocableExactly` | service/src/access_grants.rs:297-332 | In every state of every run a revocation is accepted exactly when some step minted the grant, no later step revoked it, and it does not expire on the snapshot it is revoked under; so one refused for expiry is accepted under every other snapshot |
| `AccessHistory.CreateStep` | service/src/access_requests.rs:215-270 | In any run a creation whose key and id are free stores exactly what it was asked, pending; any other creation changes nothing at all |
| `AccessHistory.RequestsHoldWhatWasAsked` | service/src/access_requests.rs:244-268 | Over every run a request is stored exactly when an earlier creation with its id found the key free, and it holds the requester, target, justification, approver and snapshot passed to that step |
| `AccessHistory.DecideStep` | service/src/access_requests.rs:287-330 | In any run a decision is recorded exactly when its request is pending under the snapshot named, with actor, reason and line; any other decision changes nothing |
| `AccessHistory.RequestsCarryTheirDecision` | service/src/access_requests.rs:287-330 | Over every run a request is pending exactly until the one step that decides it, and from then on carries that step's decision |
| `AccessHistory.MintStep` | service/src/access_grants.rs:217-281 | In any run a minting adds one grant, copied field by field from its approved request, exactly when none was minted for it and the id is free; any other minting changes nothing |
| `AccessHistory.RevokeStep` | service/src/access_grants.rs:297-332 | In any run a revocation marks its grant with who, when and why exactly when the grant stands and does not expire on the snapshot; any other changes nothing |
| `AccessHistory.ApprovalHasAHistory` | service/src/access_grants.rs:217-236 | An approved request handed to minting was asked for by an earlier step and approved by a later one |
| `AccessHistory.GateOpensForWhoAsked` | service/src/access_grants.rs:347-361 | Over every run the read gate is open for a person, a capability and a snapshot exactly when that person asked for that capability under that snapshot, the request was approved and granted by later steps, and the grant was neither revoked since nor expires on that snapshot |
| `Identifiers.KeysTellApart` | service/src/access_requests.rs:205-213 | Unless the hash collides, two requests share a key exactly when one requester asks for one target |
| `Identifiers.RequestIdsTellApart` | service/src/access_requests.rs:238-239 | Unless the short hash collides, two request ids are the same exactly when key and snapshot are |
| `Identifiers.GrantIdsTellApart` | service/src/access_grants.rs:236-243 | Unless the short hash collides, two grant ids are the same exactly when request and snapshot are |
| `HashChain.LastLineBytes` | service/src/proposals.rs:748-756 | Finds the last newline-terminated line of raw bytes, and None exactly when there is no newline |
| `HashChain.LastLineOfRows` | service/src/proposals.rs:748-756 | The last line of a file of encoded rows is the encoding of its last row, to the byte |
| `HashChain.OneTipOneTail` | service/src/proposals.rs:299-315 | Unless the hash collides on their own lines, two files whose stamped rows link up have one tip if and only if they agree row for row back to and including the last bare row |
| `HashChain.VouchedForReaches` | service/src/proposals.rs:174-186 | What a tip vouches for is the end of the file, back to the last bare row or to the start when there is none |
| `HashChain.EqualTipsEqualChains` | service/src/proposals.rs:299-315 | With no collision on their own lines, two fully chained files with equal tips are identical, length included |
| `HashChain.ChainedFile.Open` | service/src/proposals.rs:208-266 | Opening any file, linked or not, sets the tip to the hash of the last row on disk |
| `HashChain.ChainedFile.Append` | service/src/proposals.rs:299-315 | A clocked append links to the exact bytes of the row before and advances the tip; a legacy append writes a bare row and leaves the tip; either way a linked file stays linked |
| `Proposals.WorkflowProposalStore.Open` | service/src/proposals.rs:188-274 | Opening either session kind over any files rebuilds memory, counters and both tips, and refuses exactly the event files whose replay refuses |
| `Proposals.WorkflowProposalStore.Create` | service/src/proposals.rs:335-376 | Memory, appended row and reply of a creation; ids minted from the draft and the ordinal |
| `Identifiers.ProposalIdsTellApart` | service/src/proposals.rs:337-344 | Unless the short hash collides, two proposal ids are the same exactly when proposer, capability, title, goal and ordinal are |
| `Proposals.WorkflowProposalStore.Decide` | service/src/proposals.rs:387-430 | Memory, appended row and reply of a decision, every refusal leaving file and memory alone |
| `Proposals.WorkflowProposalStore.Materialize` | service/src/proposals.rs:432-454 | An approved proposal that is not yet materialized is materialized with one row; any other known proposal is returned as it is without a row, and an unknown id gives None |
| `Proposals.WorkflowProposalStore.Audit` | service/src/proposals.rs:320-333 | Audit rows are numbered by line and chained independently of the events |
| `Proposals.WorkflowProposalStore.ApprovedFor` | service/src/proposals.rs:483-497 | Exactly the approved and materialized proposals of the capability and snapshot, each once, oldest first |
| `Proposals.CollectShown` | service/src/proposals.rs:483-497 | The filter over the proposal table, as a set and without repeats |
| `Proposals.CreateConsistent` | service/src/proposals.rs:335-376 | Creation keeps proposals, ordinals and rows in agreement |
| `Proposals.DecideConsistent` | service/src/proposals.rs:387-430 | A decision keeps proposals, ordinals and rows in agreement |
| `Proposals.MaterializeConsistent` | service/src/proposals.rs:432-454 | Materialization keeps proposals, ordinals and rows in agreement, one row a proposal |
| `Proposals.MaterializedAfterApproval` | service/src/proposals.rs:432-454 | A materialization row is the only one of its proposal and stands after an approving decision row |
| `ProposalRuns.RunKeeps` | service/src/proposals.rs:188-454 | Every state of every run with sessions of either kind, reopens and crashes is consistent with its event file, and both files are linked, numbered and in step with their tips |
| `ProposalRuns.CrashIsAtomic` | service/src/proposals.rs:364-452 | A crash after the append is the whole operation once reopened |
| `ProposalRuns.ClockedRunsFullyChain` | service/src/proposals.rs:299-315 | Runs whose sessions all have a clock leave fully chained event and audit files |
| `ProposalRuns.OneTipOneHistory` | service/src/proposals.rs:299-315 | Without a hash collision on their rows, two such clocked runs that end with one tip have one history |
| `ProposalRuns.OneTipOneTailOverRuns` | service/src/proposals.rs:299-315 | Two runs with sessions of both kinds that end in clocked sessions hold one tip if and only if their files agree back to the last bare row |
| `ProposalRuns.AuditTipsVouchToo` | service/src/proposals.rs:320-333 | Two runs that end in clocked sessions hold one audit tip if and only if their audit files agree back to the last bare row |
| `ProposalRuns.LifecycleOverRuns` | service/src/proposals.rs:387-454 | In every run a proposal is decided at most once and materialized at most once, and only after approval |
| `ProposalHistory.ProposalsHoldTheirDrafts` | service/src/proposals.rs:335-376 | Over every run a proposal is stored exactly when an earlier operation drafted it, and holds that draft and its line whatever came after |
| `ProposalHistory.PendingUntilDecided` | service/src/proposals.rs:387-430 | Over every run a proposal is pending exactly until an operation decides it, which takes a pending proposal, its own snapshot and an outcome |
| `ProposalHistory.CarriesItsDecision` | service/src/proposals.rs:387-430 | From then on it carries that decision: status, actor and line |
| `ProposalHistory.MaterializedByAnOperation` | service/src/proposals.rs:432-454 | Over every run a proposal is materialized exactly when an operation found it approved and not yet real |
| `ProposalHistory.RealExactlyWhenApprovedAndMade` | service/src/proposals.rs:432-497 | No proposal is made real twice, and those that are real are exactly those an operation made so |
| `Redaction.RedactBoxesFor` | service/src/proposals.rs:690-732 | Boxes as one viewer sees them: prose and counts always, an anchor in full only when its document is in the viewer's scope |
| `Redaction.ViewsTellExactly` | service/src/proposals.rs:690-732 | A view carries the box's own prose, each anchor in scope in full with the title the catalogue has, nothing at all of any other, and the numbers of both |
| `Redaction.RedactionTellsOnlyTheScope` | service/src/proposals.rs:690-732 | Two stores render alike for a viewer if and only if they differ in nothing but withheld anchors and titles of documents outside the viewer's scope |
| `CompilerSemantics.ScanRules` | compiler/src/semantics.rs:302-352 | The three lists of the scan in rule order, grants, met conditions and failures, and a flag that is set exactly when nothing failed |
| `CompilerSemantics.EvaluateRules` | compiler/src/semantics.rs:302-366 | The verdict over those lists, special-category conditions included |
| `OracleSemantics.EvaluatePerson` | synth/acl.py:60-107 | The oracle's person verdict from its matched, passed and failed lists, an unknown rule kind counting as failed |
| `OracleSemantics.EvaluateAgentGrant` | synth/acl.py:110-153 | The oracle's agent-grant verdict from its lists, an unknown rule kind counting as failed |
| `AccessReasons.PersonAllowedExactly` | compiler/src/semantics.rs:200-366 | The compiler allows a person exactly for a public document, their own HR record, or a rule that opens the document while every constraint is met and a special-category document is read by HR or its subject |
| `AccessReasons.PersonReasonsExactly` | compiler/src/semantics.rs:200-366 | The reasons of an allowed person are the opening rules, the met constraints, the special-category reason and being the subject, whichever hold and no others |
| `AccessReasons.AgentReasonsExactly` | compiler/src/semantics.rs:247-276 | The reasons of an allowed agent are those of its own grant and the intersection with its owner, never the owner's |
| `AccessReasons.AgentDenialsNameTheSide` | compiler/src/semantics.rs:247-289 | A denied agent is told of its own grant exactly when that denies, and of its owner exactly when that denies |
| `AccessReasons.OraclePersonExactly` | synth/acl.py:60-107 | The oracle allows a person who is not the subject exactly when a rule opens the document, every constraint is met and a special-category document has an HR reader, for the reasons that hold and no others |
| `AccessReasons.OracleGrantExactly` | synth/acl.py:110-153 | The oracle's word on an agent's own grant in the same terms, where role rules open nothing |
| `AccessReasons.OracleAgentExactly` | synth/oracle.py:25-54 | The oracle allows an agent exactly when its own grant and its owner are allowed, for the reasons of both |
| `Agreement.UnknownKindsFailClosed` | synth/acl.py:92-98 | To the oracle a rule of unknown kind closes a document to every person and agent but its own subject |
| `Agreement.CoherentAgree` | compiler/src/semantics.rs:200-366 | For a coherent document of any valid company, compiler and oracle give every known person and agent the same verdict |
| `Agreement.AgreementIsCoherence` | synth/oracle.py:25-54 | The two implementations agree for every company and every principal exactly on the coherent documents: public ones with a public rule and no constraint, others with no subject, or HR records, or open to everyone |
| `Agreement.IncoherentPublic` | synth/acl.py:110-153 | A public document its own rules do not open is a disagreement for an agent with an empty grant |
| `Agreement.IncoherentSubject` | synth/acl.py:60-107 | A document about a person that is neither an HR record nor open to everyone is a disagreement for its own subject |
| `Agreement.GeneratedDocumentsAgree` | compiler/src/semantics.rs:200-376 | Under the two hypotheses the fixtures are generated under, compiler and oracle give every known principal of a valid company one verdict, an unknown one is denied by the compiler and refused by the oracle, and no decision comes without reasons |
| `Supersedes.WalkReturns` | compiler/src/semantics.rs:738-746 | One walk along successors stops, and reports a return exactly when it never reaches an end |
| `Supersedes.CheckCycles` | compiler/src/semantics.rs:728-747 | The validator reports an error exactly when the successor map has a cycle |
| `Supersedes.EffectiveSuccessor` | compiler/src/semantics.rs:180-186 | Without cycles the chain walk terminates at a document nothing supersedes |
| `Supersedes.NothingPastTheEnd` | compiler/src/semantics.rs:180-186 | A walk that has reached a document nothing supersedes goes no further |
| `Supersedes.NoClaimIsLost` | compiler/src/semantics.rs:120-123 | Over unique ids without fan-in the successor map holds every supersedes claim |
| `Supersedes.WalkLeadsBack` | compiler/src/semantics.rs:180-186 | Following supersedes back from the end of a walk returns to its start |
| `Supersedes.ValidateSupersedes` | compiler/src/semantics.rs:650-747 | The validator finds no fault exactly when ids are unique, every claim names another document, no document is superseded twice, and the successor map has no cycle |
| `Supersedes.OrderDoesNotMatter` | compiler/src/semantics.rs:83-123 | Without fan-in the successor map of the sorted documents is the one that was validated |
| `Supersedes.Build` | compiler/src/semantics.rs:76-123 | A world is built exactly from clean documents, with their successor map |
| `Supersedes.EffectiveSuccessorOfValidated` | compiler/src/semantics.rs:180-186 | In a world that was built the effective successor exists exactly for documents somebody supersedes, is a document that nothing supersedes, and leads back along supersedes to where the walk began |
| `Fusion.Fuse` | retrieval/src/fuse.rs:29-42 | The nested loops and the sort compute the fused ranking |
| `Fusion.AddSource` | retrieval/src/fuse.rs:31-36 | One source's loop adds each document's share into the score table |
| `Fusion.FusedIsFusion` | retrieval/src/fuse.rs:29-42 | The fused ranking lists the union of the sources exactly once, by score descending then id |
| `Fusion.FusedScoresDescend` | retrieval/src/search.rs:551-561 | The recomputed fused scores never increase |
| `Fusion.FusionIgnoresSourceOrder` | retrieval/src/fuse.rs:29-42 | Reordering the sources changes nothing |
| `Fusion.Dominance` | retrieval/src/fuse.rs:29-42 | A document that precedes another in every source ranking the other precedes it in the fusion |
| `Fusion.SingleSourceUnchanged` | retrieval/src/fuse.rs:29-42 | A single source without repeats comes back unchanged |
| `TopK.BestOfParts` | retrieval/src/search.rs:458-471 | The best k of a whole are the best k of the best k of its parts |
| `TopK.BestIsBest` | retrieval/src/search.rs:697-747 | A best-k list is sorted, full if it can be, and leaves out nothing that comes earlier |
| `Judging.ApplyJudge` | retrieval/src/search.rs:606-640 | The discard, take and complete loops over the judge's answer, and the number of foreign ids |
| `Judging.JudgeOnlyPermutesHead` | retrieval/src/search.rs:606-640 | For any judge output the ranking is a permutation of the fused one with everything past the window untouched |
| `Judging.JudgeOrderIsHonoured` | retrieval/src/search.rs:606-640 | Within the window mentioned ids come first in first-mention order and the rest keep their fused order |
| `Search.RankingIsServeable` | retrieval/src/search.rs:419-535 | Every id of every source ranking, of the fused and of the final ranking is in the allowlist and serveable |
| `Search.ResultsAreGoverned` | retrieval/src/search.rs:643-690 | Results are in scope with their own reasons, ranked from one, never superseded unless asked for, and name a successor only if it is in scope |
| `Search.MergeIsFlat` | retrieval/src/search.rs:458-471 | Merging per-partition top-k lists is taking the top k of all partitions at once |
| `Search.LexicalRefinesFlat` | retrieval/src/search.rs:422-470 | A lexical query through partitions, merge, fusion and cut returns exactly the k best serveable matches of the whole corpus |
| `Search.FlatIsBest` | retrieval/src/search.rs:697-747 | Any serveable match left out of those comes no earlier than any served one, and k are served |
| `SearchOrder.VectorSourceIsOrdered` | retrieval/src/search.rs:508-530 | With a live embedder there is a second source, of serveable documents only, by cosine descending and then id |
| `SearchOrder.VectorSourceCovers` | retrieval/src/search.rs:508-530 | Every serveable id is in it, or fifty serveable ids of its own partition come no later by cosine descending and then id |
| `SearchOrder.MostSimilarAreServed` | retrieval/src/search.rs:473-747 | When no serveable document matches lexically, a hybrid query without a judge serves the k most similar serveable documents of the whole corpus, most similar first, and leaves out nothing that comes before one served |
| `SearchOrder.BestMatchesAreServed` | retrieval/src/search.rs:422-471 | A lexical query serves the k best-scored serveable matches of the whole corpus, best first, and leaves out nothing that comes before one served |
| `SearchOrder.FusedByPlaces` | retrieval/src/fuse.rs:29-42 | The fused ranking goes by the sum of one share for each source that lists the id, one over sixty-one plus the number of ids before it there, and then by id |
| `SearchOrder.JudgeIsHeardExactly` | retrieval/src/search.rs:563-641 | The judge's order is applied exactly when one is configured and answers, enough documents are fused and the race at the top is close, and it names a document it was shown |
| `SearchOrder.RefusedExactly` | retrieval/src/search.rs:373-418 | A query is refused exactly for a length outside 1 to 50, an artifact of another corpus, or vectors it needs and the engine lacks |
| `SearchOrder.RankedIsInCorpus` | retrieval/src/search.rs:419-535 | Whatever is ranked is a serveable member of some partition |
| `SearchOrder.ResultsSpeakForThemselves` | retrieval/src/search.rs:643-695 | Each result carries its own place, reasons and state, and its successor exactly when it is superseded and the successor is in scope; the envelope says whose scope, which snapshot and index, and whether vectors took part |
| `SearchOrder.TraceTellsTheAnswer` | retrieval/src/search.rs:433-675 | The trace lists as opened exactly the classes with something serveable, and its last stage is what is served |
| `Indexing.GroupByClass` | retrieval/src/index.rs:168-180 | The scan of the corpus groups ids by class, or refuses the first document with an empty field or a repeated id |
| `Indexing.BuildIndex` | retrieval/src/index.rs:168-225 | Each class gets the sorted ids of its documents; a corpus is refused exactly for an empty field or a repeated id, and for the first document that has one |
| `Indexing.PartitionsHoldTheirClass` | retrieval/src/index.rs:194-225 | Five partitions in class order, each sorted, each holding the ids of its class and no others |
| `Indexing.SplitConserves` | retrieval/src/index.rs:194-225 | The partitions together hold exactly the corpus's ids, each as often as the corpus does |
| `Indexing.BuiltLexicalRefinesFlat` | retrieval/src/search.rs:334-470 | Over any built index a lexical query returns exactly the k best serveable matches of the whole corpus |
| `Search.FailedEmbeddingIsLexical` | retrieval/src/search.rs:473-538 | A hybrid query whose embedder fails, or without tokens, is answered with the lexical envelope |
| `Search.UnusedJudgeChangesNothing` | retrieval/src/search.rs:563-641 | A judge that is elided, fails, or names no candidate leaves the answer as if there were none |
| `Search.OpenPartitions` | retrieval/src/search.rs:433-456 | Only partitions with something serveable are opened, in order, each with its restriction stage |
| `Search.RankSource` | retrieval/src/search.rs:458-471 | Pushing each open partition's hits and sorting once gives the source's ranking, with the stages of every partition in order |
| `Search.RankSources` | retrieval/src/search.rs:433-538 | Both sources over the open partitions, the vector one only when the embedder answers; a query is degraded exactly when it has tokens and the embedder failed |
| `Search.AskJudge` | retrieval/src/search.rs:563-641 | The judge's turn: elided, failed, or spliced, with the number of foreign ids and the stages it leaves |
| `Search.Search` | retrieval/src/search.rs:373-695 | The whole search answers as specified, its trace holds exactly the specified stages in order from the sorted serveable allowlist to the results, and a refusal leaves no trace |
| `Search.TraceStaysInScope` | retrieval/src/search.rs:419-675 | Every id that any stage of any query records is in the allowlist |
| `LaneBoxes.BoxStore.Open` | service/src/lane.rs:590-620 | Opening rebuilds the box memory as the replay of the file |
| `LaneBoxes.BoxStore.RecordStatus` | service/src/lane.rs:645-657 | One numbered change row and the matching memory change |
| `LaneBoxes.BoxStore.RecordAccepted` | service/src/lane.rs:659-669 | One numbered acceptance row, its ordinal stamped on the record |
| `LaneBoxes.LaneService.StatusChange` | service/src/lane.rs:918-1008 | A whole call writes the audit row and then the change row, or refuses and writes nothing, with all the source's refusals in order; it keeps every box's history legal |
| `LaneOwnership.AppliedExactly` | service/src/lane.rs:918-1008 | A change is applied exactly when graph and stores are there, the box is the actor's first seed of that id and open, or else a box accepted for the actor with no citation withdrawn for them, and the move is one of the three legal ones from the status the box has |
| `LaneOwnership.RefusedFor` | service/src/lane.rs:918-1008 | Every refusal has its own reason: no graph, or a box that is not the actor's; a status nobody sets; no stores; a blocked or withdrawn box; an illegal move |
| `LaneOwnership.EveryChangeWasPermitted` | service/src/lane.rs:918-1008 | Every change row of a run is of a change that an earlier check of that person's own open box had permitted |
| `LaneOwnership.RowsBearTheAcceptor` | service/src/lane.rs:671-679 | A change row of a box that is not the person's seed bears the principal the box was accepted for |
| `LaneOwnership.WithdrawnIsGone` | service/src/lane.rs:671-679 | A citation is withdrawn exactly when the person's entry for the document is superseded and its successor missing or outside their scope |
| `LaneBoxes.LegalPathsAreFour` | service/src/lane.rs:905-913 | The transition law leaves four lives: untouched, active, active then done, dismissed |
| `LaneBoxes.ReplayIsTheLiveState` | service/src/lane.rs:590-669 | In every run with interleaved calls and crashes the memory is the replay of the file and every row's ordinal is its line |
| `LaneBoxes.CrashIsAtomic` | service/src/lane.rs:622-669 | A crash is the interrupted operation followed by losing the calls in flight |
| `LaneBoxes.AuditedFirst` | service/src/lane.rs:986-993 | At no point of any run do a person's change rows of a box outnumber their audit rows for it |
| `LaneBoxes.LawfulIffUndisturbed` | service/src/lane.rs:979-993 | Boxes follow only legal transitions exactly in the runs where each change row finds its box at the status its check had read |
| `LaneBoxes.LawfulIffNotOvertaken` | service/src/lane.rs:918-1008 | The same law by the schedule alone: every box leads a lawful life exactly when no change row of a box was written between the check of a call on it and that call's own change row |
| `LaneBoxes.SerialRunsAreLawful` | service/src/lane.rs:905-1008 | When calls on one box do not overlap, every box leads one of the four lives |
| `LaneBoxes.OverlapBreaksTheLaw` | service/src/lane.rs:979-993 | Two overlapping calls on one box can start it and then dismiss it |
| `LaneSeeds.FindCandidates` | service/src/lane.rs:342-371 | The department's capabilities with visible evidence, best covered first, at most eight; fails exactly on a mapped document the corpus lacks |
| `LaneSeeds.GatherEvidence` | service/src/lane.rs:385-418 | Evidence rows and the blocked flag of one box, as the derivation specifies them |
| `LaneSeeds.Join` | service/src/lane.rs:453-493 | Every box gets the boxes of the previous and the next workflow of its initiative's sequence |
| `LaneSeeds.SeedsForHuman` | service/src/lane.rs:316-495 | The whole derivation: candidates, boxes, join, and when it fails |
| `LaneFacts.LaneTellsTheTruth` | service/src/lane.rs:316-495 | Of every lane derived and joined: each box cites exactly the documents of its capability that the person can see, in id order; a successor is cited exactly when its document is superseded and the successor is in the person's scope; a box is blocked exactly when some cited document is superseded without one; its ids name the rows it climbs by; and the boxes are the eight best-covered eligible capabilities in order |
| `LaneFacts.BlocksTheNext` | service/src/lane.rs:479-493 | A box blocks another exactly when that one stands at the next workflow of the same initiative |
| `LaneFacts.ListsHoldLaneIds` | service/src/lane.rs:453-493 | The two lists of a box hold ids of boxes of the lane and nothing else |
| `LaneFacts.FactsAreLast` | service/src/lane.rs:324-328 | What the artifact says of a document is its last entry |
| `Identifiers.BoxIdsTellApart` | service/src/lane.rs:419-428 | Unless the short hash collides, two box ids are the same exactly when person, capability and snapshot are |
| `LaneSeeds.CandidateFacts` | service/src/lane.rs:342-371 | A box is drawn only from the person's department, on evidence they can see |
| `LaneSeeds.CandidatesAreBest` | service/src/lane.rs:369-371 | An eligible capability left out comes no earlier than any that is in, and then there are eight |
| `LaneSeeds.LanesDerive` | service/src/lane.rs:316-451 | Over a validated graph every lane derives, with at most eight boxes |
| `LaneSeeds.BlocksIsTheConverse` | service/src/lane.rs:479-493 | Over a valid graph and distinct box ids, blocks is the converse of blocked_by |
| `LaneSeeds.BoxIdsDiffer` | service/src/lane.rs:419-428 | Over a valid graph a lane's box ids differ exactly when the truncated hash tells apart the at most eight distinct texts they are hashed from |
| `LaneSeeds.LaneListsAgree` | service/src/lane.rs:453-493 | In the lane every person is given, unless the truncated hash collides on its own at most eight texts, one box lists another as blocked exactly when that one lists it as blocking |
| `LaneSeeds.BlocksIsAcyclic` | service/src/lane.rs:479-493 | Along any walk of blocks the place in the initiative grows by one a step, so nothing blocks itself |
| `Brm.UniqueIds` | service/src/atlas.rs:92-100 | Accepts exactly the id lists without repeats |
| `Brm.CheckPartition` | service/src/atlas.rs:105-133 | Accepts exactly the levels whose children are split among the parents as the children record |
| `Brm.ValidateBrm` | service/src/atlas.rs:138-202 | Start-up accepts exactly the valid graphs |
| `BrmFacts.AcceptedExactly` | service/src/atlas.rs:138-202 | A graph is accepted exactly when no level repeats an id, each level lists only rows that record the lister, every row is listed, nothing is listed at two places, and each capability maps existing documents, each once |
| `BrmFacts.PartitionExactly` | service/src/atlas.rs:105-133 | A level passes the partition check exactly when its child lists and its parent fields are inverse, place by place |
| `Brm.ChildListsInvertParents` | service/src/atlas.rs:138-202 | On each level of a valid graph child lists are exactly the inverse of the parent fields, and every child has a parent row |
| `Brm.ClaimsAreTheRows` | service/src/atlas.rs:105-133 | What a level claims is exactly the rows below, each once |
| `Brm.ForestOverTheStrategies` | service/src/atlas.rs:138-202 | Every capability of a valid graph climbs to a strategy by existing rows that list each other |
| `Atlas.BuildStructure` | service/src/atlas.rs:290-403 | The nested loops build the specified body, or stop at the first missing row |
| `Atlas.BuildDocs` | service/src/atlas.rs:341-377 | The innermost loop: documents by id, those in the allowlist only |
| `Atlas.BodyIsStrategies` | service/src/atlas.rs:290-403 | Over a validated graph and a viewer's own artifact the build never bails |
| `Atlas.EverythingOnce` | service/src/atlas.rs:290-403 | The body holds every strategy, initiative, workflow and capability exactly once |
| `Atlas.EvidenceIsGoverned` | service/src/atlas.rs:341-377 | Under each capability exactly its allowlisted documents, and no successor outside the allowlist |
| `AtlasFacts.BodyIsTheGraph` | service/src/atlas.rs:290-403 | Row by row the body is the graph: every strategy in id order, under each row its own name and the sorted children it lists, under a capability the documents the viewer may see, in id order, each with the title and sensitivity of the corpus and the state and in-scope successor of the artifact |
| `Atlas.StructureIsTheSameForEverybody` | service/src/atlas.rs:310-403 | Any two viewers' bodies differ in nothing but the capabilities' documents |
| `Estate.Build` | service/src/estate.rs:371-408 | The documents table keeps the last entry of an id; postings hold every token any entry of an id ever had, as sorted lists without repeats |
| `Estate.Retrieve` | service/src/estate.rs:420-468 | Over a well-formed index the result is the first k of the one ranking of authorised matches |
| `Estate.BuildAndRetrieve` | service/src/estate.rs:371-468 | Building then retrieving shows the first k of the naive scan, each document by its current entry |
| `Estate.BuiltIsWellFormed` | service/src/estate.rs:371-408 | A built index is well formed even with stale postings |
| `Estate.IndexIsTheNaiveScan` | service/src/estate.rs:420-468 | The only ranking of an index's matches is the naive authorised scan of the entries, repeated ids included |
| `EstateOrder.AnswersAreTheBest` | service/src/estate.rs:371-468 | An answer shows current, readable entries that share a token with the query, each once and as it stands, more shared tokens first and then by id; one left out comes no earlier than any of k shown |
| `EstateOrder.AgentsSeeTheirTier` | service/src/estate.rs:292-468 | A matching current entry is shown to a principal only if they are a known agent and its sensitivity is known and at or below their tier, and always then unless k others fill the answer |
| `Ordering.StringLeExactly` | service/src/estate.rs:465-465 | The order of ids: a string comes no later when it is a prefix or smaller where the two first differ |
| `Estate.HiddenDocumentsDoNotMatter` | service/src/estate.rs:420-468 | Deleting all unauthorised entries changes no shown answer, for any query and length, exactly when no hidden current entry covers a readable older one with words in it |
| `Estate.DistinctIdsHideNothing` | service/src/estate.rs:420-468 | Over distinct ids deleting all unauthorised entries never changes a shown answer |
| `Estate.ResultsAreWithinTier` | service/src/estate.rs:292-300 | Shown documents have a known sensitivity at or below the tier of a known agent |
| `Generation.ParseClaims` | service/src/generate.rs:100-149 | The claim parser's loop accepts what the grammar accepts and refuses with its first fault |
| `Generation.ParseBoxes` | service/src/generate.rs:179-250 | The box parser's loop accepts what its grammar accepts and refuses with its first fault |
| `StrictParsing.ClaimsAcceptedExactly` | service/src/generate.rs:100-149 | A text is accepted as these claims exactly when there are one to six and its lines are, in this order, their three tagged lines each, with white lines between and nothing else; a quote is whatever stands between the first and the last double quote of its line, and an open one is refused |
| `StrictParsing.BoxesAcceptedExactly` | service/src/generate.rs:179-250 | A text is accepted as these boxes exactly when there are one to eight and its lines are their four tagged lines each, titles of at most eighty characters, no brackets in title or description, white lines between and nothing else |
| `StrictParsing.LinesAreThePieces` | service/src/generate.rs:102-102 | The lines of a text are the pieces between its newlines without the carriage returns at their ends |
| `StrictParsing.TrimExactly` | service/src/generate.rs:100-149 | Trimming gives the one text that stands between white space and neither starts nor ends with any |
| `Generation.ParsedClaimsAreWellFormed` | service/src/generate.rs:100-149 | What is accepted is one to six well-formed claims |
| `Generation.ParsedBoxesAreWellFormed` | service/src/generate.rs:179-250 | What is accepted is one to eight well-formed boxes |
| `Generation.ParsingClaimsNormalises` | service/src/generate.rs:453-455 | Printing what any accepted text parsed to and parsing again gives the same claims |
| `Generation.ParsingBoxesNormalises` | service/src/generate.rs:457-459 | Printing what any accepted text parsed to and parsing again gives the same boxes |
| `Generation.ClaimsSurviveExactlyWhenWellFormed` | service/src/generate.rs:100-149 | A list of claims survives printing and parsing exactly when it is a list the parser can produce |
| `Generation.BoxesSurviveExactlyWhenWellFormed` | service/src/generate.rs:179-250 | A list of boxes survives printing and parsing exactly when it is a list the parser can produce, bracket and length rules included |
| `Grounding.AdmittedExactly` | service/src/grounding.rs:73-118 | A claim is admitted exactly when its text has no bracket, it cites a sealed document, its trimmed quote is non-empty and occurs there, and the verifier supports it |
| `Grounding.AnchorIsTheFirstPlace` | service/src/grounding.rs:100-116 | The locator names the cited document and the one smallest byte offset at which the trimmed quote occurs in its body |
| `Grounding.GroundAll` | service/src/answer.rs:535-550 | What is kept is, in order, each draft claim that passes the five tests, with an anchor to the first byte offset of its trimmed quote; the rest are counted |
| `Grounding.KeptIsWhatPasses` | service/src/answer.rs:535-550 | Grounding keeps exactly the claims that pass, claim by claim with document, text and the locator of the first place of the quote |
| `Answering.ValidateCitations` | service/src/answer.rs:733-759 | The bracket scan returns the bracketed segments once each in order, refuses a foreign one, and refuses none at all |
| `Answering.SecondLockAgrees` | service/src/answer.rs:558-592 | For any non-empty list of admitted claims the gate accepts the composed text with exactly the cited ids in first-appearance order if and only if no cited id contains a closing bracket |
| `Answering.ClosingBracketMiscites` | service/src/answer.rs:739-754 | An admitted claim whose id holds a closing bracket is credited to the sealed document named by the part before the bracket |
| `Answering.AnswerFrom` | service/src/answer.rs:519-599 | The claims that pass the five tests, and no others, are shown, each with its document, its text and the locator of the first place of its quote, in order of document, locator and text; the others are counted. There is an answer exactly when some claim passes and the gate accepts the composed text, and over ids without a closing bracket as soon as some claim passes |
| `Answering.PassingMeansAnswered` | service/src/answer.rs:558-592 | Over sealed ids without a closing bracket the gate accepts the text composed of the draft claims that pass, with exactly the ids they cite |
| `Answering.ComposedText` | service/src/answer.rs:558-566 | The composed text is each claim's text and bracketed id, in order, one blank apart and nothing else |
| `Answering.GateReadsOnward` | service/src/answer.rs:733-759 | The gate reads the first bracket pair and then the text after it: a foreign id refuses the text, a sealed one is added to what the rest cites |
| `Answering.UncitedIsRefused` | service/src/answer.rs:733-759 | A text without a closed bracket pair is refused as uncited |
| `Mosaic.ApplyBound` | service/src/answer.rs:445-484 | The removal loop over the pairs, the flag and the sealed head |
| `Mosaic.PairByPair` | service/src/answer.rs:455-464 | The pairs act one after the other on what the ones before left: if both documents are there, the later one goes and nothing else, otherwise nothing changes |
| `Mosaic.NoPairSurvives` | service/src/answer.rs:455-464 | Survivors keep rank order, account with the removed for every result, and hold no tagged pair together |
| `Mosaic.SealedHoldsNoPair` | service/src/answer.rs:467-471 | The sealed context, the head of the survivors, holds no tagged pair together |
| `Mosaic.BoundedMeansTogether` | service/src/answer.rs:465-465 | The bound is reported exactly when some pair co-appeared in the results |
| `Mosaic.TopStays` | service/src/answer.rs:455-464 | The top result stays exactly when it is not tagged as a pair with itself |
| `Mosaic.RemovedForAPartner` | service/src/answer.rs:458-463 | With distinct pair members every document left out has a tagged partner ranked above it |
| `Civil.CivilIsTheCalendar` | service/src/export.rs:93-104 | Every day number, negative ones included, gives a valid proleptic Gregorian date, and the next number the calendar's next day |
| `Civil.EpochIsDayZero` | service/src/export.rs:93-104 | Day zero is 1 January 1970 |
| `Civil.DaysComeBack` | service/src/export.rs:93-104 | Counting the days back from the date gives the day number |
| `Civil.DatesComeBack` | service/src/clock.rs:83-94 | Converting the count of any valid date gives the date |
| `Civil.ConversionKeepsOrder` | service/src/clock.rs:83-94 | Later days have later dates |
| `Timestamps.ClockAgreesWithExport` | service/src/clock.rs:76-95 | The clock's signed conversion and the exporter's agree on every day |
| `Timestamps.StampsAgree` | service/src/export.rs:106-112 | The clock's string is the exporter's for the same second, with the milliseconds before the final Z |
| `Timestamps.StampReadsBack` | service/src/clock.rs:67-72 | Through the year 9999 the clock's string is twenty-four characters, the seven numbers read at their places are a valid date and time, and the time they spell is the one formatted |
| `Timestamps.StampsSort` | service/src/clock.rs:67-72 | Through the year 9999 an earlier moment has the smaller string |
| `Timestamps.StampsSortThrough9999` | service/src/clock.rs:67-72 | The strings of all moments before a limit sort in time order exactly when the limit stays within year 9999 |
| `Timestamps.OrderBreaksAt10000` | service/src/clock.rs:71-71 | The first moment of the year 10000 sorts before the one it follows |
| `Timestamps.ExportsSort` | service/src/export.rs:93-112 | From the year -1 through the year 9999 an earlier second has the smaller exported string |
| `Timestamps.ExportsSortExactly` | service/src/export.rs:107-112 | Over any stretch of seconds that holds the epoch the exported strings sort in time order exactly when it stays within the years -1 to 9999 |
| `RateLimit.AtMostTwiceTheCap` | service/src/ratelimit.rs:51-63 | With every counted reading at most as far behind an earlier one as the limiter bears, no half-open interval one window long admits more than twice the cap, over any run; readings may be counted out of order because the clock is read before the lock is taken |
| `RateLimit.BoundHoldsExactlyWhenBorne` | service/src/ratelimit.rs:51-63 | For every cap, positive window and lag: the bound holds over all runs with readings at most that far behind if and only if the lag is at most one second, or the cap is at most one, or the cap is two and the lag at most a window and one second (for the process-wide limiter then only with a window of one second) |
| `RateLimit.OneSecondIsTheLimit` | service/src/ratelimit.rs:17-68 | For every cap of three or more, the source's own two among them, the bound holds over all runs if and only if no reading is counted more than one second behind an earlier one |
| `RateLimit.LateReadingsBreakTheBound` | service/src/ratelimit.rs:99-115 | With the proposal cap of three and a window of ten seconds, readings two seconds behind let seven attempts through in one window |
| `RateLimit.EveryPrincipalStaysWithinTwice` | service/src/ratelimit.rs:99-115 | Each principal stays within twice the cap while the readings of all of them lag no further than borne |
| `RateLimit.TwiceTheCapIsReached` | service/src/ratelimit.rs:51-63 | The bound is attained, with readings in order, for every cap and every window above one second |
| `RateLimit.ZeroWindowNeverLimits` | service/src/ratelimit.rs:51-63 | A limiter refuses no attempt of any run exactly when its cap is positive and its window has no length |
| `RateLimit.RefusedExactly` | service/src/ratelimit.rs:51-63 | Every attempt of a run falls into the standing window, or opens one when its reading is a window past the start, and is refused exactly when a cap's worth of attempts fell into its window before it |
| `RateLimit.PrincipalsAreIndependent` | service/src/ratelimit.rs:99-115 | A principal's window is what their own attempts alone make of it |
| `RateLimit.OutcomeIsOnesOwn` | service/src/ratelimit.rs:99-115 | An attempt's outcome is the one its principal's own attempts alone give |
| `RateLimit.RateLimiter.Check` | service/src/ratelimit.rs:51-63 | One attempt's outcome and window, as the run of all attempts so far gives them |
| `RateLimit.PrincipalRateLimiter.Check` | service/src/ratelimit.rs:99-115 | One attempt's outcome as the principal's own attempts so far give it, leaving every other principal's window alone |
| `Cache.AnswerCache.Get` | service/src/cache.rs:49-58 | A hit returns the last-put bytes of a recent key and is a touch; a miss changes nothing |
| `Cache.AnswerCache.Put` | service/src/cache.rs:60-74 | The cache again holds exactly the 256 most recently touched keys with their last-put bytes, map and order agreeing |
| `Cache.Evict` | service/src/cache.rs:68-73 | Dropping from the front leaves exactly the recent keys |
| `Cache.RecentMeansFewSince` | service/src/cache.rs:49-74 | A touched key is held exactly when fewer than 256 other keys were touched after it |
| `Cards.EscapeIsEncoding` | demo-reel/src/cards.ts:27-34 | The five replacements write every special character as its token and nothing else |
| `Cards.UnescapeUndoesEscape` | demo-reel/src/cards.ts:36-43 | Unescaping undoes escaping for every string |
| `Cards.PayloadsComeBack` | demo-reel/src/cards.ts:104-107 | Every audit and footer card's payload comes back exactly when the page head does not hold the payload tag itself |
| `Cards.PlainFontsAreClean` | demo-reel/src/cards.ts:60-79 | Fonts and style without markup leave the head clean |
| `Cards.VendoredFontsRecover` | demo-reel/src/cards.ts:46-54 | With fonts as base64 data URLs every payload comes back byte for byte |

## Left out

- Files, HTTP, TCP, JSON, PDF rendering, thread locks and error texts: every refusal is a constructor instead.
- Torn writes: an append is atomic, as the stores assume.
- Status strings that no code path writes: statuses and targets are datatypes.
- The index's files, content hashes and manifest version.
- The BM25 library and the embedder: a partition search is taken to return the restriction's matches, best first,
  cut to k, and cosine scores are arbitrary reals.
- Floating point: scores, the judge's ratio and fusion shares are exact reals.
- Usage events of a trace, and the query hash and scope statement of an envelope.
- The audit rows that handlers outside the modelled stores write, and those handlers.
- The inbox of the lane: accepting a proposal is one step that adds an accepted box.
- The world hash check, names, dates and headings of documents, people and nodes beyond what a decision or an order
  looks at.
- Validation of companies and access rules other than the supersedes checks: what it guarantees is a hypothesis.
- The answer cache's transparency: its key uses the normalised query while a generator sees the raw one.
- Tokenising: an arbitrary function of the text.
- Integer widths: counters, ordinals, days and milliseconds are unbounded; the source's 64-bit values do not overflow
  at any date it can hold.
- Search.LexicalRefinesFlat: covers queries without a judge and without a live embedder; with them `SearchOrder` says
  how the second source is ordered, how places fuse and when the judge is heard.
- LaneBoxes.AuditedFirst: counts audit rows and change rows of the same person, box and status; rows carry those
  three as fields instead of one formatted text.
- LaneSeeds.BlocksIsTheConverse: needs distinct box ids; LaneSeeds.BoxIdsDiffer says when a lane has them.
- LaneSeeds.SeedsForHuman: places each box at its own capability's workflow; the source looks the workflow up by
  capability id, so over a graph that repeats a capability id, which validation refuses, all boxes of that id stand at
  the last such row's workflow.
- Cards.PayloadsComeBack: the constant style sheet is any text, and in Cards.PlainFontsAreClean any text without
  markup.
- Cards.VendoredFontsRecover: leaves out the capture of a card as an image.
