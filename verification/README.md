# Verified models of the agent control plane

Dafny models of the parts of the control plane that carry real invariants, with proofs about
every input, every run or every interleaving.

| part | files |
|---|---|
| instruction include loader | InstructionGraph, InstructionLoader |
| optimization candidates under human approval | Candidates (transactions and runs), CandidateLifecycle (what is promised), CandidateStore (tables updated in place) |
| signed delegation envelopes | Envelope (validity and signed text), SignedText (that text as JSON), Delegation (issue, consume, replay) |
| evidence-verifier child | Verifier (parsing and retries), TerminalRace (worker, deadline and cancellation) |
| capability selection | Phrases (string tests), Selector (index, judging, greedy choice), Scoring (what a score means) |
| sandbox runner | SandboxCapture (readers, execution flag), SandboxFrame (response frames) |
| provider values and statistics | PlainJson, SignTest, Kappa, Drift, DriftFigures, DriftReport |
| shared | Options, Numbers, Strings, Sorting |

`dafny verify dfyconfig.toml` checks the whole project. Where the program changes state in
place there is a class whose methods are proved equal to a step function, and the theorems are
about runs of that function.

What the models show that a reading of the code does not:

- The loader's depth check is about the chain by which a file is *first* met in depth-first
  order. Loading succeeds exactly under the four conditions of `Loadable`; "no chain is longer
  than the limit" is sufficient (`ShortChainsSuffice`) but not necessary.
- Purging nonces stays safe as long as the clock never falls more than the allowed skew behind
  an earlier reading; with one second more a replay goes through (`ReplayBeyondSkew`).
- `verify` can return a result that differs from the recorded one only if it answered before
  recording began (`AnswerIsTheRecord`, `EarlyAnswerMayDiffer`).
- Captured output counts as truncated exactly when at least `output_bytes` bytes were produced,
  also when nothing was lost because the output ended exactly at the limit.
- An unusable answer within budget is not always followed by another call although a retry is left. An
  integer confidence too large for a float, or JSON the decoder cannot take, escapes as an error that no
  retry clause catches, and the run ends as a provider error (`UnusableButNotRetried`); and an answer may
  leave too little budget for the next prompt (`UnaffordableNotRetried`). `RetriedExactlyWhen` says
  exactly when a call follows.
- A drift threshold of zero is legal, and then an evaluation warns when compared with itself;
  with positive thresholds no rule fires in both directions of one comparison.

## Model

| member | source | states |
|---|---|---|
| InstructionLoader.LoadProjectInstructions | backend/app/instructions/loaders.py:117-157 | succeeds if and only if the directory depth fits, the family is scannable and the include graph reached from the candidates is readable, acyclic, within file and byte limits and first met within the depth limit; then returns exactly the reached files; the roots are what each directory offers the family, an override before the normal file; otherwise the error names a defect that some include chain really has |
| InstructionLoader.LoadState.LoadFile | backend/app/instructions/loaders.py:224-281 | keeps the depth-first invariant on success, advancing past one request; a failure is justified by a concrete include chain; terminates because the unread part of the workspace shrinks |
| InstructionLoader.LoadState.LoadImports | backend/app/instructions/loaders.py:276-281 | following all include lines of the file on top of the stack finishes it, with every import finished before it |
| InstructionLoader.LoadState.Inspect | backend/app/instructions/loaders.py:231-249 | the checks in source order: each refusal is justified, a repeat is a finished file, and a fresh file is readable and fits both limits |
| InstructionLoader.SplitLines | backend/app/instructions/loaders.py:254-262 | separates include lines from body lines, both in order |
| InstructionLoader.JustifiedRefutesLoadable | backend/app/instructions/loaders.py:231-249 | no spurious failure: a project with any justified error does not meet the success condition |
| InstructionLoader.EndLoadable | backend/app/instructions/loaders.py:147-157 | when the walk is over, the files read are the reached files and all success conditions hold |
| InstructionLoader.EndAcyclic | backend/app/instructions/loaders.py:236-239 | a finished walk rules out every include cycle, not only those on its own stack |
| InstructionLoader.Descend | backend/app/instructions/loaders.py:276-281 | from a finished file, every chain of includes only meets files finished strictly earlier |
| InstructionLoader.LeftSeen | backend/app/instructions/loaders.py:236-239 | every chain before the current position in depth-first order leads to an active or finished file |
| InstructionLoader.FreshIsFirst | backend/app/instructions/loaders.py:238-239 | a file not yet seen is being met by its first chain, so its recorded depth and scope are those of that chain |
| InstructionLoader.PushKeeps | backend/app/instructions/loaders.py:251-275 | recording a new file keeps the invariant, including `total_bytes` equal to the sum of the sizes read |
| InstructionLoader.PopKeeps | backend/app/instructions/loaders.py:280-281 | leaving a finished file keeps the invariant |
| InstructionLoader.OneMoreJustified | backend/app/instructions/loaders.py:240-245 | refusing one more file on count or bytes means the reached set itself breaks that limit |
| InstructionLoader.CycleJustified | backend/app/instructions/loaders.py:236-237 | meeting an active file exhibits an include chain that passes through it twice |
| InstructionLoader.DepthJustified | backend/app/instructions/loaders.py:231-232 | the depth error means an including file is first met below the depth limit |
| InstructionLoader.LoadIsUnique | backend/app/instructions/loaders.py:147-157 | the workspace determines the result completely: files, order, scopes, overrides, depths and bodies |
| InstructionLoader.SourcesDistinct | backend/app/instructions/loaders.py:238-239 | each file appears once |
| InstructionLoader.DepthIsChainLength | backend/app/instructions/loaders.py:265-275 | every source's import depth is the length of a real include chain from a candidate of its scope, the first chain to reach it |
| InstructionLoader.IncluderComesFirst | backend/app/instructions/loaders.py:126-128 | an included source is listed after a source that includes it |
| InstructionLoader.ShortChainsSuffice | backend/app/instructions/loaders.py:231-232 | the depth condition holds whenever no include chain exceeds `max_import_depth` |
| InstructionLoader.CandidatesStep | backend/app/instructions/loaders.py:153-171 | directory by directory, the scan meets exactly the candidates of the project, in order |
| InstructionLoader.CandidatesAreRoots | backend/app/instructions/loaders.py:153-171 | the roots are, in directory order, just what each directory offers its family: an override before the normal file, and only the family's own files |
| InstructionLoader.RootsUnique | backend/app/instructions/loaders.py:153-171 | those offers determine the roots |
| InstructionLoader.OverrideShadows | backend/app/instructions/loaders.py:167-171 | erasing the normal file wherever an override stands beside it changes no root, hence no result |
| InstructionLoader.FamiliesIndependent | backend/app/instructions/loaders.py:160-171 | each family depends on its own files only |
| InstructionGraph.LinesAreSorted | backend/app/instructions/loaders.py:256-261 | include and body lines are told apart one by one, each kind keeping its order |
| InstructionGraph.BeforeTotal | backend/app/instructions/loaders.py:276-279 | of two different include chains one is always met before the other |
| InstructionGraph.TotalAdd | backend/app/instructions/loaders.py:251 | adding a new file raises the byte total by exactly its size |
| Candidates.GuardAdmits | backend/alembic/versions/20260828_14_drift_and_candidates.py:85-118 | every transaction leaves a row unchanged or makes an update the database triggers admit: evidence frozen, version plus one, a listed transition |
| Candidates.ApplyKeeps | backend/app/eval/candidates.py:152-550 | every transaction keeps the invariant tying rows, receipts and the event log together |
| Candidates.ApproveKeeps | backend/app/eval/candidates.py:368-462 | approval keeps it: the bound receipt is recorded and competing pending receipts are settled |
| Candidates.TransitionKeeps | backend/app/eval/candidates.py:464-550 | promote, reject and roll back keep it |
| Candidates.CreateKeeps | backend/app/eval/candidates.py:152-221 | creation keeps it and starts a history at version 1 |
| Candidates.RequestKeeps | backend/app/eval/candidates.py:255-294 | reserving a receipt keeps it: only a proposed candidate gets a pending one |
| Candidates.DecideKeeps | backend/app/security/approval_repository.py:526-567 | a human decision keeps it |
| Candidates.SettleKeeps | backend/app/security/approval_repository.py:569-612 | expiring and cancelling pending receipts keep it |
| Candidates.CancelledOrSettled | backend/app/eval/candidates.py:438-455 | cancelling the bound pending receipts leaves no pending promotion receipt of the candidate, and touches no decided one |
| Candidates.RunKeeps | backend/app/eval/candidates.py:152-550 | the invariant holds after every run of transactions |
| Candidates.StepCauses | backend/app/security/approval_repository.py:526-612 | a step changes a receipt only if it was pending and only for a cause: its user's decision before expiry, expiry, cancellation of its run, or approval or rejection of its candidate |
| Candidates.SettledBySomeStep | backend/app/security/approval_repository.py:526-612 | in every run a receipt that is not pending was settled by an accepted step with the cause of just that status: granted by a grant, denied by a denial |
| Candidates.DecisionRecorded | backend/app/security/approval_repository.py:526-567 | a decision is accepted exactly on a pending, unexpired receipt of the deciding user, and then records that decision and changes nothing else |
| Candidates.DecisionStands | backend/app/security/approval_repository.py:526-567 | an accepted decision stands for the rest of the run |
| Candidates.ReleasedOnlyWithConsent | backend/app/eval/candidates.py:394-437 | in every run an approved, promoted or rolled-back candidate holds a granted receipt, unexpired at approval, for exactly that owner, project, candidate, version and payload; its owner granted it by an accepted decision before the accepted approval, and no decision ever denied it |
| Candidates.ReceiptServesOne | backend/app/eval/candidates.py:124-137 | no receipt serves two candidates |
| Candidates.NothingPendingAfterProposal | backend/app/eval/candidates.py:438-455 | once a candidate has left proposed, none of its promotion receipts is pending |
| Candidates.LogTellsTheLife | backend/app/eval/candidates.py:552-575 | version equals event count, events carry versions 1..version, link state to state and end in the current state; version and state fit and never exceed 4 |
| Candidates.AtMostOneMove | backend/app/eval/candidates.py:486-503 | of all calls sharing an expected version, at most one ever moves the candidate |
| Candidates.RunGrows | backend/app/eval/candidates.py:552-575 | over any run the log only grows, versions never fall, rows never vanish and decided receipts never change |
| CandidateLifecycle.GrantedRequestRunsItsCourse | backend/app/eval/candidates.py:152-366 | from any database, a request granted and used before it expires carries a new candidate through approval, promotion and rollback: all six calls are accepted and leave exactly the row and the four events stated |
| CandidateLifecycle.CreateReplies | backend/app/eval/candidates.py:152-221 | creation is accepted exactly on accepted text, real evidence and a new id; every other reply is told and changes nothing |
| CandidateLifecycle.RequestReplies | backend/app/eval/candidates.py:255-294 | a request is accepted exactly for a candidate that is proposed at the caller's version, with a positive lifetime and a fresh receipt |
| CandidateLifecycle.ApproveReplies | backend/app/eval/candidates.py:378-431 | approval is accepted exactly with a granted, unexpired receipt for that owner, project, candidate, version and payload |
| CandidateLifecycle.PromoteReplies | backend/app/eval/candidates.py:313-324 | promotion is accepted exactly for a candidate approved at the caller's version |
| CandidateLifecycle.RejectReplies | backend/app/eval/candidates.py:326-345 | rejection is accepted exactly with a valid reason for a proposed or approved candidate at the caller's version |
| CandidateLifecycle.RollbackReplies | backend/app/eval/candidates.py:347-366 | rollback is accepted exactly with a valid reason for a promoted candidate at the caller's version |
| CandidateLifecycle.Approves | backend/app/eval/candidates.py:394-408 | an exact granted receipt is accepted if and only if it has not expired |
| CandidateLifecycle.Asks | backend/app/eval/candidates.py:255-294 | a request reserves the receipt with the candidate's payload and its expiry |
| CandidateLifecycle.Rejects | backend/app/eval/candidates.py:326-345 | a proposed or approved candidate can be rejected at its version, keeping the reason in the log |
| CandidateLifecycle.EveryCandidateBacked | backend/app/eval/candidates.py:152-221 | in every run each candidate rests on two different completed evaluations of its owner and project, and on their drift report if it names one |
| CandidateLifecycle.SettlingMeans | backend/app/security/approval_repository.py:569-612 | expiring settles every due pending receipt and no other, and cancelling a run those of its user and run |
| CandidateStore.Store.Create | backend/app/eval/candidates.py:152-221 | updates the tables exactly as the creation step says, with its error replies |
| CandidateStore.Store.RequestApproval | backend/app/eval/candidates.py:255-294 | reserves exactly the receipt of the step |
| CandidateStore.Store.Approve | backend/app/eval/candidates.py:368-462 | updates candidate, receipts and events exactly as the approval step says |
| CandidateStore.Store.Transition | backend/app/eval/candidates.py:464-550 | updates the three tables exactly as the transition step says |
| CandidateStore.Store.UpdateReceipts | backend/app/eval/candidates.py:438-455 | a row-by-row update in any order equals updating every row at once |
| CandidateStore.Store.WriteEvent | backend/app/eval/candidates.py:552-575 | appends one event that copies the updated row |
| CandidateStore.Store.Decide | backend/app/security/approval_repository.py:526-567 | decides exactly a pending, unexpired receipt of its user |
| CandidateStore.Store.ExpireDue | backend/app/security/approval_repository.py:569-588 | expires exactly the pending receipts that are due |
| CandidateStore.Store.CancelRun | backend/app/security/approval_repository.py:590-612 | cancels exactly the pending receipts of that user and run |
| Envelope.PayloadInjective | backend/app/delegation/envelope.py:109-113 | equal signed texts force every field and every budget entry to be equal |
| Envelope.BudgetTextInjective | backend/app/delegation/envelope.py:84-101 | two budget texts that begin the same text come from the same budget |
| Envelope.MembersPlain | backend/app/delegation/envelope.py:68-107 | validation keeps every field free of the character that ends it in the signed text |
| SignedText.PayloadIsCompactJson | backend/app/delegation/envelope.py:109-113 | the signed text is the compact JSON of the record, each key with its own field |
| SignedText.KeysOrdered | backend/app/delegation/envelope.py:113 | the keys of that record are in order, as sorting makes them |
| Delegation.NeverConsumedTwice | backend/app/delegation/envelope.py:186-223 | in any run whose clock never falls more than the allowed skew behind an earlier reading, no envelope is consumed twice, although receipts are purged by the same transaction |
| Delegation.ReplayBeyondSkew | backend/app/delegation/envelope.py:194-206 | the bound is exact: with one second more of clock drop there is a run that consumes an envelope twice |
| Delegation.StaysRemembered | backend/app/delegation/envelope.py:197-223 | the receipt of a consumed envelope survives until some later reading has outlived it |
| Delegation.NonceStore.VerifyAndConsume | backend/app/delegation/envelope.py:171-223 | changes the table exactly as the step says; a refused call leaves it unchanged |
| Delegation.IssuedIsConsumable | backend/app/delegation/envelope.py:144-223 | an issued envelope is consumed if and only if scope matches, the clock is in window and the nonce is unused or its receipt stale |
| Delegation.ConsumeMeans | backend/app/delegation/envelope.py:182-223 | exactly when a call consumes, the receipt it records field by field, and which other receipts it keeps |
| Delegation.DistinctItemsAreIssued | backend/app/delegation/envelope.py:144-169 | any valid budget given as dictionary items in any order is issued, with the same entries |
| Delegation.AcceptedIsUnaltered | backend/app/delegation/envelope.py:182-196 | an envelope accepted under a genuine signature is the signed one in every field, or it exhibits two different texts with the same MAC |
| Verifier.ParseResponse | backend/app/delegation/service.py:105-172 | accepts exactly the responses whose verdicts judge each claim once, consistently, citing only evidence delegated to that claim, and returns the verdicts that its raw members say; crashes exactly on a response the decoder cannot take or whose first invalid verdict has an integer confidence beyond the floats; everything else is malformed |
| Verifier.ParseMeans | backend/app/delegation/service.py:105-172 | the step-by-step parse and the declarative notions of a usable and of a breaking response coincide |
| Verifier.VerdictMeans | backend/app/delegation/models.py:174-196 | decoding a raw verdict yields v if and only if its five members say v: the id, the source's words for status and reason, the confidence as a float or an equal integer, and the evidence list |
| Verifier.VerdictRoundTrip | backend/app/delegation/service.py:129-137 | every valid verdict, encoded with the source's words for the 3 statuses and 8 reasons, decodes to itself |
| Verifier.UsableMeans | backend/app/delegation/service.py:147-171 | in a usable answer each verdict says what its raw object says, cites only its claim's evidence, and support comes with evidence and the supporting reason |
| Verifier.Decode | backend/app/delegation/service.py:119-139 | decodes all raw verdicts, or finds an invalid one, and tells the case in which converting a confidence overflows before any invalid verdict was met |
| Verifier.Cites | backend/app/delegation/service.py:147-171 | accepts exactly when every verdict cites its own claim's evidence with a matching reason |
| Verifier.SameElementsSameMultiset | backend/app/delegation/service.py:140-142 | equal count and equal id set mean each claim id appears exactly once |
| Verifier.ForeignCitation | backend/app/delegation/service.py:143-149 | citing evidence outside the request already violates the per-claim rule |
| Verifier.FailClosed | backend/app/delegation/service.py:175-181 | escalates each claim exactly once, with the given reason and no evidence |
| Verifier.Verify | backend/app/delegation/service.py:345-497 | in all surroundings (deadline or cancellation first, every sequence of provider events, deadline or cancellation noticed at the end): at most retries + 1 calls, each made only when its estimate fits what is left of the input, output and total budget, none exactly when struck first or the prompt is too large; one verdict per claim; completed if and only if the last call brings usable verdicts, which then say what its raw members say, within the accumulated budget and the run ends in time; every other outcome escalates all claims with the reason and status that apply; and it never gives up while a retry is due and affordable |
| Verifier.AskProvider | backend/app/delegation/service.py:384-431 | the retry loop alone, with the same promise, the pre-call budget guard included, for a run that ends in time |
| Verifier.ConcludeKeeps | backend/app/runtime/deadline.py:50-62 | a deadline or cancellation noticed only after the last call replaces the outcome, keeping usage and attempts, and the promise holds of the replacement |
| Verifier.UnusableButNotRetried | backend/app/delegation/service.py:138-139 | the property that an unusable answer within budget is retried fails: after a first answer with a confidence of 2^1024 - 2^970, whether or not a retry is left, the run has made one call and has failed with every claim escalated as a provider error |
| Verifier.BreakEndsTheRun | backend/app/delegation/service.py:479-488 | the same for every first answer that breaks parsing |
| Verifier.UnaffordableNotRetried | backend/app/delegation/service.py:392-398 | it also fails on a malformed answer that uses up the budget: with 8 input tokens spent by the first answer and a retry left, the run has made one call and has failed as budget_exceeded |
| Verifier.RetriedExactlyWhen | backend/app/delegation/service.py:386-430 | exactly when it holds: in any run, an answer is followed by another call if and only if a retry is left, the next prompt's estimate fits the budget, and the answer neither is usable nor breaks parsing |
| Verifier.FollowedExactlyWhen | backend/app/delegation/service.py:386-430 | after any provider event, another call follows if and only if one is due and affordable |
| Verifier.ConfidenceMayBreak | backend/app/delegation/models.py:188-194 | of the integer confidences out of range, exactly those beyond the floats break parsing; the others are malformed |
| Verifier.React | backend/app/delegation/service.py:400-488 | one provider event leads to a retry exactly when a call is left and the event permits it, and otherwise to the matching terminal status and verdicts |
| Verifier.OutcomeReasons | backend/app/delegation/service.py:436-488 | the status and reason that each kind of last event leads to |
| Verifier.CallsFit | backend/app/delegation/service.py:387-398 | no call is made that would overdraw the input budget, and output budget is left at each |
| Verifier.WithinMeans | backend/app/delegation/service.py:408-414 | the usage is within budget exactly when input and output each are; the test on the total adds nothing |
| Verifier.UsageAdds | backend/app/delegation/service.py:407 | usage accumulates what the provider reports, input and output each for itself |
| Verifier.EstimateAdds | backend/app/delegation/service.py:74-76 | each message adds eight tokens and a quarter of its bytes rounded up |
| TerminalRace.StepKeeps | backend/app/delegation/service.py:258-316 | every atomic step of worker, deadline, cancellation and persist task keeps the race invariant |
| TerminalRace.OnePersistTask | backend/app/delegation/service.py:568-624 | on every interleaving at most one persist task starts and each ledger entry is written at most once, for the recorded result |
| TerminalRace.RecordIsFinal | backend/app/delegation/service.py:568-577 | the recorded result never changes once set |
| TerminalRace.AnswerIsTheRecord | backend/app/delegation/service.py:258-295 | a result returned after recording began is the recorded one, now and for the rest of the run |
| TerminalRace.EarlyAnswerMayDiffer | backend/app/delegation/service.py:278-295 | the condition is needed: answering before recording begins can leave a different record |
| TerminalRace.ProposalIsRecorded | backend/app/delegation/service.py:568-624 | progress, from any state with nothing recorded: if worker, deadline or cancellation proposes p, no other finisher runs before its own and its persist task gets three turns without a fault, whatever else interleaves, then p is recorded, the ledger holds exactly the two entries for p, and the record is persisted |
| TerminalRace.ProposalQueued | backend/app/delegation/service.py:278-306 | the deadline and cancellation handlers start a finisher for just their proposal and wait for it |
| TerminalRace.DeadlineAnswersTheRecord | backend/app/delegation/service.py:265-295 | once recording has begun the deadline handler answers with the record when its wait ends |
| TerminalRace.WorkerReturnsTheRecord | backend/app/delegation/service.py:570-575 | a worker whose finisher waits for a persisted record returns that record |
| TerminalRace.EveryOutcomeSound | backend/app/delegation/service.py:251-316 | if worker, deadline and cancellation propose only sound results (each claim judged once; completed with cited evidence within budget, or all escalated), then on every interleaving the answer, the record and every ledger entry are sound |
| TerminalRace.FallbacksSound | backend/app/delegation/service.py:265-306 | the fallbacks of the deadline and cancellation handlers are sound; that of the worker is what Verify promises |
| Phrases.PhraseTestIsSublist | backend/app/capabilities/selector.py:139-144 | the padded-substring test holds exactly when the phrase's words are a non-empty contiguous run of the text's words |
| Phrases.UnderIsComponentPrefix | backend/app/capabilities/selector.py:154-158 | equality or the `scope/` prefix test holds exactly when the scope's components are a prefix of the path's |
| Phrases.PathMatchesMeansContained | backend/app/capabilities/selector.py:147-158 | a scoped capability matches exactly the paths without `..` under one of its scopes, component by component |
| Phrases.WordsSplit | backend/app/capabilities/selector.py:139-140 | a character that is no word character separates the words before it from those after it |
| Phrases.WordsOfSolid | backend/app/capabilities/selector.py:139-140 | a run of word characters is one word; with the split this fixes the word list of every text |
| Phrases.WordsOfNormal | backend/app/capabilities/selector.py:139-140 | normalizing keeps exactly the words of the folded text |
| Phrases.CanonicalMeans | backend/app/capabilities/selector.py:152 | the compared path is the given one with forward slashes and none at either end |
| Phrases.SplitStep | backend/app/capabilities/selector.py:153 | a slash separates the first component from the rest |
| Selector.BuildIndex | backend/app/capabilities/index.py:11-17 | indexing succeeds exactly when ids are distinct, and keeps every descriptor in order |
| Selector.SelectCapabilities | backend/app/capabilities/selector.py:50-136 | the loops compute the selection specified by judging, ranking and greedy choice |
| Selector.JudgeAll | backend/app/capabilities/selector.py:58-114 | the first loop splits the index into hidden, refused and scored, in id order |
| Selector.GreedyLoop | backend/app/capabilities/selector.py:116-134 | the second loop takes, or passes over with the right reason, each ranked candidate, and spends the cost of what it took |
| Selector.GreedyIsFeasible | backend/app/capabilities/selector.py:116-134 | the choice stays within budget and count limit |
| Selector.GreedyIsLexGreatest | backend/app/capabilities/selector.py:116-134 | no choice within budget and limit takes an earlier candidate that the greedy choice leaves |
| Selector.SelectionIsLexGreatest | backend/app/capabilities/selector.py:116-136 | among all candidate subsets within budget and limit the selection is lexicographically greatest in score-descending, id-ascending order |
| Selector.EveryDescriptorPlacedOnce | backend/app/capabilities/selector.py:50-136 | selected, rejected and hidden hold every indexed id exactly as often as the index does |
| Selector.SelectionIgnoresInsertionOrder | backend/app/capabilities/index.py:19-25 | the result does not depend on the order in which descriptors were indexed |
| Selector.SelectedIsAdmissible | backend/app/capabilities/selector.py:58-114 | whatever is selected is enabled, has no denied or undecided permission, matches no negative trigger's words, is in scope and scored, and needs approval exactly when some permission asks |
| Scoring.JudgementMeans | backend/app/capabilities/selector.py:58-114 | a descriptor is hidden exactly when disabled or not permitted, and offered exactly when admissible and of positive worth, with that worth as score and the reasons that apply; otherwise it is refused on the first ground that applies; worth is priority, 10000 if pinned, 100 and 10 per word for each trigger whose words are a run of the request's, one per shared word, and 25 if scoped |
| Scoring.PinningRaises | backend/app/capabilities/selector.py:86-88 | pinning raises the worth by exactly 10000 |
| Scoring.RankedMeans | backend/app/capabilities/selector.py:111-116 | the ranked candidates are exactly the admissible descriptors of positive worth, higher worth first and the smaller id among equals |
| Scoring.SelectedMeans | backend/app/capabilities/selector.py:116-136 | whatever is selected is such a candidate, described by its match |
| Scoring.PassedFor | backend/app/capabilities/selector.py:119-131 | a candidate is passed over for the limit when as many were taken before it, and otherwise because with them it would exceed the budget |
| Scoring.RejectedMeans | backend/app/capabilities/selector.py:77-131 | whatever is rejected was refused on the ground given or passed over |
| Scoring.HiddenListMeans | backend/app/capabilities/selector.py:59-68 | the hidden ids are those of the descriptors that are not permitted |
| Scoring.ResultOrdered | backend/app/capabilities/selector.py:135-136 | rejected and hidden come in id order, and the cost is that of the selected and within budget |
| Strings.LeMeans | backend/app/capabilities/index.py:21-25 | the order of ids is lexicographic by code point |
| SandboxCapture.CaptureIsFaithful | sandbox_runner/server.py:149-167 | for every interleaving of chunks each buffer is a prefix of its stream, the total is the smaller of produced and limit, truncated holds exactly when production reached the limit, and untruncated means nothing was lost |
| SandboxCapture.Capture.Read | sandbox_runner/server.py:154-167 | one read updates buffers and flag as the step says and stops exactly when the cap is reached |
| SandboxCapture.AtMostOneExecution | sandbox_runner/server.py:286-308 | across interleaved handlers at most one execution is alive and the flag is set exactly while a handler is inside |
| SandboxCapture.NextKeepsExclusive | sandbox_runner/server.py:286-308 | every handler step keeps mutual exclusion |
| SandboxCapture.ArrivalIsAnswered | sandbox_runner/server.py:286-291 | an arriving request executes when no handler is inside and is turned away when one is |
| SandboxCapture.ReleaseFreesTheRunner | sandbox_runner/server.py:302-308 | a handler that ends and is cleaned up leaves the runner idle |
| SandboxFrame.EncodeResponse | sandbox_runner/server.py:229-258 | a fitting frame is kept; an oversized error becomes `response_too_large`; otherwise the frame fits and keeps the longest prefix of stdout followed by stderr that does |
| SandboxFrame.Search | sandbox_runner/server.py:241-258 | the binary search finds the largest fitting length of any family of frames that grows with it |
| SandboxFrame.FrameGrows | sandbox_runner/server.py:225-226 | keeping more characters never shortens the frame |
| SandboxFrame.EmptyOutputFits | sandbox_runner/server.py:241-242 | with a 32-digit hexadecimal id and a three-digit exit code the frame without output always fits |
| SandboxFrame.KeptMeans | sandbox_runner/server.py:245-253 | what is kept is the prefix of that length of stdout followed by stderr, stderr only after all of stdout |
| SandboxFrame.EscapedReads | sandbox_runner/server.py:225-226 | unescaping the text in a frame gives back the captured text |
| SandboxFrame.FrameIsOneLine | sandbox_runner/server.py:225-226 | every frame is one line of printable ASCII, whatever the output holds |
| PlainJson.CopySucceedsIffNoDefect | backend/app/agents/ollama_adapter.py:59-77 | on every finite container graph, cyclic or not, the copy succeeds exactly when no path ends in a bad leaf, a non-text key or a container it already passed |
| PlainJson.CopyIsUnfolding | backend/app/agents/ollama_adapter.py:59-77 | the copy is the tree unfolding and exists whenever the unfolding is finite, shared nodes allowed |
| PlainJson.CopyIsIdempotent | backend/app/agents/ollama_adapter.py:59-77 | copying a copy gives the same tree |
| SignTest.PValueIsExactShare | scripts/analyze-hybrid-benchmark.py:175-181 | for all wins and losses, ties and zero included, the p-value is exactly the share of the 2^n sequences at least as lopsided as the observed one |
| SignTest.SequencesAreSpace | scripts/analyze-hybrid-benchmark.py:180 | there are exactly 2^n win/loss sequences of length n |
| SignTest.CombCounts | scripts/analyze-hybrid-benchmark.py:180 | the binomial coefficient counts the sequences with exactly that many wins |
| SignTest.CombIsQuotient | scripts/analyze-hybrid-benchmark.py:180 | that coefficient is the factorial quotient |
| SignTest.LopsidedCount | scripts/analyze-hybrid-benchmark.py:179-181 | the lopsided outcomes are two disjoint equal tails, or everything on a tie |
| SignTest.PValueSymmetric | scripts/analyze-hybrid-benchmark.py:175-181 | swapping wins and losses changes nothing |
| Kappa.KappaBounds | scripts/analyze-hybrid-benchmark.py:190-203 | kappa exists exactly when a key is common, lies in [-1, 1], and is 1 exactly when the labels agree on every common key, also when the expected agreement is 1 |
| Kappa.ChanceBound | scripts/analyze-hybrid-benchmark.py:196-200 | twice the chance agreement never exceeds certainty plus the observed agreement |
| Kappa.OverlapAgrees | scripts/analyze-hybrid-benchmark.py:195-200 | two graders who overuse one label must agree on the overlap |
| Kappa.KappaSymmetric | scripts/analyze-hybrid-benchmark.py:190-203 | swapping the graders changes nothing |
| Kappa.KappaMeans | scripts/analyze-hybrid-benchmark.py:195-203 | with n common keys, d labelled alike and e the chance products: kappa (n n - e) = n d - e, and kappa is 1 when e = n n |
| Drift.SummaryIgnoresCaseOrder | backend/app/eval/drift.py:110-147 | a summary depends on the multiset of cases, not on their order |
| Drift.SummaryOrdered | backend/app/eval/drift.py:110-147 | in every summary min, p10, p50, p90 and max are in non-decreasing order after rounding |
| Drift.QuantileCounts | backend/app/eval/drift.py:101-107 | before rounding, at least ceil(f n) values are at or below the f-quantile and at least n - ceil(f n) + 1 at or above it |
| Drift.PortionMeans | backend/app/eval/drift.py:105-106 | the rank is the fraction of n rounded up: c - 1 < f n <= c |
| DriftFigures.ReportsValues | backend/app/eval/drift.py:110-147 | each averaged metric is the rounded quotient of sum and count of the usable values under its own key, and absent when there are none |
| DriftFigures.ReportsRates | backend/app/eval/drift.py:130-133 | pass rate and mean score are the rounded means over all cases |
| DriftFigures.ReportsQuantiles | backend/app/eval/drift.py:135-137 | p10, p50 and p90 are rounded scores with enough others on either side for 0.1, 0.5 and 0.9 |
| DriftFigures.ReportsExtremes | backend/app/eval/drift.py:134-138 | the count is that of the cases, min and max the rounded least and greatest score |
| DriftReport.DetectDrift | backend/app/eval/drift.py:161-236 | refuses unusable evaluations; otherwise reports every metric's difference, the changed flags and exactly the rules that trigger, or the sample-size warning alone |
| DriftReport.RaiseWarnings | backend/app/eval/drift.py:203-235 | the warnings are exactly the triggered rules in rule order, each describing its change |
| DriftReport.SwapNegatesDeltas | backend/app/eval/drift.py:171-176 | swapping the cohorts negates every numeric difference |
| DriftReport.DeltaSign | backend/app/eval/drift.py:171-176 | the difference is the rounded rise from baseline to candidate |
| DriftReport.QualityWarnings | backend/app/eval/drift.py:203-235 | metric by metric, a quality metric warns exactly when it falls, or rises, by its own threshold |
| DriftReport.CostWarnings | backend/app/eval/drift.py:203-235 | latency, tokens and cost warn exactly when they rise by their part of what they were, anything being infinitely more than nothing |
| DriftReport.ReverseRaisesOthers | backend/app/eval/drift.py:215-224 | a rule with a positive threshold that warns about a comparison does not warn about its reverse |
| DriftReport.SelfComparison | backend/app/eval/drift.py:203-224 | an evaluation compared with itself warns exactly about the present metrics whose threshold is zero |

## Left out

- InstructionLoader.LoadState.LoadFile: symlinks, hardlinks, descriptors and path resolution appear only as the outcome of a request (symlink, escaping, or a canonical path) and of a read (unreadable, or size, encoding and lines).
- InstructionLoader.LoadProjectInstructions: sources keep the body as a list of lines; joining, stripping, hashing and the family tag are not modelled, and the byte count appears only in the running total. The target directory is already resolved.
- Candidates.CreateKeeps: redaction, PII and metadata checks are one boolean given with the call; they depend on detectors that are not part of this model.
- Candidates.RequestKeeps: the approval repository reserves one pending receipt with a fresh id; `arguments_hash` is the payload itself, so equal hashes stand for equal payloads. Receipts of other tools are reserved freely; only this service reserves for the promotion tool.
- Candidates.DecideKeeps: the variants that decide by exact or unique binding are left out; they move a receipt out of pending under a stricter selection.
- Delegation.NonceStore.VerifyAndConsume: HMAC-SHA-256 with base64url is an arbitrary function of key and text; receipts store the signature itself instead of its digest; nonces are parameters.
- Envelope.PayloadInjective: floats appear by their shortest decimal text, which determines them. Python's limit on the digits of a printed integer is left out.
- Verifier.Verify: messages are byte lengths and the provider is a function from call number to event. Comparing the request's budget with the envelope's, latency, ledger payloads and what a detached worker does after its deadline are left out.
- TerminalRace.StepKeeps: a finishing handler is not cancelled in the middle of its cleanup; logging is left out.
- Selector.SelectCapabilities: case folding is an arbitrary function of the text; permission decisions are already typed; filtering by capability kind is left out.
- SandboxCapture.CaptureIsFaithful: processes, signals, seccomp and resource limits are left out; a reader that stopped reads no more. What AtMostOneExecution keeps apart are the execution tasks; a killed process may outlive its task.
- SandboxFrame.EncodeResponse: strings hold Unicode scalar values; lone surrogates cannot occur in decoded output.
- PlainJson.CopySucceedsIffNoDefect: identity is a reference number in a finite heap; floats appear by their text. Python's recursion limit is left out.
- Verifier.ParseResponse: Python's recursion limit appears only where the decoder meets it; a value nested just below that limit may still exceed it while an error message is formatted.
- SignTest.PValueIsExactShare: quotients are exact reals; float rounding is left out.
- Kappa.KappaBounds: quotients are exact reals, and labels are A, B or tie, as the scoring sheet asks for.
- Drift.SummaryOrdered: numbers are exact reals and `round` is any monotone odd function; the fractions are the exact decimals.
- DriftReport.DetectDrift: storing and listing reports is left out.
- The id renaming of `_parse_tool_calls` and the history check of `_typed_messages`: they would add easier members.
- Provider adapters, HTTP wiring, database engines, budgets, queues, ledgers, routing and the learning-media builders.
