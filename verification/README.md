# Verified model of the jankurai decision and artifact logic

jankurai audits a repository and gates merges. This project models the logic that decides, and the artifacts the
decisions rest on, and proves what they promise. `dafny verify dfyconfig.toml` checks everything.

| part of the system | files |
|---|---|
| proof plans, execution evidence and its verification | `ProofPlan`, `ProofEvidence`, `ProofCheck`, `ProofVerdict`, `EvidencePaths`, `ProofAgreement`, `ProofDisagreement`, `ProofMeaning`, `PlanRouting`, `EvidenceNames`, `VerdictTexts`, `VerdictKinds` |
| the README badge writer and its links | `Badge`, `BadgeDocument`, `BadgePlacement`, `BadgeRendered`, `RelativePath`, `Lexical` |
| the save gate | `SaveGate`, `SaveDelta` |
| policy, decision and enforcement; the ratchet baseline | `Outcome`, `Ratchet`, `HardFindings` |
| printed shell commands | `Shell` |
| changed paths and scopes | `ChangedPaths`, `PathParts`, `Lexical` |
| the fix queue, audited boundaries, context packing | `FixQueue`, `FixOrder`, `Boundaries`, `BoundaryEvidence`, `BoundaryRules`, `ContextPack`, `PackRules` |
| reading JSON without repeated names | `StrictJson` |
| shared vocabulary | `Model`, `Text`, `Sorting`, `Wrappers` |

## How it is modelled

Code that loops and pushes is a method with a loop, proved against a specification; expressions are functions; the
audit report, which the source assesses in place, is the class `Outcome.AuditReport`; overlaps are marked in an array.

- The file system is a finite map from places to contents. A place is a list of path components. Hashes, the shell,
  glob matching, the route catalog, the readers of repository files and the legacy policy check are arbitrary
  functions or parameters, so every theorem holds for all of them. No hash is assumed to be injective; where digests
  decide, the assumption is that no file has the digest of a recorded content that it does not hold.
- Issues of the proof verifier are a datatype, rendered to the texts the verdict is classified from by substring.
- Verdict-like strings that are only compared (`HL3`, `block`, `stale`) are datatypes; names chosen by users stay
  strings. Strings are sequences of characters; sizes in bytes are sizes of such sequences.
- The small functions the specifications are written with each have lemmas that say what they mean in other terms: on
  the characters and positions of a text, the members of a document, the entries of a list and where they stand.
- A JSON document is the tree of values the deserializer visits.

## Results that are conditions

Some promises hold only under a condition the code does not state. Most are proved as an equivalence, the others with
a counterexample that shows the condition is needed.

- Last write wins for badges exactly if `SeamSafe`; a lone carriage return above the block breaks it, and so does a
  CRLF pair inside the block when the document has none.
- For the badges the writer renders, the same condition in terms of their two paths, and that neither path holds the
  end marker.
- The document around a badge is kept character for character exactly if it has no CRLF pair or every line feed above
  and below the badge follows a carriage return; otherwise lone line feeds anywhere in it are rewritten.
- A relative link is right exactly if the base has no `..` beyond what it shares with the target.
- No run of saves adds hard debt exactly if `fail_on` is upward closed among the severities that occur; the module
  comment of `save_gate.rs` promises it without that condition, and the code is followed here.
- Evidence verifies exactly if the execution succeeded, runs are distinct, and nothing that the verifier reads has
  changed: plan, manifest fingerprints, and each receipt and log under its name in the index. Nothing changes if
  commands leave the plan, the manifests and earlier evidence alone, evidence files do not collide with those, and the
  receipt directory is absolute, under the repository, or read from a process running in the repository. Inputs where
  an execution succeeds and its evidence does not verify: a command that rewrites the plan, an index written over the
  plan, and a receipt directory beside the repository.
- The verdict of evidence is that of its worst kind of issue if no name in the issues' texts holds one of the words the
  classifier looks for. An unplanned run, which is only advisory, blocks if its command holds `missing`.
- Findings share a delta key exactly if rule, category and non-digit problem text agree, for rules and categories
  without the separator of the key; with separators in them findings of different rules can share one.
- A release never passes if its assessment succeeds. If the baseline cannot be compared, or the proof not be read, an
  earlier passing decision stays, and enforcement, which looks only at the decision and the conformance, still
  succeeds.
- A report that passes under a stricter policy, with more findings and a lower score, passes without all that exactly
  if, in the ratcheting modes, the baseline has the policy fingerprint of that report or lets it through, and its score
  is at most 100. So strengthening never rescues a report, except through a changed policy fingerprint.
- Context packing cannot overflow below the largest budget; at the largest budget it does exactly if the estimates
  add up past a machine word.

## Model

| member | source | states |
|---|---|---|
| `ProofAgreement.EvidenceSoundIffSucceeded` | crates/jankurai/src/commands/proof.rs:275-949 | the exact agreement of producer and checker, for any plan, commands, directories, error setting and any later files: the index an execution wrote is sound exactly if the execution returned success, no (lane, command) was planned twice, and the plan, the manifest fingerprints, and every receipt and log under its name in the index are as they were; assuming only that no file has the digest of a plan, receipt or log that it is not |
| `ProofAgreement.ProveThenVerify` | crates/jankurai/src/commands/proof.rs:275-949 | the same for the commands run one after the other, whatever happens to the files in between: verification returns pass exactly in those cases; right after an undisturbed execution it always returns a verdict, which is pass exactly for success with distinct runs |
| `ProofAgreement.UndisturbedEvidenceSound` | crates/jankurai/src/commands/proof.rs:275-445 | conditions on the commands and places under which nothing changes: commands leave plan, manifests and earlier evidence alone, places differ, the receipt directory is anchored; then evidence is sound exactly for success with distinct runs, and every receipt parses |
| `ProofAgreement.SoundShows` | crates/jankurai/src/commands/proof.rs:820-902 | sound evidence shows every receipt and log exactly as written, unless a file has the digest of another content |
| `ProofAgreement.JobNamedApart` | crates/jankurai/src/commands/proof.rs:1372-1417 | the index spells all receipts differently, for any receipt directory, even one whose file is the path of the repository |
| `ProofDisagreement.UnanchoredReceiptsAreNotFound` | crates/jankurai/src/commands/proof.rs:1412-1417 | why the receipt directory must be anchored: with a relative directory outside the repository the index names a different place, and good evidence is not sound |
| `ProofDisagreement.GoodEvidenceNotFound` | crates/jankurai/src/commands/proof.rs:1412-1417 | an input for that: one quiet successful run, repository and receipt directory side by side below the working directory; the execution succeeds and its evidence is not sound |
| `ProofDisagreement.RewrittenPlanNotSound` | crates/jankurai/src/commands/proof.rs:275-445 | an input with a command that is not respectful: run in the repository with all places apart, one command exits with 0 and rewrites the plan; the execution succeeds and its evidence is not sound for whatever plan the file then holds |
| `ProofDisagreement.IndexOverPlanIsUnsound` | crates/jankurai/src/commands/proof.rs:412-445 | places that collide: an index written over a plan of another digest makes its own evidence unsound |
| `ProofAgreement.CheckerSeesTheRuns` | crates/jankurai/src/commands/proof.rs:309-372 | after an undisturbed execution every name in the index leads to what its run wrote, and the plan and manifests read as before |
| `ProofAgreement.FilesSettle` | crates/jankurai/src/commands/proof.rs:309-372 | no later run of respectful commands changes an earlier run's receipt or log |
| `ProofAgreement.FixedPlacesStay` | crates/jankurai/src/commands/proof.rs:309-372 | an execution of respectful commands leaves the plan and the manifests as they were |
| `ProofAgreement.QuietCommandsAreRespectful` | crates/jankurai/src/commands/proof.rs:1212-1217 | commands that change no file meet the condition on commands, so it asks nothing of read-only proofs |
| `ProofAgreement.JobFilesApart` | crates/jankurai/src/commands/proof.rs:1372-1410 | whatever the lanes and commands, all receipts and logs of an execution are different places |
| `ProofAgreement.SoundEvidenceMatchesRuns` | crates/jankurai/src/commands/proof.rs:737-949 | sound evidence is a one-to-one correspondence between listed receipts and planned runs |
| `ProofAgreement.UncoveredRunBlocks` | crates/jankurai/src/commands/proof.rs:904-911 | a planned run without a receipt gives the verdict blocked, whatever names the run and the other issues use |
| `ProofAgreement.FailedReceiptIsIncomplete` | crates/jankurai/src/commands/proof.rs:885-901 | a listed receipt with a nonzero exit code makes the verdict incomplete or worse, whatever else the index says |
| `ProofAgreement.DifferingReceiptIsStale` | crates/jankurai/src/commands/proof.rs:840-901 | a receipt, command, log or plan digest that differs from what is there makes the verdict stale or worse |
| `ProofAgreement.DifferingHeaderIsStale` | crates/jankurai/src/commands/proof.rs:745-813 | another plan, other commands or another manifest fingerprint make the verdict stale or worse |
| `ProofAgreement.RecordedReceiptHolds` | crates/jankurai/src/commands/proof.rs:827-901 | a receipt the producer recorded passes every check of the verifier exactly if its run exited with 0 |
| `ProofMeaning.SucceedsIffCommandsDo` | crates/jankurai/src/commands/proof.rs:352-443 | an execution succeeds exactly if there is something to run, everything was run, and every command ended by itself with code 0 |
| `ProofMeaning.RecordedCodeIsTheCommands` | crates/jankurai/src/commands/proof.rs:1237-1237 | a receipt records the code the shell gave its command, and -1 if a signal ended it |
| `ProofMeaning.FailedAreListed` | crates/jankurai/src/commands/proof.rs:352-353 | the failed list names exactly the receipts of the commands that did not end with code 0, in order |
| `ProofMeaning.StopsAtTheFirstFailure` | crates/jankurai/src/commands/proof.rs:354-368 | without the flag to continue, only the last command can have failed; only a failure cuts an execution short |
| `ProofMeaning.FailureNamesTheCommand` | crates/jankurai/src/commands/proof.rs:358-443 | which error is returned, with the command, lane and code of the run that stopped the execution |
| `ProofMeaning.RunsAreThePlans` | crates/jankurai/src/commands/proof.rs:1177-1194 | the runs are all planned runs in order, or without any a run for each command, named by its position, with all changed paths and risk notes |
| `ProofMeaning.ExecutesThePlan` | crates/jankurai/src/commands/proof.rs:309-369 | the effects are those of the plan's own commands in order, each receipt carries what the plan says of its run, and success means that all were run |
| `ProofMeaning.SoundEvidenceCoversThePlan` | crates/jankurai/src/commands/proof.rs:755-776 | evidence that passes names the commands of the whole plan in order and lists a receipt of success under this plan for each |
| `ProofMeaning.UnlistedRunBlocks` | crates/jankurai/src/commands/proof.rs:904-916 | a planned run, or a command of a plan without runs, whose lane and command no listed receipt has, makes the verdict blocked |
| `ProofMeaning.CheckReads` | crates/jankurai/src/commands/proof.rs:820-832 | where the verifier looks for a name, and that it fails exactly on a file that is no receipt |
| `ProofMeaning.RecordedDigestsAre` | crates/jankurai/src/commands/proof.rs:309-369 | what each entry of the three digest lists is called and of which content it is the digest |
| `ProofMeaning.RecomputedDigestsAre` | crates/jankurai/src/commands/proof.rs:832-866 | the recomputed lists hold, in order, a digest for each listed receipt that is there, for its command, and for its log if that is there |
| `ProofMeaning.ReportedDigestsAre` | crates/jankurai/src/commands/proof.rs:918-949 | a verification reports the recomputed lists, the evidence's own where nothing was recomputed, and the current fingerprints |
| `ProofMeaning.FirstDigestIs` | crates/jankurai/src/commands/proof.rs:836-849 | of several entries for one path the first counts |
| `ProofCheck.VerifyProofEvidence` | crates/jankurai/src/commands/proof.rs:737-949 | for an arbitrary index: an error exactly if the plan or a listed receipt cannot be read; otherwise exactly the issues that are there, the recomputed digests, pass exactly for sound evidence, and a verdict at least as bad as the kind of every issue; `ProofMeaning.SoundEvidenceCoversThePlan` states soundness on the plan's own runs and commands |
| `ProofCheck.HeaderIssues` | crates/jankurai/src/commands/proof.rs:745-817 | exactly the issues about plan digest, changed paths, inventory, commands, manifests and coverage; none exactly if they all agree |
| `ProofCheck.IdentityIssues` | crates/jankurai/src/commands/proof.rs:745-776 | which of plan digest, changed paths, commands and unique inventory are complained about: exactly those that differ |
| `ProofCheck.UniqueInventory` | crates/jankurai/src/commands/proof.rs:764-767 | counting the set of run keys finds exactly the nonempty inventories without repetition |
| `ProofCheck.ManifestIssues` | crates/jankurai/src/commands/proof.rs:777-813 | exactly one kind of issue for each manifest whose recorded fingerprint is not the current one, naming both |
| `ProofCheck.ReceiptsIssues` | crates/jankurai/src/commands/proof.rs:820-902 | exactly what is wrong with the listed receipts, repetition included; no issue exactly if they are listed once each, hold, and are for different runs; the observed runs and recomputed digests are those of the receipts that are there |
| `ProofCheck.ReceiptIssues` | crates/jankurai/src/commands/proof.rs:832-901 | exactly the complaints a receipt deserves: unplanned run, missing or differing digests, missing or changed log, claimed rules, nonzero exit, other plan; none exactly if it holds |
| `ProofCheck.MissingRuns` | crates/jankurai/src/commands/proof.rs:904-911 | one issue for each planned run that was not observed, none exactly if all were |
| `ProofEvidence.Execute` | crates/jankurai/src/commands/proof.rs:275-445 | an error exactly if the plan is unreadable or a command is not allowed; otherwise runs are executed up to the first failure that stops them, the index records names and digests of what was written, and success is reported exactly if every run was executed and exited with 0; `ProofMeaning.SucceedsIffCommandsDo` and `ProofMeaning.ExecutesThePlan` state it on the shell's own effects and the plan's own runs |
| `ProofEvidence.ExecuteRuns` | crates/jankurai/src/commands/proof.rs:309-372 | the loop: which runs are executed, the files they leave, and the lists pushed for each |
| `ProofEvidence.ExecuteRun` | crates/jankurai/src/commands/proof.rs:1196-1283 | one run: its command, then its log, then its receipt, with digests of exactly what was written |
| `ProofEvidence.ExecutionIsDetermined` | crates/jankurai/src/commands/proof.rs:275-445 | index, files and success of an execution follow from its inputs: the contract of the execution leaves nothing open |
| `ProofEvidence.FallbackRunsDiffer` | crates/jankurai/src/commands/proof.rs:1177-1194 | runs made up for a plan without any never clash, even if commands repeat |
| `ProofEvidence.BuiltPlanRunsDiffer` | crates/jankurai/src/commands/proof.rs:447-643 | plans built by routing always have distinct runs, so the agreement applies to them without condition on the runs |
| `EvidencePaths.SpellingDenotesIffAnchored` | crates/jankurai/src/commands/proof.rs:1412-1417 | the verifier finds a path where the producer left it exactly if it is absolute, under the repository, or the repository is the working directory |
| `EvidencePaths.ShowReadsBack` | crates/jankurai/src/commands/proof.rs:1412-1417 | a path printed into the index parses to the same path |
| `EvidencePaths.FileNameInjective` | crates/jankurai/src/commands/proof.rs:1372-1410 | receipt and log names are injective in the run index, whatever the lanes, commands and hashes |
| `EvidencePaths.FileNameIsComponent` | crates/jankurai/src/commands/proof.rs:1372-1410 | such a name is a single path component |
| `EvidencePaths.ReceiptIsNoLog` | crates/jankurai/src/commands/proof.rs:1372-1388 | no receipt shares its name with a log |
| `EvidenceNames.FileNameIs` | crates/jankurai/src/commands/proof.rs:1372-1388 | a file name is the run's number from 1 in at least two decimal digits, a dash, the slug, a dash, the hash and the extension |
| `EvidenceNames.SlugIs` | crates/jankurai/src/commands/proof.rs:1390-1401 | character by character: letters, digits and dashes stay, everything else becomes a dash |
| `EvidenceNames.ShortHashIs` | crates/jankurai/src/commands/proof.rs:1403-1410 | the first twelve hexadecimal digits of the command's hash |
| `EvidenceNames.FilesLie` | crates/jankurai/src/commands/proof.rs:1196-1211 | receipts lie in the given directory, logs in the repository's log directory |
| `EvidenceNames.PlaceIs` | crates/jankurai/src/commands/proof.rs:1412-1417 | a path with a leading slash is where it says; any other starts from the working directory for the producer and from the repository for the verifier |
| `ProofVerdict.VerdictOfConcat` | crates/jankurai/src/commands/proof.rs:966-995 | the verdict of two joined issue lists is the worse of the two verdicts |
| `ProofVerdict.VerdictCoversEach` | crates/jankurai/src/commands/proof.rs:966-995 | the verdict of a list is at least as bad as that of each text in it |
| `ProofVerdict.VerdictRespectsFloors` | crates/jankurai/src/commands/proof.rs:966-995 | names chosen by users can worsen a verdict but never improve it past the kind of any issue: absences block, mismatches are at least stale, exit codes at least incomplete |
| `ProofVerdict.PassIffNoIssues` | crates/jankurai/src/commands/proof.rs:966-969 | pass exactly for no issues |
| `VerdictTexts.VerdictIs` | crates/jankurai/src/commands/proof.rs:966-995 | each verdict has its exact condition: which of the fixed words occur in some text, at any position |
| `VerdictTexts.AbsentManifestBlocks` | crates/jankurai/src/commands/proof.rs:951-964 | a manifest that one side lacks blocks, although its kind is only stale, because the text says `missing` |
| `VerdictKinds.WorstKindDecides` | crates/jankurai/src/commands/proof.rs:966-995 | if no name in the texts holds one of the words, the verdict is exactly that of the worst kind of issue there is, and pass without any |
| `VerdictKinds.KindDecides` | crates/jankurai/src/commands/proof.rs:966-995 | the same for one issue, whatever its harmless names are |
| `VerdictKinds.KindsByVerdict` | crates/jankurai/src/commands/proof.rs:745-916 | which kinds block, are stale, incomplete or advisory |
| `VerdictKinds.CommandCanBlock` | crates/jankurai/src/commands/proof.rs:966-975 | the condition is needed: an unplanned run is only advisory, but blocks if its command holds `missing` |
| `ProofPlan.BuildProofPlan` | crates/jankurai/src/commands/proof.rs:447-643 | an error exactly without changed paths; otherwise one decision per path in order, runs sorted by (lane, command) with pairwise distinct commands, each gathering exactly the paths routed to its command, and risks, approvals and lanes as the paths call for |
| `ProofPlan.RunsCarryRoutedPathsOnce` | crates/jankurai/src/commands/proof.rs:495-516 | conservation: the runs together carry every path with a test route exactly once, and no other path |
| `ProofPlan.RoutedPathHasOneRun` | crates/jankurai/src/commands/proof.rs:495-516 | a run carries a path exactly if it is the run of the path's command |
| `ProofPlan.CleanPlanNeedsNoApproval` | crates/jankurai/src/commands/proof.rs:468-579 | no risk notes, only passing decisions and no required approval are the same thing |
| `ProofPlan.NoRiskIffCovered` | crates/jankurai/src/commands/proof.rs:468-579 | no risk exactly if every path has an owner and a test command run by a named lane |
| `ProofPlan.RoutePaths` | crates/jankurai/src/commands/proof.rs:468-579 | the routing loop, against what each path contributes |
| `ProofPlan.StepKeepsRoutes` | crates/jankurai/src/commands/proof.rs:468-579 | one turn of the loop keeps decisions, risks, lanes and runs right for one more path |
| `ProofPlan.RunGrows` | crates/jankurai/src/commands/proof.rs:495-516 | a path that joins a run keeps the run's lane, adds the path once and fills in a missing owner |
| `ProofPlan.LaneNamesByCommand` | crates/jankurai/src/commands/proof.rs:1285-1292 | of several lanes with one command the first names it |
| `ProofPlan.CollectRuns` | crates/jankurai/src/commands/proof.rs:597-602 | the runs of the map, each once, sorted by lane and command |
| `ProofPlan.ListCommands` | crates/jankurai/src/commands/proof.rs:603-605 | the commands of the runs, in their order |
| `ProofPlan.SkipUnusedLanes` | crates/jankurai/src/commands/proof.rs:581-595 | exactly the named lanes that are not required are skipped, and the full lane if there is a risk |
| `PlanRouting.RisksAre` | crates/jankurai/src/commands/proof.rs:468-579 | the risk notes are, path by path in order, a missing owner route and then a missing test route or a command no lane runs |
| `PlanRouting.ApprovalsAskedFor` | crates/jankurai/src/commands/proof.rs:473-579 | each approval is asked for exactly if some changed path lacks what it is about |
| `PlanRouting.LaneLabelIs` | crates/jankurai/src/commands/proof.rs:484-487 | a test route's lane is the first one with its command, and otherwise named after its prefix |
| `PlanRouting.RunsInOrder` | crates/jankurai/src/commands/proof.rs:597-602 | runs come in code point order of lane and then command, and no two are for one command |
| `PlanRouting.RunCarries` | crates/jankurai/src/commands/proof.rs:495-516 | a run carries exactly the paths whose test route names its command, in the order of the changed paths |
| `PlanRouting.RunSays` | crates/jankurai/src/commands/proof.rs:495-516 | what a planned run says: its lane, its owner, its paths in order, and a note for each of them |
| `PlanRouting.OwnerAndNotes` | crates/jankurai/src/commands/proof.rs:497-516 | a run's owner is that of its earliest path that has one, and it has one note for each path |
| `PlanRouting.NamesOf` | crates/jankurai/src/commands/proof.rs:468-487 | the prefixes and lanes a plan names are exactly those of its paths' routes, each once |
| `Badge.UpsertBadgeBlock` | crates/jankurai/src/commands/badge.rs:558-621 | the rewriting, pushed piece by piece, against its functional specification |
| `Badge.LastWriteWins` | crates/jankurai/src/commands/badge.rs:558-621 | writing one block and then another equals writing the second alone exactly if the seam is safe: the text has CRLF pairs, or what is kept above the block does not end in a carriage return and the first block has no CRLF pair |
| `Badge.CheckAfterUpdate` | crates/jankurai/src/commands/badge.rs:253-270 | a check right after an update finds no drift exactly under the same condition |
| `Badge.CleanTextIsSafe` | crates/jankurai/src/commands/badge.rs:558-621 | text whose every carriage return precedes a line feed, with blocks without carriage returns, is always safe |
| `Badge.LoneCarriageReturnDrifts` | crates/jankurai/src/commands/badge.rs:558-621 | a title ending in a lone carriage return drifts on the second rewrite |
| `Badge.LastWriteWinsLf` | crates/jankurai/src/commands/badge.rs:567-614 | on LF text the second write replaces the first one, from any insertion point |
| `Badge.LfRoundTrip` | crates/jankurai/src/commands/badge.rs:559-566 | expanding line feeds to CRLF and back is the identity, stray carriage returns included |
| `BadgeDocument.UpsertPreservesDocument` | crates/jankurai/src/commands/badge.rs:567-614 | on a document with LF line endings, outside the replaced block only line feeds at the seams change, and the text above and below stays in order |
| `BadgeDocument.UpsertOnAnyDocument` | crates/jankurai/src/commands/badge.rs:558-621 | on a document with any line endings the result is the text above, padding, the block, a separator and the text below, each written with the line endings of the document |
| `BadgeDocument.SurroundingsKeptIff` | crates/jankurai/src/commands/badge.rs:558-621 | the text above and below the block is kept character for character exactly if the document has no CRLF pair or every line feed of that text follows a carriage return |
| `BadgeDocument.OriginalOf` | crates/jankurai/src/commands/badge.rs:559-583 | every document can be cut into the text above, what is replaced, and the text below, so the previous result speaks of every document |
| `BadgeDocument.ExpandsBack` | crates/jankurai/src/commands/badge.rs:559-566 | collapsing and expanding line ends gives a text back exactly if every line feed follows a carriage return, and never shortens it |
| `BadgeDocument.MixedLineEndingsChange` | crates/jankurai/src/commands/badge.rs:558-621 | a document with both kinds of line ends, where a lone line feed two lines from the block is rewritten |
| `Badge.ReadmeInsertIndex` | crates/jankurai/src/commands/badge.rs:623-649 | the loop finds the point that the first line and the run of header lines below it determine; `BadgePlacement.InsertionPoint` states the point on characters |
| `Badge.HeaderLinesAreMaximal` | crates/jankurai/src/commands/badge.rs:623-649 | the insertion point lies below a title and the longest run of blank or badge lines, or at 0 |
| `Badge.InsertIndexCutsLines` | crates/jankurai/src/commands/badge.rs:623-649 | the insertion point is always a line boundary |
| `BadgePlacement.InsertionPoint` | crates/jankurai/src/commands/badge.rs:623-658 | on the characters of any text: without a title the point is 0; below a title it lies beyond a line exactly if that line and all since the title are blank or badge lines; it never cuts a line |
| `BadgePlacement.StaysAboveIff` | crates/jankurai/src/commands/badge.rs:636-658 | which lines stay above, by what stands where in the untrimmed line: all white space; a badge or image or aligned paragraph after leading white space; the badge host anywhere; an image together with the word badge in any case; a closing paragraph alone |
| `BadgePlacement.TitleIff` | crates/jankurai/src/commands/badge.rs:624-634 | which first lines are titles: a hash and white space after leading white space, and something after them |
| `BadgeRendered.MarkedBlockWellFormed` | crates/jankurai/src/commands/badge.rs:488-491 | a rendered block is well formed exactly if its badge line does not hold the end marker |
| `BadgeRendered.MarkedLastWriteWins` | crates/jankurai/src/commands/badge.rs:558-621 | for any lines between the markers the last write wins exactly if the first line does not hold the end marker and the seam is safe |
| `BadgeRendered.RenderedLastWriteWins` | crates/jankurai/src/commands/badge.rs:488-621 | for the badges the writer renders: exactly if neither path of the first badge holds the end marker, and the document has CRLF pairs or neither the text above ends in a carriage return nor a path holds a CRLF pair |
| `BadgeRendered.RenderedCheckAfterUpdate` | crates/jankurai/src/commands/badge.rs:253-270 | a check right after an update with the rendered badge finds no drift exactly under that condition |
| `BadgeRendered.RenderedLineHasEnd` | crates/jankurai/src/commands/badge.rs:488-491 | a rendered badge line holds the end marker exactly if one of its two paths does, whatever the score |
| `BadgeRendered.RenderedBlockIs` | crates/jankurai/src/commands/badge.rs:488-491 | the text of a whole block: both markers, the score, the two paths |
| `RelativePath.RelativePath` | crates/jankurai/src/commands/badge.rs:680-712 | the loop that advances over the shared components and the path it prints |
| `RelativePath.RelativePathIsCorrect` | crates/jankurai/src/commands/badge.rs:680-712 | walking the relative path from the base leads where the target leads, exactly if the part of the base that the target does not share has no parent step |
| `RelativePath.RelativePathIsShortest` | crates/jankurai/src/commands/badge.rs:680-712 | without parent steps beyond the shared part no shorter component list leads from base to target |
| `RelativePath.ClimbingBaseIsWrong` | crates/jankurai/src/commands/badge.rs:680-712 | a base that climbs gives a wrong link |
| `RelativePath.RelativePathReadsBack` | crates/jankurai/src/commands/badge.rs:695-701 | the printed path parses to the computed components |
| `RelativePath.MarkdownLinkIsCorrect` | crates/jankurai/src/commands/badge.rs:660-678 | the link written into a README, followed from its directory, leads to the target under the same exact condition |
| `PathParts.LinkIs` | crates/jankurai/src/commands/badge.rs:660-701 | which targets are written as they stand, and what the others become |
| `PathParts.ComponentsAre` | crates/jankurai/src/commands/badge.rs:703-712 | the components of a path, piece by piece between its slashes |
| `ChangedPaths.NormalizeChangedPath` | crates/jankurai/src/audit/mod.rs:1513-1547 | succeeds exactly if the path lies under the root, no prefix climbs above it and the result is nonempty; the result is where the path leads |
| `ChangedPaths.Segments` | crates/jankurai/src/audit/mod.rs:1525-1542 | the stack holds exactly the lexical resolution of what was read, and is given up exactly when a prefix climbs out |
| `ChangedPaths.NormalFormIsStable` | crates/jankurai/src/audit/mod.rs:1513-1547 | a normalised path normalises to itself |
| `ChangedPaths.ScopeTestIsComponentPrefix` | crates/jankurai/src/audit/mod.rs:1468-1477 | on normalised paths the string test holds exactly if one component list is a prefix of the other, so it is symmetric |
| `ChangedPaths.InScopeIff` | crates/jankurai/src/audit/mod.rs:1468-1477 | a path is in scope exactly if that holds for one of the scopes |
| `PathParts.RelatedIff` | crates/jankurai/src/audit/mod.rs:1468-1477 | the string test, by positions |
| `PathParts.RelativeToIs` | crates/jankurai/src/audit/mod.rs:1513-1524 | how a path is taken relative to the root |
| `SaveGate.NoRunAddsHardDebt` | crates/jankurai/src/audit/save_gate.rs:230-259 | over all runs of accepted saves, every hard finding has an original finding with its delta key and at least its rank, exactly if the hard severities are upward closed |
| `SaveGate.RunKeepsForerunners` | crates/jankurai/src/audit/save_gate.rs:230-259 | the invariant along one run |
| `SaveGate.GapLetsDebtIn` | crates/jankurai/src/audit/save_gate.rs:230-259 | with a gap in the hard severities two accepted saves add hard debt |
| `SaveGate.NoAcceptedCritical` | crates/jankurai/src/audit/save_gate.rs:317-322 | no accepted save leaves a critical finding, exactly if critical is one of the hard severities |
| `SaveGate.DefaultIsUpwardClosed` | crates/jankurai/src/audit/save_gate.rs:220-228 | the default hard severities are upward closed and hold critical, so both results apply to them |
| `SaveGate.AcceptedStep` | crates/jankurai/src/audit/save_gate.rs:230-259 | in an accepted save every hard finding was there before, at least as severe |
| `SaveGate.Classify` | crates/jankurai/src/audit/save_gate.rs:230-259 | each bucket holds exactly the findings of its class, in order |
| `SaveGate.BaseMap` | crates/jankurai/src/audit/save_gate.rs:231-236 | the map of a baseline holds the highest rank for each delta key |
| `SaveGate.BaseRankIsHighest` | crates/jankurai/src/audit/save_gate.rs:231-236 | that rank is reached by a finding of the baseline and exceeded by none |
| `SaveDelta.OneKeyIff` | crates/jankurai/src/audit/save_gate.rs:377-389 | findings share a delta key exactly if their effective rules and categories are equal and their problems have the same non-digits in the same order, for rules and categories without the separator |
| `SaveDelta.BarsCanClash` | crates/jankurai/src/audit/save_gate.rs:377-389 | that condition is needed: findings of different rules whose separators clash share a key |
| `SaveDelta.AcceptsIffNoneOffends` | crates/jankurai/src/audit/save_gate.rs:230-259 | a save is accepted exactly if no candidate finding of a failing severity lacks an equally severe match in the baseline, or is critical |
| `SaveDelta.Judge` | crates/jankurai/src/audit/save_gate.rs:317-359 | the whole gate on raw findings: verdict and exit code, with default severities, for rules and categories without the separator |
| `SaveDelta.SevererIff` | crates/jankurai/src/audit/save_gate.rs:392-400 | severity ranks are the order critical, high, medium, low, anything else |
| `SaveGate.Evaluate` | crates/jankurai/src/audit/save_gate.rs:326-359 | blocked exactly in save-gate mode when not accepted; passed exactly if every finding was there before; the exit codes that go with it; `SaveDelta.Judge` states it on raw findings |
| `Outcome.ResolvePolicy` | crates/jankurai/src/audit/outcome.rs:132-161 | an error exactly for scores out of range or unknown severities; otherwise the higher floor and strictly sorted, disjoint severity lists |
| `Outcome.PolicyDependsOnSets` | crates/jankurai/src/audit/outcome.rs:134-143 | order and repetition of severities make no difference to the policy |
| `Outcome.FailAndAdviseAreDisjoint` | crates/jankurai/src/audit/outcome.rs:139-141 | no severity both fails and advises |
| `Outcome.MoreOptionsAreStricter` | crates/jankurai/src/audit/outcome.rs:132-143 | more severities on the command line or a higher requested floor only make the policy stricter |
| `Outcome.WeakeningPassesIff` | crates/jankurai/src/audit/outcome.rs:304-346 | a report that passes under a stricter policy, with more findings, more caps and a lower score, passes without all that exactly if, in the ratcheting modes with a baseline, its score is at most 100 and the baseline has its policy fingerprint or lets it through |
| `Outcome.StrengtheningNeverRescues` | crates/jankurai/src/audit/outcome.rs:304-346 | the consequence: what passes under a stricter policy with more findings, more caps and a lower score passed before, if in the ratcheting modes the policy fingerprint did not change |
| `Outcome.TighteningCanRescueInRatchetMode` | crates/jankurai/src/audit/outcome.rs:311-318 | without that proviso it fails: in ratchet mode tightening to the baseline's own policy turns a failing report into a passing one |
| `Outcome.AssessmentIsHistoryFree` | crates/jankurai/src/audit/outcome.rs:304-382 | re-assessing gives the result of the last call alone |
| `Outcome.EnforcedIffAdvisoryOrPassed` | crates/jankurai/src/audit/outcome.rs:384-408 | of an assessed report enforcement asks exactly: advisory mode, or a passing decision |
| `Outcome.HighestLevelIffConforms` | crates/jankurai/src/audit/outcome.rs:354-378 | level HL3 holds exactly if the conformance decision is pass, and then there are no blockers |
| `Outcome.ReleaseNeverPasses` | crates/jankurai/src/audit/outcome.rs:289-302 | whatever proof is imported, a release whose assessment succeeds neither passes nor reaches HL3, and is blocked unless advisory |
| `Outcome.BlockingFindingBlocks` | crates/jankurai/src/audit/outcome.rs:327-346 | no weak policy passes a report with a critical, high or failing finding anywhere |
| `Outcome.Decide` | crates/jankurai/src/audit/outcome.rs:304-350 | a decision passes exactly for a high enough score, no blocking finding, release proof in release mode and, where the mode ratchets, a baseline the report holds up to |
| `Outcome.LoadBaseline` | crates/jankurai/src/audit/baseline.rs:10-26 | a baseline reads exactly if the file parses and has all required fields |
| `Outcome.LoadedBaselineCompares` | crates/jankurai/src/audit/baseline.rs:10-80 | comparing with a loaded baseline is comparing with the document it came from |
| `Outcome.AuditReport.Assess` | crates/jankurai/src/audit/outcome.rs:304-382 | fills in decision, level, conformance and blockers from the inputs alone, and touches nothing on an error |
| `Outcome.AuditReport.Finalize` | crates/jankurai/src/audit/outcome.rs:284-286 | the same for an assessment that leaves a release incomplete |
| `Outcome.AuditReport.FinalizeRelease` | crates/jankurai/src/audit/outcome.rs:289-302 | adds the imported findings and the release finding, rebuilds the fix queue and assesses; afterwards the decision passes exactly if the assessment failed and an earlier decision passed |
| `Outcome.UnsupervisedRelease` | crates/jankurai/src/audit/mod.rs:1657-1674 | the finding every release gains: hard, with its rule, path, owner and texts |
| `Outcome.AuditReport.CompleteRelease` | crates/jankurai/src/audit/outcome.rs:295-302 | findings are added and the queue rebuilt only if there are any, and then the release is not complete |
| `Outcome.ReleaseThenEnforce` | crates/jankurai/src/audit/outcome.rs:289-408 | finalizing and then enforcing succeeds exactly in advisory mode if the assessment succeeded, and as it did before if the assessment failed |
| `Outcome.FinalizeClean` | crates/jankurai/src/audit/outcome.rs:284-382 | a clean full-scope report under a standard policy passes, conforms and is enforced as a success |
| `Outcome.FailedReleaseStillEnforces` | crates/jankurai/src/audit/outcome.rs:289-408 | such a report finalized with an unreadable baseline gains the release finding, reports the error and is still enforced as a success |
| `Outcome.AuditReport.Enforce` | crates/jankurai/src/audit/outcome.rs:384-408 | when a report lets a command succeed, and which error comes first; for an assessed report exactly in advisory mode or with a passing decision |
| `Outcome.HardCountBounds` | crates/jankurai/src/audit/outcome.rs:256-266 | the count of hard findings is zero exactly if there are none and never exceeds the findings |
| `Outcome.BlockersEmpty` | crates/jankurai/src/audit/outcome.rs:327-342 | no blockers exactly if no finding is critical, high or of a failing severity |
| `HardFindings.CriticalOrHighNeverPasses` | crates/jankurai/src/audit/outcome.rs:304-382 | under any policy a report with a critical or high finding does not pass, and is blocked unless advisory |
| `HardFindings.MildFindingsDoNotBlock` | crates/jankurai/src/audit/outcome.rs:304-382 | findings that are neither critical, high nor of a failing severity block nothing |
| `HardFindings.DecisionPassesIff` | crates/jankurai/src/audit/outcome.rs:255-346 | the exact condition of a passing decision, with modes and severities written out |
| `HardFindings.HighestLevelAsks` | crates/jankurai/src/audit/outcome.rs:347-382 | what the highest and lowest levels, blocking and the advisory status ask for, exactly |
| `HardFindings.BlockersAreNamed` | crates/jankurai/src/audit/outcome.rs:327-346 | the blockers are, in order, the findings that are critical, high or failing |
| `HardFindings.HardCountCounts` | crates/jankurai/src/audit/outcome.rs:255-262 | the recorded count is the number of findings of a failing severity |
| `HardFindings.ModeNames` | crates/jankurai/src/audit/policy.rs:12-32 | the five modes by name, and the standard one without a name |
| `HardFindings.DefaultPolicyAsks` | crates/jankurai/src/audit/outcome.rs:79-166 | what the defaults and the command line add up to: 85 points, and which severities fail and advise |
| `HardFindings.ScoreFloor` | crates/jankurai/src/audit/outcome.rs:229-241 | which floors are accepted and which one counts |
| `HardFindings.OwnComparison` | crates/jankurai/src/audit/outcome.rs:255-282 | what a decision without a baseline records |
| `Ratchet.CompareReportToValue` | crates/jankurai/src/audit/baseline.rs:28-80 | an error exactly for an unreadable baseline or scores out of range; otherwise passes exactly if the report does not fall behind, listing exactly the new caps and hard findings in order; `HardFindings.ComparisonSays` states it on the documents |
| `Ratchet.RequiredStringSet` | crates/jankurai/src/audit/baseline.rs:99-114 | reads exactly arrays of nonblank strings, as sets; otherwise the error of the first bad item |
| `Ratchet.RequiredHardFindingFingerprints` | crates/jankurai/src/audit/baseline.rs:116-140 | reads exactly arrays of valid findings, as the set of critical and high fingerprints; otherwise the error of the first bad item |
| `Ratchet.SavedReportReads` | crates/jankurai/src/audit/baseline.rs:28-80 | a saved report can be a baseline exactly if it is well formed, and then says what the report says |
| `Ratchet.RatchetIsReflexive` | crates/jankurai/src/audit/baseline.rs:28-80 | a report passes against itself exactly if it is well formed |
| `Ratchet.RatchetIsTransitive` | crates/jankurai/src/audit/baseline.rs:28-80 | passing twice in a row is passing against the first, when policy fingerprints are compared directly |
| `Ratchet.ChainNeverFallsBack` | crates/jankurai/src/audit/baseline.rs:28-80 | along any chain of passing comparisons the score never falls and caps and hard findings are subsets of the first report's, even where old policy fingerprints were let through |
| `Ratchet.ChainPassesAgainstAll` | crates/jankurai/src/audit/baseline.rs:28-80 | with one policy the last report passes against every earlier one |
| `Ratchet.BetterReportPasses` | crates/jankurai/src/audit/baseline.rs:28-80 | against one baseline a report with a higher score, fewer caps and fewer hard findings passes too |
| `HardFindings.ComparisonSays` | crates/jankurai/src/audit/baseline.rs:28-80 | on the two documents, with severities written out: the lists hold exactly the critical or high fingerprints and the caps the baseline does not have; passed exactly if both are empty, the score did not fall, the versions are equal, and the policy is equal or let through |
| `HardFindings.BaselineSays` | crates/jankurai/src/audit/baseline.rs:82-152 | what a readable baseline document holds, member by member |
| `HardFindings.HardFindingReadsIff` | crates/jankurai/src/audit/baseline.rs:116-140 | a baseline finding counts exactly if its severity is `critical` or `high`, its flags agree and its fingerprint is well formed |
| `HardFindings.SoftFindingReadsIff` | crates/jankurai/src/audit/baseline.rs:116-140 | and is passed over exactly if its severity is one of the three milder ones |
| `HardFindings.FingerprintIff` | crates/jankurai/src/audit/baseline.rs:142-152 | a fingerprint is `sha256:` and 64 lower-case hexadecimal digits |
| `HardFindings.IntegerReadsIff` | crates/jankurai/src/audit/baseline.rs:82-88 | which integers read, and which are out of range |
| `Shell.QuotersAgree` | crates/jankurai/src/commands/hooks.rs:172-174 | both quoters denote the very word they quote, under section 2.2 of the POSIX Shell Command Language |
| `Shell.ScanQuoted` | crates/jankurai/src/commands/kickoff.rs:937-939 | a quoted value is read as part of one word in any context, whatever characters it holds |
| `Shell.LineReadsBack` | crates/jankurai/src/commands/kickoff.rs:773-802 | a line of plain words and quoted values splits into exactly those words |
| `Shell.ChangedArgsReadBack` | crates/jankurai/src/commands/kickoff.rs:922-928 | the changed arguments split into a flag and a path for each changed path |
| `Shell.CommandsReadBack` | crates/jankurai/src/commands/kickoff.rs:773-813 | with changed paths every printed command splits into its intended argument list, for any repository, intent, base and paths |
| `Shell.TemplatesDoNotReadBack` | crates/jankurai/src/commands/kickoff.rs:759-772 | without changed paths the printed lines are templates whose placeholder the shell would read as a redirection |
| `FixQueue.BuildAgentFixQueue` | crates/jankurai/src/audit/fix_queue.rs:4-26 | the sorting and the loop over seen keys, against the list of representatives |
| `FixQueue.QueueIsCanonical` | crates/jankurai/src/audit/fix_queue.rs:4-26 | of any two entries the earlier stands for the least-priority finding, first in input order among equals, of all findings with either key |
| `FixQueue.QueueIsSortedDedup` | crates/jankurai/src/audit/fix_queue.rs:4-45 | sorted by (tlr, severity, path), with each (path, fix) pair of the findings exactly once |
| `FixQueue.QueueIsUnique` | crates/jankurai/src/audit/fix_queue.rs:4-26 | no other list has that property: it determines the queue |
| `FixOrder.OrderIs` | crates/jankurai/src/audit/fix_queue.rs:28-45 | the order: by topic, by severity, then by path in code point order, with both lists written out |
| `FixOrder.OneTopicIff` | crates/jankurai/src/audit/fix_queue.rs:9-12 | findings share an entry exactly if path and fix are equal |
| `FixOrder.EntriesShowTheirFindings` | crates/jankurai/src/audit/fix_queue.rs:12-24 | each entry shows the fields of its own finding |
| `BoundaryEvidence.Evaluate` | crates/jankurai/src/audit/boundary_reclassification.rs:84-99 | whatever the manifest, globs and evidence, boundaries ending passed, failed or missing evidence cover disjoint files and together count at most the lines of all Python files |
| `BoundaryEvidence.FinalizeWork` | crates/jankurai/src/audit/boundary_reclassification.rs:213-275 | exactly when a boundary is unsupported, invalid, without evidence or passed |
| `BoundaryEvidence.ValidateEvidence` | crates/jankurai/src/audit/boundary_reclassification.rs:374-442 | missing is empty exactly if the evidence speaks of every covered file and required check, failed exactly if nothing it says is wrong, stale or a failure, and both exactly if it vouches for the boundary |
| `BoundaryEvidence.StaleEvidenceDoesNotVouch` | crates/jankurai/src/audit/boundary_reclassification.rs:374-442 | a covered file that changes takes the evidence's word away |
| `Boundaries.BuildWork` | crates/jankurai/src/audit/boundary_reclassification.rs:101-160 | exactly which files are covered, how many lines they have, and when an entry is invalid or unsupported |
| `Boundaries.MarkOverlaps` | crates/jankurai/src/audit/boundary_reclassification.rs:189-211 | in place: exactly the boundaries that share a file, or cover one twice, gain an invalid reason |
| `Boundaries.ValidBoundariesAreDisjoint` | crates/jankurai/src/audit/boundary_reclassification.rs:189-211 | after marking, valid boundaries share no file and none covers a file twice |
| `Boundaries.ValidBoundariesNeverDoubleCount` | crates/jankurai/src/audit/boundary_reclassification.rs:141-152 | the lines of valid boundaries add up to at most the lines of all Python files |
| `BoundaryRules.PathAcceptedIff` | crates/jankurai/src/audit/boundary_reclassification.rs:162-187 | which boundary paths are acceptable, by characters and pieces |
| `BoundaryRules.PathProblemIs` | crates/jankurai/src/audit/boundary_reclassification.rs:162-187 | which of the complaints is made, in their order of precedence |
| `BoundaryRules.CoveredFilesAre` | crates/jankurai/src/audit/boundary_reclassification.rs:101-152 | which files a boundary covers, in order |
| `BoundaryRules.CoveredLinesAre` | crates/jankurai/src/audit/boundary_reclassification.rs:141-152 | its line count counts each line of each covered file once |
| `BoundaryRules.CountedLinesAre` | crates/jankurai/src/audit/boundary_reclassification.rs:84-99 | the lines that count are those of boundaries with the three supported statuses |
| `BoundaryRules.CurrentShaIff` | crates/jankurai/src/audit/boundary_reclassification.rs:485-497 | a recorded hash is current with or without the algorithm's name in front |
| `BoundaryRules.RecordedIsLast` | crates/jankurai/src/audit/boundary_reclassification.rs:374-442 | of several hashes for one file the last counts |
| `BoundaryRules.CheckPassedIff` | crates/jankurai/src/audit/boundary_reclassification.rs:374-442 | a required check passed exactly if its first report says so in one of two words |
| `ContextPack.BuildContextFiles` | crates/jankurai/src/commands/context_pack.rs:395-444 | included and excluded split the candidates in order by a greedy fit, with entries, total and trust counts to match; overflow exactly for the largest budget and estimates adding up past it |
| `ContextPack.GreedyIsMaximal` | crates/jankurai/src/commands/context_pack.rs:419-441 | the total stays within the budget and no excluded file would still fit at the end |
| `ContextPack.GreedyIsUnique` | crates/jankurai/src/commands/context_pack.rs:419-441 | the greedy rule determines which files are included |
| `ContextPack.SelectSplits` | crates/jankurai/src/commands/context_pack.rs:419-441 | no candidate is lost or repeated |
| `ContextPack.CostSplits` | crates/jankurai/src/commands/context_pack.rs:419-441 | every estimate is either spent or saved |
| `ContextPack.LargerBudgetCanDropAFile` | crates/jankurai/src/commands/context_pack.rs:419-441 | maximal is not monotone: a larger budget can drop a file |
| `ContextPack.EstimateGrows` | crates/jankurai/src/commands/context_pack.rs:457-460 | no file is free and appending never makes one cheaper, up to saturation |
| `ContextPack.TotalBump` | crates/jankurai/src/commands/context_pack.rs:425-427 | counting one more file adds one to the sum of the trust counts |
| `PackRules.EstimateIs` | crates/jankurai/src/commands/context_pack.rs:446-460 | a file costs a quarter of its bytes and one for each position where a line starts, at least 1 and at most a machine word; 128 if unreadable |
| `PackRules.TrustIs` | crates/jankurai/src/commands/context_pack.rs:462-480 | the six kinds of trust by what a path starts with, and which takes precedence |
| `PackRules.CandidatesAre` | crates/jankurai/src/commands/context_pack.rs:395-418 | what is considered, each once: all files to read first, all in scope, and the first twelve allowed ones |
| `PackRules.EntriesSay` | crates/jankurai/src/commands/context_pack.rs:419-435 | the entries are the chosen paths in order, each with its own estimate, reason and trust |
| `PackRules.ExcludedSay` | crates/jankurai/src/commands/context_pack.rs:436-441 | the other paths are listed as excluded, in order |
| `PackRules.SummarySays` | crates/jankurai/src/commands/context_pack.rs:425-427 | the summary holds exactly the kinds of trust there are, each with its number of entries |
| `StrictJson.FromSlice` | crates/jankurai/src/strict_json.rs:7-67 | succeeds exactly if no object at any depth repeats a name, and then reads as the ordinary last-wins reader does |
| `StrictJson.VisitMap` | crates/jankurai/src/strict_json.rs:23-31 | the loop over members that stops at a repeated name |
| `StrictJson.VisitSeq` | crates/jankurai/src/strict_json.rs:33-39 | the loop over elements |
| `StrictJson.OrdinaryReaderDropsMembers` | crates/jankurai/src/strict_json.rs:23-31 | the ordinary reader keeps all members of an object exactly if the strict one accepts it |

## Left out

- ProofEvidence.Execute: I/O errors, schema validation, timing, run ids, git state and the optional artifact paths of the index are not modelled; log layout is whatever the shell function returns.
- ProofCheck.VerifyProofEvidence: the order of the issues is not stated, only which there are; reading a file that exists never fails.
- ProofAgreement.EvidenceSoundIffSucceeded: a place is a component list in which `..` is not resolved, so two spellings of one directory through `..` or a symbolic link count as different places; backslash replacement and non-UTF-8 names are not modelled.
- ProofPlan.BuildProofPlan: starts from the normalised changed paths; reason and risk texts are datatypes, and the texts explaining skipped lanes are not modelled.
- Outcome.ResolvePolicy: the policy fingerprint, canonical paths and TOML parsing are not modelled; a report's fingerprint is a field.
- Outcome.AuditReport.FinalizeRelease: which findings imported receipts and evidence lead to is a parameter; that a report gains the release finding is stated without its two texts.
- Outcome.LoadBaseline: size and kind of the file, and changes while it is read, are not modelled; the error for a score out of range is reported after those for other fields.
- Ratchet.CompareReportToValue: the legacy policy fingerprint check, which reads the current policy file, is a parameter.
- BoundaryEvidence.FinalizeWork: artifact summaries and the flag that suppresses Python stack caps are not modelled; what the built-in source checks find is a parameter.
- Boundaries.MarkOverlaps: files are visited in no particular order, so the order of a boundary's overlap messages is not modelled, nor is their wording.
- ContextPack.BuildContextFiles: texts are byte sequences; ownership and zone lookups are parameters.
- Shell.CommandsReadBack: command templates are lists of plain and quoted pieces separated by blanks, which is how the format strings are written; the environment file written by the hooks is not modelled.
- SaveGate.Evaluate: auditing the candidate, to-do comment findings and the decision on exception files are not modelled; the findings are inputs.
- StrictJson.FromSlice: tokenising, syntax errors and non-finite numbers are not modelled.
- Badge.UpsertBadgeBlock: reading, writing and the SVG are not modelled; the check path is the comparison it makes of the README text.
- The fold of caps over the raw score, kickoff grouping, context-pack narratives and the repair, gate, doctor, registry, bench, govern and publish reports: single-branch facts, string assembly or finite tables.
- The path normalisers of `proof.rs` and `kickoff.rs`, which keep interior `.` segments: not claimed to equal the one in `audit/mod.rs`.
- Scanners, the catalog and inventory, score history, glob syntax and JSON schemas, whose code is elsewhere, are not part of this model.
- Spawning git, bash or node, terminal output, progress bars, clocks and argument parsing: I/O.
