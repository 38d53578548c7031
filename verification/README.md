# Verified model of the pgtoolbox operator and its console proxy

This project models, in Dafny 4.11, the state and data logic that sits under the
Kubernetes and HTTP plumbing of pgtoolbox, and proves what that logic keeps over
whole runs. The API server is reduced to the objects it stores (presence, version,
owner and the few fields used); crashes, lagging caches and conflicting writers are
steps of the state machines. `dafny verify dfyconfig.toml` checks everything.

## Contents

| file | models |
|---|---|
| `TokenProtocol.dfy` | the evidence-token lifecycle as a state machine: one reconciler that may crash between any two writes and reads the console through a cache that lags but never goes back, a user who may set the rotate annotation at any time, and a Recreate rollout; its inductive invariant, one lemma for each step |
| `TokenSafety.dfy` | safety over every run: no roll-back, one successor for each request, a safe collector, names that are never minted twice |
| `TokenReconciler.dfy` | the reconcile as methods over stored objects, tied to the protocol's steps, and what it converges to |
| `TokenRequests.dfy` | what becomes of a request made in any state, a reconcile in flight included |
| `TokenLimits.dfy` | that the bounds are reached, and exactly which crash loses a rotation |
| `TokenNames.dfy` | the rotation counter written into a bounded Secret name and parsed back |
| `AdminSync.dfy` | the admin-sync sidecar: per-account convergence with a revision marker written last, over runs with failures at any write |
| `Passfile.dfy` | the pgpass writer against the reading rules of section 34.16 "The Password File" of the PostgreSQL 16 documentation |
| `RateLimiter.dfy` | the per-IP login limiter, sequential and interleaved |
| `Checksum.dfy` | the framed byte stream behind configuration checksums and a decoder for it |
| `ConsoleUsers.dfy` | the bootstrap administrator, user resolution, first-claim-wins deduplication, the rendered list |
| `ProxyConfig.dfy` | levels, defaults, and validation of users and routes |
| `Routing.dfy` | the runtime: user index, exchange sort, route table, the decision to forward |
| `Session.dfy` | sealed session cookies over an ideal authenticated cipher |
| `HotReload.dfy` | the debounced configuration watcher and the runtime served meanwhile |
| `ProxySecret.dfy` | the proxy configuration Secret written by overlapping, conflicting and crashing reconcilers |
| `CatalogLifecycle.dfy` | the finalizer and the cluster-scoped catalog RBAC over one console's life |
| `Sorting.dfy`, `Text.dfy` | in-place sorting by a key, byte order, case folding, decimal text |

Methods follow the code statement by statement and are proved equal to a
specification function or a sequence of protocol steps; the lemmas are about those.

## Where the code and its comments differ

The model follows the code. These comments promise more than the code does, and each
has a lemma that says exactly how much:

- `internal/controller/pgconsole/evidence_token.go:61-68` has the live template save a
  rotation from a crash between its acknowledgement and its status. It does once the
  template has moved; a crash after the acknowledgement and before that loses the
  rotation, and no other crash does (`TokenLimits.RotationSurvivesCrashIff`).
- `internal/controller/pgconsole/evidence_token.go:121-123` clears the annotation only
  after the successor exists. A reconcile on a lagging snapshot that still shows the
  annotation of an earlier request clears one set since, be it before or after that
  reconcile began; its successor does not exist, and the request is lost
  (`TokenRequests.AcknowledgedMovesIff`, `TokenRequests.RequestIsSwallowedIff`,
  `TokenLimits.ReconcileSwallowsIff`).
- `internal/controller/pgconsole/users.go:72-76` has no other object shadow the
  console's administrator. The list is read through the cache: one that does not show
  the administrator yet, or shows it with an earlier subject, renders another claimant
  at its own level (`ConsoleUsers.BootstrapLookupIsDbaOrNothingIff`,
  `ConsoleUsers.UnlistedBootstrapCanBeShadowed`).
- `internal/controller/pgconsole/users.go:109-111` returns unexpected API errors for a
  retry. Any error of reading a password Secret excludes the user instead, the
  reconcile goes on, and the subject passes to the next claimant
  (`ConsoleUsers.FailedReadHandsSubjectOver`, `ConsoleUsers.LookupUnchangedIff`).
- `internal/proxy/config/watch.go:35-38` has the watcher hot-reload the file. It is
  started after the file was loaded and the providers were set up; a change in between
  is not served before the next event (`HotReload.StartupChangeIsLost`,
  `HotReload.UnreadIsPendingIff`).
- `internal/adminsync/sidecar_server.go:470-472` has a part-way failure leave the
  account looking unprovisioned. The marker of an earlier list survives a failed
  attempt at another one, so going back to the earlier list skips the repair
  (`AdminSync.ReturnToRecordedListSkipsRepair`, `AdminSync.SuccessIsExact`).
- `internal/adminsync/sidecar_server.go:423-424` has the file round-trip through
  libpq. A database or user that is the literal `*` is not escaped and matches
  everything (`Passfile.ExactIffNoLiteralStar`).
- `internal/proxy/local/local.go:133-134` calls the limiter a sliding window. The
  window is opened by the first failure and then fixed: an interval of one minute can
  hold 19 recorded failures, and never more (`RateLimiter.FailuresPerInterval`,
  `RateLimiter.BoundIsReached`).

## Model

| member | source | states |
|---|---|---|
| `TokenProtocol.RotationTarget` | internal/controller/pgconsole/evidence_token.go:91-115 | while a reconcile sees the annotation, the successor it computes is within one of the status it saw, not below the live template, and not above one more than the requests made so far |
| `TokenProtocol.ResolutionInRun` | internal/controller/pgconsole/evidence_token.go:79-113 | in every state satisfying the invariant the resolution is the successor of the seen status under the annotation, otherwise the generation the live template references: never an invalid Secret, never a self-heal, never a roll-back |
| `TokenProtocol.DecideKeepsInv` | internal/controller/pgconsole/evidence_token.go:79-115 | choosing the target from a possibly stale snapshot keeps status <= template <= seen status + 1 and the bound by requests |
| `TokenProtocol.MintKeepsInv` | internal/controller/pgconsole/evidence_token.go:166-198 | minting, or finding the Secret already there, keeps the invariant |
| `TokenProtocol.AcknowledgeKeepsInv` | internal/controller/pgconsole/evidence_token.go:120-130 | clearing the annotation after the successor exists, even when it was set again meanwhile, keeps the invariant |
| `TokenProtocol.ApplyDeploymentKeepsInv` | internal/controller/pgconsole/controller.go:389-396 | writing the template keeps the invariant, and a rollout reported complete for it means that every Pod mounts its generation |
| `TokenProtocol.DeleteKeepsMount` | internal/controller/pgconsole/evidence_token.go:205-243 | deleting a superseded Secret leaves every running Pod, and every template a Pod may still be started from, with its Secret |
| `TokenProtocol.PublishStatusKeepsInv` | internal/controller/pgconsole/controller.go:453-458 | publishing status last, as a merge patch against the snapshot, keeps the invariant |
| `TokenProtocol.CompleteRolloutIsUniform` | internal/controller/pgconsole/evidence_token.go:247-251 | once observedGeneration, updatedReplicas and readyReplicas agree under the Recreate strategy, the current template is the observed one and no Pod mounts another generation |
| `TokenProtocol.StartPodKeepsInv` | internal/controller/pgconsole/workload.go:246-249 | a Pod started under Recreate, from whatever template the Deployment controller has seen, keeps every mounted token live |
| `TokenProtocol.StepKeepsInv` | internal/controller/pgconsole/evidence_token.go:75-132 | every step of the user, the reconciler, a crash and the rollout keeps the inductive invariant |
| `TokenSafety.RunKeepsInv` | internal/controller/pgconsole/evidence_token.go:75-132 | the invariant holds in every reachable state |
| `TokenSafety.TemplateNeverRollsBack` | internal/controller/pgconsole/evidence_token.go:61-74 | in every run the generation in the Deployment template never decreases, and status <= template <= newest status seen + 1 |
| `TokenSafety.RequestsAreAsked` | internal/controller/pgconsole/evidence_token.go:79-80 | only the user setting the annotation counts as a request, whatever else writes the console |
| `TokenSafety.MintedAtMostOncePerRequest` | internal/controller/pgconsole/evidence_token.go:69-74 | however many reconciles, stale reads and re-runs see the annotation, no generation above 1 + the number of times it was set ever exists |
| `TokenSafety.MountedTokensAreLive` | internal/controller/pgconsole/evidence_token.go:200-251 | in every reachable state the generation of the template and of every running Pod is a live Secret |
| `TokenSafety.ReferencedIsNotMintedInRun` | internal/controller/pgconsole/evidence_token.go:91-118 | no step of a run creates a Secret under a generation some template has referenced |
| `TokenSafety.ReferencedContentNeverChanges` | internal/controller/pgconsole/evidence_token.go:163-198 | from the time a template names a generation, a Secret found under it later is the one that was there, unchanged |
| `TokenReconciler.Cluster.CreateEvidenceTokenSecret` | internal/controller/pgconsole/evidence_token.go:166-198 | creates an owned Secret with the new token, or leaves the one that exists as it is |
| `TokenReconciler.Cluster.ReconcileEvidenceToken` | internal/controller/pgconsole/evidence_token.go:75-132 | the resolved generation, the Secret minted for it and the acknowledgement are those of the protocol; an invalid Secret is an error and changes nothing |
| `TokenReconciler.Cluster.ReconcileDeployment` | internal/controller/pgconsole/workload.go:722-738 | the live template becomes the desired one, with no new generation when it already matches, and the rollout report is judged on the result |
| `TokenReconciler.Cluster.CollectSupersededTokens` | internal/controller/pgconsole/evidence_token.go:205-243 | removes exactly the owned, listed Secrets other than the active one, and only after a complete rollout |
| `TokenReconciler.Cluster.Deploy` | internal/controller/pgconsole/controller.go:389-400 | template, collection and status leave the stored objects as the protocol steps do |
| `TokenReconciler.Cluster.ReconcileConsole` | internal/controller/pgconsole/controller.go:379-400 | a whole crash-free reconcile on any snapshot leaves the stored objects exactly as the protocol steps do; it stops early only at an invalid Secret |
| `TokenReconciler.DeleteListedRemovesSuperseded` | internal/controller/pgconsole/evidence_token.go:225-241 | the one-at-a-time deletions amount to removing the set of superseded Secrets |
| `TokenReconciler.ReconcileKeepsInv` | internal/controller/pgconsole/controller.go:379-400 | a crash-free reconcile keeps the protocol invariant |
| `TokenReconciler.ReconcileSettles` | internal/controller/pgconsole/evidence_token.go:96-104 | with no request pending, one reconcile on a current snapshot makes status name what the template references and moves no generation except to the first |
| `TokenReconciler.ReconcileRotates` | internal/controller/pgconsole/evidence_token.go:94-131 | with a request pending, one reconcile on a current snapshot acknowledges it and deploys the successor of the published generation; the template moves if and only if its generation had been published |
| `TokenReconciler.RolloutKeepsSettled` | internal/controller/pgconsole/workload.go:246-249 | nothing the rollout or an unrelated writer does unsettles a settled console |
| `TokenReconciler.ReconcileCollects` | internal/controller/pgconsole/evidence_token.go:205-243 | after the rollout, one reconcile leaves the active token Secret and those its cached list does not show, so exactly the active one if and only if the list shows every other; it touches neither template nor console |
| `TokenReconciler.ReconcileDeletesIff` | internal/controller/pgconsole/evidence_token.go:205-251 | of a settled console a reconcile deletes a Secret if and only if it is listed, not the active one, and the Deployment reports of its current generation one updated and one ready replica |
| `TokenReconciler.StartedRolloutIsCollectedIff` | internal/controller/pgconsole/evidence_token.go:247-251 | after the one Pod of the last template is started, the next reconcile leaves exactly the active Secret when the report says one updated and one ready replica, and deletes nothing on any other report |
| `TokenReconciler.ForeignSecretsStay` | internal/controller/pgconsole/evidence_token.go:230-233 | in any state a reconcile neither deletes nor changes a Secret the console does not own |
| `TokenReconciler.ResolutionIs` | internal/controller/pgconsole/evidence_token.go:79-113 | in any state, reachable or not: the successor of the seen status under the annotation; otherwise the larger of seen and deployed generation, reused when its Secret holds a token, an error when that is empty, and followed by the next generation when it is gone |
| `TokenReconciler.MissingSecretHeals` | internal/controller/pgconsole/evidence_token.go:109-118 | a deployed generation whose Secret is gone is replaced by a new Secret of the next one, which template and status then name; the old name is not minted again |
| `TokenReconciler.InvalidSecretStopsReconcile` | internal/controller/pgconsole/evidence_token.go:100-103 | an empty active Secret ends the reconcile before any write |
| `TokenReconciler.SettledReconcileWritesNothing` | internal/controller/pgconsole/workload.go:722-738 | from then on a reconcile changes no stored object |
| `TokenLimits.ReconcileIsARun` | internal/controller/pgconsole/controller.go:379-400 | what the reconcile does is itself a stretch of a protocol run, so the run theorems apply to it |
| `TokenLimits.EveryRequestCanBeServed` | internal/controller/pgconsole/evidence_token.go:94-95 | the bound on minted generations is reached: for every n, n requests can take the template to generation n + 1 |
| `TokenLimits.AskingIsReached` | internal/controller/pgconsole/evidence_token.go:94-95 | the state a rotation starts from is reached after every number of rotations |
| `TokenLimits.StepStaysAlong` | internal/controller/pgconsole/evidence_token.go:61-74 | while nobody asks again, every step keeps the template within one of where the request found it, and unmoved as long as the annotation stands |
| `TokenLimits.PublishedRequestIsServedIff` | internal/controller/pgconsole/evidence_token.go:61-131 | after a request made of a published generation while no reconcile is under way, whatever follows as long as nobody asks again: the next reconcile on a current snapshot deploys its successor if and only if the annotation still stands or the template has moved |
| `TokenLimits.ReconcileSwallowsIff` | internal/controller/pgconsole/evidence_token.go:120-130 | while a request is pending, published generation or not, a whole reconcile on any snapshot loses it for good if and only if the snapshot shows an annotation at an earlier generation than the template names |
| `TokenLimits.EarlierRequestIsShown` | internal/controller/pgconsole/evidence_token.go:120-130 | such a lagging snapshot is reached |
| `TokenLimits.LosingCrashIsReached` | internal/controller/pgconsole/evidence_token.go:126-131 | the crash that loses a rotation is reached |
| `TokenRequests.StepKeepsTargets` | internal/controller/pgconsole/evidence_token.go:79-115 | a reconcile that has seen the annotation stays on its way to the successor of the generation its snapshot shows |
| `TokenRequests.AcknowledgedMovesIff` | internal/controller/pgconsole/evidence_token.go:91-131 | in any run, with requests made at any time: the template write that follows an acknowledgement moves the template if and only if the acknowledging snapshot showed the generation the template named |
| `TokenRequests.RequestIsServedIff` | internal/controller/pgconsole/evidence_token.go:61-131 | for a request pending in any state, a reconcile in flight or not, and whatever follows as long as nobody asks again: it is served by the time the next reconcile on a current snapshot is through if and only if a reconcile that acknowledged it from a snapshot of the deployed generation came as far as the template, or the annotation still stands and the deployed generation is published |
| `TokenRequests.StandsUntilCleared` | internal/controller/pgconsole/evidence_token.go:120-130 | a pending annotation stands until a reconcile acknowledges it or the user withdraws it |
| `TokenRequests.RequestIsSwallowedIff` | internal/controller/pgconsole/evidence_token.go:120-130 | a reconcile about to acknowledge takes along a request made after it began, and loses it for good if and only if its snapshot shows an earlier generation than the template names |
| `TokenRequests.RequestInFlightIsReached` | internal/controller/pgconsole/evidence_token.go:120-130 | the state in which a second request is lost this way is reached |
| `TokenLimits.RotationSurvivesCrashIff` | internal/controller/pgconsole/evidence_token.go:115-131 | the reconcile that takes a request up crashes at any point up to publishing, with the steps of everybody else, short of asking again or withdrawing, falling anywhere: the next reconcile on a current snapshot deploys the requested successor if and only if the crash did not come between the acknowledgement and the template |
| `TokenNames.LastIndexFrom` | internal/controller/pgconsole/evidence_token.go:262-265 | the last occurrence: it matches, and nothing later does |
| `TokenNames.FullNameRoundTrip` | internal/controller/pgconsole/evidence_token.go:255-271 | the counter of an untruncated name is recovered, whatever the console is called |
| `TokenNames.TruncatedNameParsesToZero` | internal/controller/shared/application.go:63-70 | a truncated name parses to 0 whatever the digest |
| `TokenNames.CounterIsRecoveredIffNameFits` | internal/controller/pgconsole/evidence_token.go:253-271 | for every console name, digest and counter from 1 on: the counter is recovered if and only if the full name fits 63 bytes |
| `TokenNames.GenerationsHaveDistinctNames` | internal/controller/pgconsole/evidence_token.go:253-257 | two generations of one console never share a Secret name |
| `TokenNames.NameIsBounded` | internal/controller/shared/application.go:50-70 | a generated name has at most 63 bytes: the full name when that fits, else its first 54 bytes, a separator and the digest |
| `TokenNames.SecretNameReads` | internal/controller/pgconsole/evidence_token.go:255-257 | the text of a token Secret's name: console, -pgconsole-evidence-t and the generation in decimal |
| `TokenNames.CounterIsReadOrZero` | internal/controller/pgconsole/evidence_token.go:259-271 | any name at all gives 0, or a positive number that its text after a separator says |
| `Text.AtoiItoa` | internal/controller/pgconsole/evidence_token.go:255-270 | decimal text of any 64-bit integer parses back to it |
| `Text.AtoiOutOfRange` | internal/controller/pgconsole/evidence_token.go:266-269 | a number outside 64 bits does not parse |
| `Text.AtoiRejects` | internal/controller/pgconsole/evidence_token.go:266-269 | text with anything but digits behind an optional sign does not parse |
| `Text.LessIff` | internal/controller/pgconsole/users.go:81-81 | one string precedes another if and only if it is the shorter of two that agree, or has the smaller byte where they first differ |
| `Text.ToLowerFolds` | internal/controller/pgconsole/users.go:97-97 | folding replaces each upper-case ASCII letter by its lower-case one and changes nothing else |
| `Passfile.Render` | internal/adminsync/sidecar_server.go:347-360 | the file content is one newline-terminated line for each server, in order, and empty for none |
| `Passfile.FileIsOneLineEach` | internal/adminsync/sidecar_server.go:347-360 | the file has as many line ends as servers, ends with one, and is empty for none |
| `Passfile.EscapeIsPerCharacter` | internal/adminsync/sidecar_server.go:435-439 | the two replacements in sequence are one escape for each character |
| `Passfile.UnescapeInvertsEscape` | internal/adminsync/sidecar_server.go:435-439 | unescaping inverts the escape for every string |
| `Passfile.MatchEscapedField` | internal/adminsync/sidecar_server.go:423-439 | a written field is read as one field, whatever colons and backslashes it holds, and matches exactly its own value, or everything when it is the wildcard |
| `Passfile.ReadWrittenLine` | internal/adminsync/sidecar_server.go:425-433 | a written line read back yields its password for exactly the connections it accepts |
| `Passfile.WrittenFileReadsBack` | internal/adminsync/sidecar_server.go:342-371 | the file answers any host, port, database and user with the password of the first server that accepts it, or with none |
| `Passfile.ExactIffNoLiteralStar` | internal/adminsync/sidecar_server.go:423-439 | a written line, read back, answers only its own port, database and user if and only if neither database nor user is the literal * |
| `AdminSync.Sidecar.WritePassfile` | internal/adminsync/sidecar_server.go:342-371 | the credential file of the account is replaced by the rendered one, or left alone when the write fails |
| `AdminSync.Sidecar.LoadServers` | internal/adminsync/sidecar_server.go:271-318 | the account ends with every server of the list in order, or with anything when the import fails |
| `AdminSync.Sidecar.RecordRevision` | internal/adminsync/sidecar_server.go:470-479 | the marker is written, kept, or left truncated |
| `AdminSync.Sidecar.Provision` | internal/adminsync/sidecar_server.go:178-186 | the three writes of one account, in order, up to the first that fails |
| `AdminSync.Sidecar.ConvergeAccount` | internal/adminsync/sidecar_server.go:168-186 | an account recorded with the desired revision is skipped untouched, another one is provisioned |
| `AdminSync.Sidecar.ConvergeAll` | internal/adminsync/sidecar_server.go:168-187 | the accounts are converged in order up to the first failure |
| `AdminSync.Sidecar.Apply` | internal/adminsync/sidecar_server.go:159-192 | a request skips the accounts already recorded with the desired revision, provisions the others until one fails, and writes the combined file last |
| `AdminSync.RevisionReadsBack` | internal/adminsync/sidecar_server.go:461-479 | a fully written marker reads back as the revision, a truncated one as the revision or as something too short to be any |
| `AdminSync.AttemptEffect` | internal/adminsync/sidecar_server.go:178-186 | a failed attempt leaves the old marker, or no valid one, or a true one |
| `AdminSync.AttemptKeepsOthers` | internal/adminsync/sidecar_server.go:419-421 | work on one account touches nothing of an account with another storage directory |
| `AdminSync.FailedAttemptLeaves` | internal/adminsync/sidecar_server.go:178-186 | what a failed attempt leaves of an account recorded with a list: nothing changed, or the content of the attempt under the old revision, or the whole list newly recorded |
| `AdminSync.ConvergeEffect` | internal/adminsync/sidecar_server.go:168-187 | a request, failing anywhere, leaves each account untouched, or at the desired state, or as one failed attempt leaves it |
| `AdminSync.SuccessIsExact` | internal/adminsync/sidecar_server.go:159-192 | after a successful request an account holds exactly the desired credentials and servers if and only if it was not skipped or held them already; the combined file always does |
| `AdminSync.LoadedFieldByField` | internal/adminsync/sidecar_server.go:273-286 | after a successful request that did not skip it, an account has one entry for each server, with that server's name, group, host, port, maintenance database, user and SSL mode each in its own place |
| `AdminSync.DirectoryOfAddress` | internal/adminsync/sidecar_server.go:416-421 | the directory of an email address is the address with an underscore for its sign |
| `AdminSync.SuccessIff` | internal/adminsync/sidecar_server.go:159-192 | a request succeeds if and only if the accounts could be listed, every attempt it made completed and the combined file was written; that file is kept otherwise |
| `AdminSync.RecordedIsHeldIff` | internal/adminsync/sidecar_server.go:461-479 | in every run a recorded revision is true if and only if no failed attempt at another list has, past the credential file, left other content since it was recorded |
| `AdminSync.SuccessConverges` | internal/adminsync/sidecar_server.go:159-192 | in every run a successful request leaves an account at the desired state if and only if it was not spoiled so while the desired revision stayed recorded |
| `AdminSync.ReturnToRecordedListSkipsRepair` | internal/adminsync/sidecar_server.go:175-177 | the exception happens: a three-request run ends in success without the desired state |
| `AdminSync.SharedDirectoryStarvesTheSecond` | internal/adminsync/sidecar_server.go:416-421 | of two accounts mapped to one directory, the second never gets its servers, in any run whose requests list the first before it |
| `AdminSync.RosterConvergesIff` | internal/adminsync/sidecar_server.go:159-192 | every run over a set of accounts delivers on success exactly the unspoiled ones if and only if no two of them share a storage directory |
| `AdminSync.RepeatIsIdle` | internal/adminsync/sidecar_server.go:159-192 | repeating a successful request works on no account and changes nothing |
| `RateLimiter.Limiter.Allow` | internal/proxy/local/local.go:151-159 | lets in an IP with no open window or fewer than the maximum of failures in it |
| `RateLimiter.Limiter.Fail` | internal/proxy/local/local.go:162-171 | counts inside the open window or opens a new one |
| `RateLimiter.Limiter.HandleSubmit` | internal/proxy/local/local.go:82-121 | a submission is refused, rejected unparsed, counted as a failure, or clears the record, in the order the handler checks |
| `RateLimiter.AnswerIs` | internal/proxy/local/local.go:82-121 | a submission signs in if and only if it is let in, parses, names a known user and matches; each other answer by what is the case instead |
| `RateLimiter.LeftBehind` | internal/proxy/local/local.go:102-112 | a sign-in clears the IP, a failure let in is counted in the open window or a new one, anything else changes nothing, and no other IP is affected |
| `RateLimiter.SignInClears` | internal/proxy/local/local.go:112-112 | after a sign-in the next ten submissions of the IP are let in, whatever the others do |
| `RateLimiter.TenFailuresRefuseForAMinute` | internal/proxy/local/local.go:39-43 | after ten failures at one instant an IP is refused for exactly a minute |
| `RateLimiter.RecordsLink` | internal/proxy/local/local.go:151-171 | consecutive recorded failures of an IP either share a window within the maximum, or the later one opens a window no sooner than one length after the last |
| `RateLimiter.FarFailuresAreFarInTime` | internal/proxy/local/local.go:151-171 | two failures 2 * max - 1 apart are at least one window length apart in time |
| `RateLimiter.FailuresPerInterval` | internal/proxy/local/local.go:82-171 | with no successful login in between, every half-open interval of one minute holds at most 19 recorded failures |
| `RateLimiter.BoundIsReached` | internal/proxy/local/local.go:133-171 | a run records 19 failures within one minute |
| `RateLimiter.RefusedOnlyAfterMaxFailures` | internal/proxy/local/local.go:151-159 | an IP is refused only inside a minute in which ten of its own failures were recorded |
| `RateLimiter.OtherIpsDoNotMatter` | internal/proxy/local/local.go:133-178 | the failures recorded for an IP are those of its own submissions alone |
| `RateLimiter.TakeKeepsBudget` | internal/proxy/local/local.go:84-112 | stored count plus submissions in flight stays within budget while the window is open |
| `RateLimiter.InterleavedCount` | internal/proxy/local/local.go:84-112 | with at most n submissions of an IP in flight, in any interleaving, the stored count never exceeds 9 + n |
| `RateLimiter.InterleavedBoundIsReached` | internal/proxy/local/local.go:84-112 | for every n from 1 on, some interleaving with n in flight stores exactly 9 + n |
| `Checksum.Digest.WriteUint64` | internal/render/render.go:63-69 | appends the eight-byte big-endian value |
| `Checksum.Digest.WritePart` | internal/render/render.go:56-61 | appends the length and the bytes |
| `Checksum.Digest.WriteMap` | internal/render/render.go:40-54 | appends the count and the entries in sorted key order, from whatever order the keys were collected in |
| `Checksum.Checksum` | internal/render/render.go:31-38 | the bytes hashed are the version tag and the framed map |
| `Checksum.StreamIgnoresIterationOrder` | internal/render/render.go:40-42 | map iteration order never reaches the digest |
| `Checksum.StreamIsAscending` | internal/render/render.go:33-53 | the stream is the tag pgtoolbox-checksum-v1 behind its length, the number of entries, and the entries in ascending order of their keys |
| `Checksum.Uint64RoundTrip` | internal/render/render.go:63-69 | every 64-bit length is recovered from its eight bytes |
| `Checksum.StreamDecodes` | internal/render/render.go:31-69 | the decoder recovers the map from the stream |
| `Checksum.StreamIsInjective` | internal/render/render.go:31-69 | different maps yield different streams |
| `Sorting.SortInPlace` | internal/render/render.go:48-48 | the array ends as the sorted arrangement of what it held |
| `Sorting.SortIsCanonical` | internal/render/render.go:40-48 | with distinct keys the sorted result is the same for every permutation of the input |
| `ConsoleUsers.UserStore.ReconcileBootstrapAdmin` | internal/controller/pgconsole/bootstrapadmin.go:56-107 | on a current read the administrator ends with the spec the console declares, at level dba, and a matching one costs no write; on a lagging read an existing object is left alone and an update is refused |
| `ConsoleUsers.BootstrapAdminIsDeclared` | internal/controller/pgconsole/bootstrapadmin.go:60-77 | the administrator has the name derived from the console, the subject and password reference the console declares, and level dba |
| `ConsoleUsers.StoredAdminSignsInIff` | internal/controller/pgconsole/bootstrapadmin.go:54-107 | once stored and listed, the administrator's subject is looked up as a user of level dba with its own hash if and only if its password, should it need one, can be read |
| `ConsoleUsers.Deduplicate` | internal/controller/pgconsole/users.go:84-104 | in place, each included user whose subject was claimed before it is excluded; an unrenderable administrator still claims its subject |
| `ConsoleUsers.ResolveConsoleUsers` | internal/controller/pgconsole/users.go:51-107 | the result is the console's users, resolved, ranked with the administrator first, and deduplicated |
| `ConsoleUsers.ProxyUsers` | internal/controller/pgconsole/users.go:161-170 | the rendered list is the included users in rank order |
| `ConsoleUsers.ResolvedIs` | internal/controller/pgconsole/users.go:112-159 | why a user is left out, for each reason, and that an included one keeps its subject and level and gets the hash read for it, or none |
| `ConsoleUsers.RenderedInOrder` | internal/controller/pgconsole/users.go:161-170 | each included user is rendered behind as many as are included before it, and nobody else is |
| `ConsoleUsers.LookupIsListed` | internal/proxy/server/server.go:321-325 | who is found under a subject is listed for the console under it, with the level listed |
| `ConsoleUsers.RankKeyIsTheComparator` | internal/controller/pgconsole/users.go:77-82 | the sort key orders exactly as the comparator does |
| `ConsoleUsers.RenderIgnoresListOrder` | internal/controller/pgconsole/users.go:47-50 | the rendered list is the same for every permutation of the listed users |
| `ConsoleUsers.SubjectsAreDistinct` | internal/controller/pgconsole/users.go:84-104 | rendered subjects are pairwise distinct ignoring case |
| `ConsoleUsers.RenderedUsersValidate` | internal/controller/pgconsole/users.go:51-170 | the proxy accepts the rendered list if and only if no rendered subject is empty |
| `ConsoleUsers.DroppedIffClaimed` | internal/controller/pgconsole/users.go:84-104 | a resolvable user is dropped if and only if a user ranked before it, resolvable or the administrator, has its subject |
| `ConsoleUsers.BootstrapIsFirst` | internal/controller/pgconsole/users.go:72-82 | an object with the administrator's name, when listed, is ranked first |
| `ConsoleUsers.RenderedIsFirstClaimant` | internal/controller/pgconsole/users.go:84-104 | a user is rendered under a subject if and only if it is the first in rank to claim it and not an unrenderable administrator |
| `ConsoleUsers.LookupIsFirstClaimant` | internal/proxy/server/server.go:123-126 | for any subject and any list, the lookup in the runtime is the first claimant of the subject, or nobody when there is none or it is an unrenderable administrator |
| `ConsoleUsers.BootstrapLookupIsDbaOrNothingIff` | internal/controller/pgconsole/users.go:72-94 | for any list, however far it lags: looking the administrator's subject up yields dba or nobody if and only if nobody claims it, or the first claimant has level dba or is an unrenderable administrator |
| `ConsoleUsers.ListedAdministratorGuards` | internal/controller/pgconsole/users.go:72-94 | a list that shows an administrator of the subject at level dba meets that condition |
| `ConsoleUsers.BootstrapSubjectIsDbaOrNothing` | internal/controller/pgconsole/users.go:88-94 | when the list shows an administrator of the subject at level dba, whatever its password reference, every user rendered under the subject has level dba |
| `ConsoleUsers.BootstrapLookupIsDbaOrNothing` | internal/proxy/server/server.go:123-126 | when the list shows such an administrator, looking its subject up in the runtime built from the rendered list yields dba or nobody |
| `ConsoleUsers.UnlistedBootstrapCanBeShadowed` | internal/controller/pgconsole/users.go:72-82 | the administrator must be on the list: missing from it, another user is rendered under its subject at a lower level |
| `ConsoleUsers.LookupWhileReadsFail` | internal/controller/pgconsole/users.go:146-153 | while the reads of some password Secrets fail, any subject is looked up as the first claimant that needs none of them, the administrator keeping its claim and answering as nobody |
| `ConsoleUsers.LookupUnchangedIff` | internal/controller/pgconsole/users.go:139-155 | failing reads leave the lookup of a subject as it was if and only if its first claimant needs none of them, or the next one that needs none is rendered just the same |
| `ConsoleUsers.FailedReadHandsSubjectOver` | internal/controller/pgconsole/users.go:146-153 | one failing read replaces a user of level view by another of level dba under the same subject |
| `Sorting.SortMapped` | internal/controller/pgconsole/users.go:77-82 | a change of the elements that leaves their keys alone commutes with sorting |
| `ProxyConfig.ValidateUsers` | internal/proxy/config/validate.go:204-233 | all problems of all users, in order |
| `ProxyConfig.UsersAcceptedIff` | internal/proxy/config/validate.go:204-233 | no problem if and only if every user is in order and lowercased subjects are pairwise distinct |
| `ProxyConfig.UserProblemsAre` | internal/proxy/config/validate.go:204-233 | each kind of problem is reported of a user if and only if that is what is wrong with it |
| `ProxyConfig.RankPermits` | internal/proxy/config/config.go:49-64 | ranks compare as the named levels permit: view is met by all three, poweruser by two, dba by dba |
| `ProxyConfig.ValidateRoutes` | internal/proxy/config/validate.go:235-270 | all problems of all routes, in order, or the one of an empty list |
| `ProxyConfig.RoutesAcceptedIff` | internal/proxy/config/validate.go:235-270 | no problem if and only if every route is in order, clear of the reserved prefixes, and prefixes are pairwise distinct |
| `ProxyConfig.RouteProblemsAre` | internal/proxy/config/validate.go:235-270 | each kind of problem is reported of a route if and only if that is what is wrong with it, the reserved prefixes by name |
| `ProxyConfig.SetDefaults` | internal/proxy/config/config.go:293-297 | in place, an empty minimum level becomes view and nothing else changes |
| `Routing.BuildIndex` | internal/proxy/server/server.go:123-126 | the index holds the last user under each lowercased subject |
| `Routing.SortRoutes` | internal/proxy/server/server.go:186-193 | the in-place exchange sort yields a length-descending permutation |
| `Routing.BuildRuntime` | internal/proxy/server/server.go:118-195 | a runtime is built if and only if the secrets are usable, with these keys, this index and a length-descending permutation of these routes |
| `Routing.IndexAgrees` | internal/proxy/server/server.go:123-126 | with distinct subjects the index and the list agree, both ways |
| `Routing.IndexIsLast` | internal/proxy/server/server.go:124-126 | of several users with one lowercased subject the last is indexed |
| `Routing.LookupFindsTheListedUser` | internal/proxy/server/server.go:321-325 | for an accepted list, a lookup finds a user if and only if it is listed under that subject ignoring case |
| `Routing.MatchesOfOneLength` | internal/proxy/server/server.go:393-400 | two rooted prefixes of one length that match one path are equal |
| `Routing.PathMatchesIff` | internal/proxy/server/server.go:393-400 | the root matches every path, any other prefix exactly itself and what lies below it |
| `Routing.MatchRouteIsLongest` | internal/proxy/server/server.go:383-391 | for an accepted list in any order, the first match is the unique longest matching prefix, and there is none exactly when nothing matches |
| `Routing.RouteOrderDoesNotMatter` | internal/proxy/server/server.go:186-193 | any two length-descending arrangements answer every path alike |
| `Routing.ForwardedIff` | internal/proxy/server/server.go:336-371 | a request is forwarded, to that route and under that identity, if and only if the session is valid and its level, by name, is permitted what the longest matching route demands |
| `Routing.EveryAnswer` | internal/proxy/server/server.go:336-371 | every request is answered by the longest matching route and the session: not served, sent to the login, refused, denied as unknown or as known, or forwarded |
| `Routing.UnknownLevelIsNeverForwarded` | internal/proxy/server/server.go:353-368 | an empty or unknown level is never forwarded |
| `Session.NewCodec` | internal/proxy/session/session.go:65-78 | one key for each secret in order, or an error for no secret or an empty one |
| `Session.Open` | internal/proxy/session/session.go:107-135 | a box opens if and only if some key of the list sealed it; each malformed value has its own error |
| `Session.OpensAs` | internal/proxy/session/session.go:107-135 | each of the five outcomes, by what the cookie is |
| `Session.ValidIff` | internal/proxy/session/session.go:147-151 | a session is valid before the second of its expiry begins and not from then on |
| `Session.MintedIsValidIff` | internal/proxy/session/session.go:137-151 | a session minted for some time carries what it was minted with and is valid for that time, short of the fraction of a second it ends in |
| `Session.SealedReadsBackIff` | internal/proxy/session/session.go:53-57 | a session sealed under one key list reads back unchanged under another if and only if that one holds the sealing key and the session is valid |
| `HotReload.Watcher.Reload` | internal/proxy/config/watch.go:105-120 | a file that loads replaces what is served; one that does not changes nothing |
| `HotReload.Watcher.Handle` | internal/proxy/config/watch.go:75-93 | one input moves timer and served configuration as the specification says |
| `HotReload.Watcher.Run` | internal/proxy/config/watch.go:64-95 | up to the input that ends the loop, timer and served configuration are those of the turn-by-turn specification and the runtime serves that configuration; cancellation stops the loop and a closed channel fails it |
| `HotReload.StepKeepsInv` | internal/proxy/config/watch.go:64-120 | file changes, events, clock, timer and reloads keep the watcher's invariant |
| `HotReload.NoChangeIsLost` | internal/proxy/config/watch.go:64-95 | in every run in which reloads can read the file, a change made under the watch and not read yet has a relevant event waiting or a timer pending |
| `HotReload.PendingIff` | internal/proxy/config/watch.go:64-95 | in every run the last content that loaded is what is served, and a reload is on its way if and only if some relevant event had not reached the loop when the timer last fired |
| `HotReload.UnreadIsPendingIff` | cmd/proxy/main.go:67-124 | in every run from the initial load in which reloads can read the file, an unread change leads to a reload if and only if a relevant event was raised since the watch was added |
| `HotReload.LostStaysLost` | internal/proxy/config/watch.go:64-95 | with no reload on its way, nothing but a new relevant event ever changes what is served |
| `HotReload.StartupChangeIsLost` | cmd/proxy/main.go:67-121 | a change between the initial load and the watch is lost: the old configuration is served with no event and no timer pending |
| `HotReload.DeliveredEventIsPending` | internal/proxy/config/watch.go:66-84 | a delivered relevant event has a timer pending until a reload |
| `HotReload.ReloadWaitsForQuiet` | internal/proxy/config/watch.go:31-72 | a timer that fires was set for one second after the last relevant event, and a reload comes no earlier |
| `HotReload.QuietMeansServed` | internal/proxy/config/watch.go:64-120 | when events and timer are worked off, a file that loads is what is served, provided it was changed only under the watch or a relevant event was raised since |
| `HotReload.SessionsOutliveReloads` | cmd/proxy/main.go:109-119 | across any reloads a session reads back, unchanged, if and only if the later configuration lists the first secret of the earlier one and it has not expired |
| `HotReload.ServedForwardsIff` | cmd/proxy/main.go:109-119 | in every run the served runtime forwards a request, to that route and under that identity, if and only if its session is valid and reaches the longest matching route of the last configuration that loaded, and never at an empty or unknown level |
| `ProxySecret.RenderedRoutesValidate` | internal/controller/pgconsole/proxyconfig.go:102-165 | the rendered routes always pass the proxy's own validation |
| `ProxySecret.RenderSucceedsIff` | internal/controller/pgconsole/proxyconfig.go:88-175 | a configuration is rendered if and only if a provider is enabled and valid, the key is long enough, the pgAdmin level is usable and no rendered subject is empty |
| `ProxySecret.RenderedConfigIs` | internal/controller/pgconsole/proxyconfig.go:94-165 | a rendered configuration holds the given key, users and providers, the console at the root for level view, and pgAdmin for the named level or dba |
| `ProxySecret.SecretStore.Update` | internal/controller/pgconsole/proxyconfig.go:276-278 | an update is refused when another write came first |
| `ProxySecret.SecretStore.ReconcileProxyConfigSecret` | internal/controller/pgconsole/proxyconfig.go:225-305 | from a possibly stale read: the result, and the one write or none, that the protocol commits |
| `ProxySecret.DecisionIs` | internal/controller/pgconsole/proxyconfig.go:230-304 | what is decided, by what is the case: an issue, an error for a Secret not owned, a create, an update if file or key differs, or nothing |
| `ProxySecret.OnlyOwnedIsWritten` | internal/controller/pgconsole/proxyconfig.go:262-279 | no write goes to a Secret the console does not own, or to a version other than the one read |
| `ProxySecret.StepKeepsKey` | internal/controller/pgconsole/proxyconfig.go:245-279 | no step of any reconciler or foreign writer replaces a stored key |
| `ProxySecret.SessionKeyIsNeverReplaced` | internal/controller/pgconsole/proxyconfig.go:219-224 | under any interleaving, conflict, crash and change of spec or users, a stored non-empty session key stays |
| `ProxySecret.WriteStoresKey` | internal/controller/pgconsole/proxyconfig.go:249-279 | a successful reconcile leaves a non-empty key and the file rendered with that very key |
| `ProxySecret.RepeatWritesNothing` | internal/controller/pgconsole/proxyconfig.go:267-270 | a repeat with unchanged inputs, whatever key it would draw, writes nothing and yields the checksum of the same file |
| `CatalogLifecycle.Cluster.DeleteCatalogClusterRBAC` | internal/controller/pgconsole/rbac.go:464-472 | neither object is left |
| `CatalogLifecycle.Cluster.ReconcileRBAC` | internal/controller/pgconsole/rbac.go:438-518 | with the capability off neither object is left; with it on an object is written unless the cache shows it already |
| `CatalogLifecycle.Cluster.ReconcileConsole` | internal/controller/pgconsole/controller.go:155-188 | a crash-free reconcile on any snapshot leaves console and objects as the protocol steps do |
| `CatalogLifecycle.UserStepKeepsInv` | internal/controller/pgconsole/controller.go:155-172 | creation, edits, deletion and other writes keep the lifecycle invariant |
| `CatalogLifecycle.RbacStepKeepsInv` | internal/controller/pgconsole/rbac.go:438-472 | creating or deleting the objects from a lagging snapshot keeps the invariant |
| `CatalogLifecycle.FinalizerStepKeepsInv` | internal/controller/pgconsole/controller.go:166-172 | adding or removing the finalizer, conflicts included, keeps the invariant |
| `CatalogLifecycle.CatalogImpliesFinalizer` | internal/controller/pgconsole/controller.go:159-163 | in every reachable state an existing catalog ClusterRole or binding implies that the console exists and carries the finalizer |
| `CatalogLifecycle.CapabilityOffLeavesNothing` | internal/controller/pgconsole/rbac.go:438-440 | in every run a reconcile that came through with the capability off leaves neither object |
| `CatalogLifecycle.ReconcileConverges` | internal/controller/pgconsole/rbac.go:438-445 | an accepted console ends with both objects or with none, as its spec says, if and only if the cache shows no object as present that is gone; the console is not written |
| `CatalogLifecycle.ReconcileReleases` | internal/controller/pgconsole/controller.go:155-167 | a console being deleted is released on its current version, with both objects gone, and kept on a lagging one |

## Left out

- Evidence disabled and enabled again, console names too long for an untruncated token Secret name, and Secrets or the Deployment deleted by somebody else: the generation counter is reset, unreadable or rolled back there, so the token theorems cover one enabled stretch with names that fit and no such deletion. The self-heal branch is in `Resolve` and in the method, but no run of the protocol takes it.
- The Deployment controller and the kubelet are taken to follow the Recreate strategy, to observe templates in order, and to count only started Pods as updated; counts may lag.
- TokenReconciler.Cluster.ReconcileConsole: covers the part of a reconcile that touches the token; the other writes of a reconcile appear as steps of other writers. The template's remaining content is one number, and matching it is equality.
- TokenProtocol.DecideKeepsInv: makes the reads of the Deployment and of the Secret one step; nothing but this reconciler changes their answer.
- AdminSync.SuccessConverges: assumes that the accounts of a run have distinct storage directories (`RosterConvergesIff` shows that this is needed) and that the lists of the run have distinct fingerprints, SHA-256 itself not being modelled; a storage directory stands for its path as text, so path cleaning of account names is not captured. Directory creation and the temporary files before each rename count as part of the write they belong to.
- Passfile.WrittenFileReadsBack: fields are free of NUL, CR and LF, as a field of the file must be; the reader is the documented format, with its wildcard, and not libpq's C code, its line-length handling, or its defaults for host and port.
- RateLimiter.InterleavedCount: an entry is a value of the map, not a shared pointer; the mutex makes each of allow, fail and reset one step.
- RateLimiter.FailuresPerInterval: assumes a clock that does not go back, as the monotonic clock reading in Go gives.
- ConsoleUsers.UserStore.ReconcileBootstrapAdmin: labels and owner references are not modelled; a cached version is current or not, and any failing read is absent.
- ConsoleUsers.ResolveConsoleUsers: reading a password Secret is a function of the reference (a hash, or one of three failures); a failing list call, which ends the reconcile, is not modelled. The standard library's sort is the insertion sort of `Sorting`; names are distinct, so the result is the same.
- Case folding is ASCII.
- ProxyConfig.RoutesAcceptedIff: whether a string is an absolute http(s) URL, and whether one is a bcrypt hash, are answers of a library. Validation of session, server, provider and access-request settings is a parameter or absent.
- ProxyConfig.SetDefaults: of the defaults, only the minimum level of a route is modelled; the others are constants for empty settings no property here depends on.
- Routing.BuildRuntime: the reverse proxy, its headers and its transport are represented by the route and the identity it forwards under; routes are values. An upstream that fails to parse was rejected by validation.
- Session.SealedReadsBackIff: the cipher is ideal, a box opening only under the key that sealed it, and key derivation is injective; JSON round-trips. Cookie attributes and CSRF tokens are absent.
- HotReload.UnreadIsPendingIff: every change of the file under the watch is taken to raise a relevant event, which is what the file system notifies; the runs are those of a loop that has not been ended. A reload that cannot read the file is covered by `PendingIff` only.
- ProxySecret.SessionKeyIsNeverReplaced: other writers may rewrite the file and the metadata but not the key, and do not delete the Secret. YAML is faithful, so the file stands for the configuration in it and for its checksum.
- ProxySecret.RenderSucceedsIff: the settings of the OIDC and OpenShift providers and their validation are one flag.
- CatalogLifecycle.CatalogImpliesFinalizer: covers one life of one console; two consoles whose namespace and name join to one catalog name are not covered. Roles that carry owner references are absent.
- CatalogLifecycle.UserStepKeepsInv: no writer of the console other than the reconciler removes its finalizer; one that did would leave the objects unguarded.
- CatalogLifecycle.FinalizerStepKeepsInv: the console carries no other finalizer, so that it goes with this one; with another it would stay, without this finalizer and already free of the objects.
- CatalogLifecycle.Cluster.ReconcileConsole: everything between reading the console and its RBAC, which may end the reconcile, is one flag of the console.
- OIDC and OpenShift providers, pages, the access-request reconciler, exposure, image resolution, evidence composition and the builders of Pods, Services, claims and routes.
