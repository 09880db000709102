# Verified model of the Belune control plane

Belune is a self-hosted control plane written in Go. This project models its state-changing cores in
Dafny and proves what they keep over all inputs, all runs and all interleavings.
`dafny verify dfyconfig.toml` checks everything.

| files | core |
|---|---|
| `EnvPin`, `RollbackHint`, `UpdateProtocol`, `UpdateAnswers`, `UpdateSafety`, `UpdateRevert`, `Updater` | the self-updater, `apps/api/cmd/update` |
| `DomainRules`, `DomainTable`, `DomainLaws`, `DomainHandlers` | the domains table, `apps/api/internal/handler/domains.go` |
| `StatusRules`, `StatusHistory`, `Watcher`, `StatusLaws` | the container watcher, `apps/api/internal/eventwatcher/watcher.go` |
| `Keyring`, `Rewrap` | envelopes and key rotation, `apps/api/internal/pkg/crypto/keyring.go`, `apps/api/cmd/rewrap/main.go` |
| `Sorting`, `EnvVars` | whole-set replacement of environment variables, `apps/api/internal/handler/envvars.go` |
| `DiskUsageCache`, `UpdateProbe` | two small concurrent caches, `docker.go` and `update_probe.go` of the handler package |
| `Settings`, `SettingsLaws`, `BackupTarget` | the settings endpoint and the backup target text, handler package |
| `Base`, `Text` | the option type and the string functions of the Go library the code uses |

Where the Go code changes things step by step the model does too: classes with the source's fields,
loops with invariants, early returns in the source's order. Each method is proved equal to a
function, or to one step of a transition relation, and the lemmas are about those. The `Laws` files say
what those functions come to on literal inputs: Docker's actions and states, the columns of a request,
the values of a setting.

## How each core is modelled

**Self-updater.** `UpdateProtocol` is the protocol: which step may follow which, and what each does to
a disk (a map from path to content, plus the set of backup directories that exist). Every step can
fail; a copy can be whole, refused, or cut short after any number of characters. The infra files are
any list of distinct names. `Updater` is the program: every call out asks an oracle, and each method
records only events the protocol allows, so what holds of all traces holds of all runs; runs that
must exist are exhibited as runs of the program itself. `UpdateSafety` and `UpdateRevert` hold the
theorems about traces. `UpdateAnswers` says what each event tells of the answers it drew: a run uses them
up one event after the other, so a step is reported to have succeeded only when the world said so, and a
run that ends updated has carried out every task on the list. `RollbackHint` reads the printed sed line as the POSIX shell and sed do.

**Domains.** `DomainTable.Step` is one request against the table, with the answers of the database,
the proxy and the authorisation checks as a parameter; `DomainHandlers` is the handlers as they run,
each proved to be that step.

**Watcher.** `StatusRules` has the two automata and the reconciler's verdicts. `StatusHistory` gives
the status after any mix of container events and reconciliation samples in closed form. `Watcher`
has the index loop, the pass over the rows and the event dispatch, over stored tables, and carries
the closed forms over to any run of events and passes, with whatever fails on the way.

**Rotation.** `Keyring` has the byte layout of an envelope over an abstract authenticated cipher, of
which only "opening undoes sealing, and a seal adds a 16-byte tag" is used. `Rewrap` has the loops.

**Caches.** Each section under a lock is one step; callers and the refresher interleave freely.

## What the code does not do

Each of these is proved, with the exact condition or a concrete input.

- The updater's revert is not always exact. A backup directory left by an earlier run of the same
  version, holding other content than the live files, is written back by a failure that comes before
  it is refreshed. `UpdaterProgram.RevertAlwaysExactIff` makes that run: its restore reports success,
  and it is exact if and only if the directory found, when there is one, agrees with the files found.
  A backup copy cut short is written back too (`UpdaterProgram.CutSaveIsWrittenBack`), and the updater
  still says that it restored.
- After a restore the updater says that nothing has changed. Of the whole install that is so if and only
  if, besides, nothing was put, or written back from the directory, where the run had found no file
  (`RestoredInstallIff`): a shipped file that is new to the install stays. `NothingNewSuffices` has what
  can be checked before the run.
- Running the updater again with a version spelt bare does not stop at "already on" when the bare
  version itself begins with a `v`, nor when there is no version (`SecondRunSpellings`).
- The printed rollback restores `.env` exactly if and only if all its pin lines were one text and the
  image named there holds no `'`, `&`, `\` or `|` (`RestoresEnvIff`, `RollbackHintWorks`). A value that
  `.env` quotes comes back without its quotes (`QuotedImageComesBackBare`).
- `normalizeDomainPath` is documented never to return the empty path; it does for two or more
  slashes alone (`NormalizedPathEmptyIff`). Validation then refuses it.
- A failed add leaves its row when the application does not resolve, or when both the route and the
  deleting of the row fail, and in no other case: failed requests other than those can be struck out
  of any run (`FailuresLeaveNoTrace`). When the listing of a hostname's rows fails, the agreement
  check is skipped (`FailedListingBreaksAgreement`). A run keeps the rows in agreement throughout if and
  only if each request whose listing fails is a remove, or changes nothing, or would have been accepted
  with the listing (`AlwaysSoundIff`).
- A container event that finds the stored status unreadable skips its guard. A stop followed by its
  die ends stopped if and only if the die can read the status or its exit code is no crash
  (`StopIsStoppedIff`); `TaskOwnedKeptIff` is the same for a database a task owns.
- A blob sealed before the keyring existed is taken for an envelope when its nonce happens to begin with
  the five magic bytes and it holds 66 bytes or more (`LegacyLooksLikeEnvelopeIff`).
- A client that sends a listing of environment variables back overwrites with the empty text every
  non-secret variable that cannot be decrypted (`ListingSavedBackIff`). The comment in `envvars.go`
  says that the listing sends a mask for secrets; the code sends no value.
- The settings writes are not one transaction. Wherever the writes of a request may stop the
  dashboard can be served, if and only if no prefix of the request predicts otherwise
  (`HalfWritesWholeIff`); accepted requests do fail that (`HalfWrittenBreaks`), and every accepted
  request that names no key twice has a setting which, put first, mends it (`SafeOrderExists`). The
  endpoint's error text for a TLS mode names three modes; the code also accepts `dns_challenge`. Its error
  texts limit two names in characters; the code counts bytes (`NamesIff`).
- A backup target whose only name is `*`, or one of whose names holds a comma, does not read back
  (`PrintThenParseIff`); a stored target that lists nothing turns into all databases when it is saved
  back (`ParseThenPrintIff`).
- The time since the start that a client is told can go back. Take an update at whose guard no reading
  of an earlier helper is fresh in the cache, and whose own helper every listing shows from its recording
  on, in this process and in the one that replaces it. Then the time can go back if and only if one of
  these is so (`NeverGoesBackIff`, with a run for each):
  - The helper replaces the API process, as every update does that succeeds, and Docker's whole second
    for the helper comes after the start of the pull. The new process does not know that start and tells
    the time since the helper was made: what is lost is the time of the pull (`ReplacedGoesBack`).
  - The start stored before the guard was taken is a second or more older than the one stored after
    it. It is 0 in a fresh process and after a failed attempt, and it is the earlier attempt's when
    that one's helper started and died. A client that asks in between is told the time since then: since
    1970, or since the earlier attempt (`WindowGoesBack`).
  - The helper was made in the second in which the pull began. Docker tells in whole seconds when it
    was made, so it is reported as made before the pull, and the clock is not handed over
    (`SecondGoesBack`).
  - The helper was recorded later than the pull timeout after the start, and the clock restarts there
    (`LateGoesBack`).
  - An attempt that failed has released the guard, but clears the stored start only after the next
    attempt has stored its own (`ClearGoesBack`).

  `NeverBackByMore` says by how much. The attempt that failed also releases the guard a second time
  when it returns. If the guard is the next attempt's by then, that one's pull is hidden: every client
  whose question Docker answers is told of the update, if and only if no such attempt is left
  (`AlwaysToldIff`).

## Model

| member | source | states |
|---|---|---|
| EnvPin.ReadCurrentImage | apps/api/cmd/update/update.go:619-630 | The loop finds the text after the first pin line's `=`, and nothing when no line is a pin |
| EnvPin.MoveLines | apps/api/cmd/update/update.go:644-651 | The in-place loop replaces exactly the pin lines and reports whether there was one |
| EnvPin.RewritePin | apps/api/cmd/update/update.go:638-680 | The rewritten text, with the appending branch, as a function of the old one |
| EnvPin.RepinLines | apps/api/cmd/update/update.go:638-680 | Line count and every line that is no pin survive; every pin line becomes the new pin |
| EnvPin.CurrentImageAfterRepin | apps/api/cmd/update/update.go:619-680 | The image read back after a rewrite is the one written, if and only if it holds no newline |
| EnvPin.RepinTwice | apps/api/cmd/update/update.go:638-680 | Of two rewrites only the second counts; so a rewrite is idempotent |
| EnvPin.FirstPinIsFirst | apps/api/cmd/update/update.go:619-630 | The image read is that of the first pin line |
| EnvPin.PinLinesName | apps/api/cmd/update/update.go:638-669 | After an update every pin line is the new pin and every other line is the old one |
| EnvPin.PinOfVersion | apps/api/cmd/update/update.go:270-276 | The new pin names the image of the version, with one leading v dropped |
| RollbackHint.RestoresEnvIff | apps/api/cmd/update/update.go:750-757 | The printed line, as the shell and sed read it, gives the old `.env` back if and only if all its pin lines were one line and the image in it has no quote, ampersand, backslash or bar |
| RollbackHint.QuotedImageComesBackBare | apps/api/cmd/update/update.go:755 | An image that `.env` keeps between single quotes comes back without them |
| RollbackHint.AmpersandComesBackAsMatch | apps/api/cmd/update/update.go:755 | An ampersand in the image comes back as the pin line that stood there |
| RollbackHint.EscapeIsLost | apps/api/cmd/update/update.go:755 | A backslash before an ampersand, a backslash or a bar is lost and the character itself comes back |
| RollbackHint.BarIsNoScript | apps/api/cmd/update/update.go:755 | A bar in the image makes the printed line no substitution at all |
| EnvPin.SecondRunStops | apps/api/cmd/update/update.go:255-284 | After a rewrite the same argument is "already on", if and only if its version holds no newline and no colon |
| EnvPin.SecondRunSpellings | apps/api/cmd/update/update.go:270-284 | With a `v` put in front it stops always; spelt bare it stops there if and only if there is a version and it does not begin with a `v` |
| UpdateProtocol.CopyBack | apps/api/cmd/update/update.go:796-807 | What `cp -a` of the backup directory leaves: its files over the live ones, all else untouched |
| UpdateSafety.StepKeeps | apps/api/cmd/update/update.go:333-491 | Every step, failed or not, keeps the invariant of its phase on `.env`, live files, staged files and backups |
| UpdateSafety.TraceKeeps | apps/api/cmd/update/update.go:333-491 | The invariant holds after every trace |
| UpdateSafety.NothingChangesBeforeConsent | apps/api/cmd/update/update.go:333-373 | Before any event that alters `.env` or a live file, every infra file was fetched whole and a backup was taken or the question about going on without one was answered yes; `UpdaterProgram.Updater.Run` says who can have answered |
| UpdateSafety.UpAndRevertExclude | apps/api/cmd/update/update.go:491-515 | `docker compose up -d` and the revert never both occur, in either order, and the revert occurs at most once |
| UpdateSafety.RefusedChangesNothing | apps/api/cmd/update/update.go:333-385 | Every run up to the moving of the pin has left `.env` and the live files as they were |
| UpdateSafety.CommittedInstallIsNew | apps/api/cmd/update/update.go:385-491 | Past the point of no return the pin and every infra file are the new ones and every other file is as it was |
| UpdateSafety.RollbackHintWorks | apps/api/cmd/update/update.go:750-757 | The printed `cp -a` restores every infra file that existed; the printed sed line restores `.env` if and only if it held one pin text whose image the shell and sed read as it stands |
| UpdateSafety.RestoredHas | apps/api/cmd/update/update.go:769-807 | The live files after any successful restore: the last backup copy where one was written back, else the original |
| UpdateSafety.RevertExactIff | apps/api/cmd/update/update.go:769-807 | A successful restore gives `.env` back; it gives all live files back if and only if the copies written back were the originals |
| UpdateRevert.AgreeingBackupSuffices | apps/api/cmd/update/update.go:393-418 | With an agreeing older backup directory and whole backup copies every successful restore is exact, whichever step failed |
| UpdateRevert.RestoredInstallIff | apps/api/cmd/update/update.go:769-807 | After a successful restore the whole install is the old one if and only if the copies written back were the originals and nothing was placed or written back where the run found no file |
| UpdateRevert.NothingNewSuffices | apps/api/cmd/update/update.go:769-807 | So it is, whichever step failed, when the older directory agrees and holds no file that the install lacks, no shipped file is new, and the backup copies are whole |
| UpdateRevert.StuckIsRecoverable | apps/api/cmd/update/update.go:769-807 | After a restore that failed, the place the operator is sent to has what is needed: the backup of `.env` is the old one, and with an agreeing older directory and whole copies every original file is in place or in the backup directory |
| UpdaterProgram.RevertAlwaysExactIff | apps/api/cmd/update/update.go:393-418 | On every install with an update to do there is a run of the program whose restore reports success, and which is exact if and only if the backup directory found agrees with the files found; with `Run`, every restored run is exact on agreeing installs only |
| UpdaterProgram.CutSaveIsWrittenBack | apps/api/cmd/update/update.go:399-405 | On every install with an update to do and a first infra file, a run of the program writes a backup copy cut short at any length over the file it was to protect, and reports success |
| UpdaterProgram.ReadLine | apps/api/cmd/update/update.go:705-724 | The line up to the newline with blanks trimmed, nothing consumed past it; a line cut short by the end of input is an error |
| UpdaterProgram.Updater.CopyTo | apps/api/cmd/update/fsops.go:88-113 | The destination is untouched, whole, or the source cut short; a missing source touches nothing |
| UpdaterProgram.Updater.Stage | apps/api/cmd/update/update.go:333-341 | All infra files are staged, or the run is refused |
| UpdaterProgram.Updater.BackUp | apps/api/cmd/update/update.go:343-373 | The run goes on only with a backup taken or a yes from a terminal |
| UpdaterProgram.Updater.AskContinueWithoutBackup | apps/api/cmd/update/update.go:687-703 | It lets the run go on if and only if there is a terminal and the line typed is y or Y |
| UpdaterProgram.Updater.SaveEnv | apps/api/cmd/update/update.go:377-380 | The revert is armed exactly when the copy of `.env` is whole |
| UpdaterProgram.Updater.MovePin | apps/api/cmd/update/update.go:638-680 | The pin moves through a temporary file: `.env` is the old text or the new one, and a failure leads to the revert |
| UpdaterProgram.Updater.SwapInfra | apps/api/cmd/update/update.go:397-418 | The loop saves and swaps every infra file, or ends in the revert |
| UpdaterProgram.Updater.WaitForHealth | apps/api/cmd/update/update.go:529-543 | It succeeds at the first healthy poll and gives up when the limit is reached, having slept as long as the polls say |
| UpdaterProgram.Updater.AwaitReady | apps/api/cmd/update/update.go:529-543 | The run goes on as ready if and only if one of forty-five polls succeeds, after polls that all failed without a panic |
| UpdaterProgram.Updater.Restore | apps/api/cmd/update/update.go:796-807 | It reports success exactly when the run ends restored; the pin goes first, the infra set only when its directory is there |
| UpdaterProgram.Updater.RetireTimer | apps/api/cmd/update/update.go:553-571 | A timer that cannot be disabled is no failure, one that cannot be removed ends with 1 and a failed reload with its own status |
| UpdaterProgram.Updater.OnExit | apps/api/cmd/update/update.go:769-787 | It drops the staging directory if there is one, restores if and only if the window is open and the run failed, and disarms |
| UpdaterProgram.Updater.Run | apps/api/cmd/update/update.go:237-591 | Exactly which runs get as far as an update; such a run is a trace of the protocol from the disk it found to the disk it leaves, each event of which tells what its own answers were; exit code 0 is already-on or updated, any other is 1 or the status of a failed unit reload, and an updated run has done every task in order; what a refused, restored, stuck, broken or updated run leaves; a waived backup was waived by a y or Y typed on a terminal; when nothing fails, every file is shipped and the ids are usable, the run ends updated with code 0 |
| UpdateAnswers.EventDrew | apps/api/cmd/update/update.go:237-591 | Each event of a run tells what the answers it drew were, and no answer is drawn twice |
| UpdateAnswers.UpdatedMeansHealthy | apps/api/cmd/update/update.go:281-543 | A run that ended updated drew a success from the pull, from `docker compose up -d`, and from the last of at most forty-five polls before which all failed |
| UpdateAnswers.YesIsTyped | apps/api/cmd/update/update.go:687-724 | Of one character between spaces and tabs a y or a Y is a yes and no other |
| UpdateAnswers.OthersAreNoYes | apps/api/cmd/update/update.go:687-724 | No character, several, and a line without an end are no yes |
| UpdateAnswers.ContainsIff | apps/api/cmd/update/update.go:357-362 | backup.sh gets the flag when its text has it somewhere |
| UpdaterProgram.Updater.Resolve | apps/api/cmd/update/update.go:240-284 | For each early ending, and for going on, the exact installs and arguments that lead to it; and the plan of an update that goes on |
| UpdaterProgram.SecondRunFindsItDone | apps/api/cmd/update/update.go:281-284 | After an update the same argument is found already on, unless its version holds a newline or a colon |
| DomainRules.HostnameIsNoWildcard | apps/api/internal/handler/domains.go:28 | The hostname pattern alone accepts no wildcard |
| DomainRules.NormalizeStoredPath | apps/api/internal/handler/domains.go:160-199 | Normalising a path that validation accepted and storage holds changes nothing |
| DomainRules.NormalizedPathEmptyIff | apps/api/internal/handler/domains.go:160-178 | Normalisation returns the empty path exactly for two or more slashes alone |
| DomainLaws.HostnameIff | apps/api/internal/handler/domains.go:28 | Labels joined by dots are a hostname if and only if each has the shape of a label and the last is two letters or more, or it is localhost |
| DomainLaws.ValidPathIff | apps/api/internal/handler/domains.go:184-199 | A path is accepted if and only if it begins with a slash, has no other characters than these, no two slashes in a row and at most 255 characters |
| DomainLaws.NormalizesTo | apps/api/internal/handler/domains.go:160-214 | Spaces around a path, slashes after it and a missing slash before it all normalise away to the stored path |
| DomainLaws.RootNormalises | apps/api/internal/handler/domains.go:160-214 | Nothing, and a lone slash, is the root; as an internal path it is none |
| DomainRules.ParseCertificate | apps/api/internal/handler/domains.go:827-839 | An accepted selection has a certificate exactly in custom mode |
| DomainRules.ResolveDnsProvider | apps/api/internal/handler/domains.go:141-156 | It fails exactly on a garbled id in the mode; there an omitted field keeps, a blank one clears, an id sets; outside the mode the provider is always cleared |
| DomainRules.CheckDnsChallenge | apps/api/internal/handler/domains.go:98-135 | It passes if and only if the mode is another, or the row already issues by this provider for this name, or an administrator names a provider whose module the proxy carries; 403 only to a non-administrator who changes what issues, 503 only when the modules are unknown |
| DomainTable.StepKeepsSound | apps/api/internal/handler/domains.go:446-821 | One request keeps every row coherent, the rows of a host in agreement, and (hostname, path) unique |
| DomainTable.RunKeepsSound | apps/api/internal/handler/domains.go:245-276 | So does every run of add, update, provision and remove whose sibling listings succeed |
| DomainTable.RunKeepsWellFormed | apps/api/internal/handler/domains.go:166-232 | In every run stored hostnames are valid and stored paths normalised |
| DomainTable.FailuresLeaveNoTrace | apps/api/internal/handler/domains.go:1192-1248 | The failed requests of a run can be struck out of it: the table is where the successful ones alone lead, unless a created row could not be taken back |
| DomainTable.MembersGainNoCredential | apps/api/internal/handler/domains.go:98-135 | No run by non-administrators makes a DNS credential issue for a name it did not issue for |
| DomainTable.BareUpdateChangesNothing | apps/api/internal/handler/domains.go:640-771 | In a reachable table a request naming only the row's own hostname is accepted and changes nothing |
| DomainTable.UnnamedColumnsStay | apps/api/internal/handler/domains.go:707-765 | Through any run a row that is not removed keeps its application and stored credentials, and its path, port and TLS unless an update of it names them |
| DomainLaws.AddIff | apps/api/internal/handler/domains.go:446-565 | Which adds succeed, meet a conflict or fail, for every table and environment; a successful one stores, column by column, what the request names |
| DomainLaws.AddForbiddenIff | apps/api/internal/handler/domains.go:446-509 | 403 if and only if the application is out of reach, or a member asks for the DNS challenge |
| DomainLaws.UpdateIff | apps/api/internal/handler/domains.go:592-821 | Which updates succeed, fail or find no row; a successful one stores what the request names, keeps what it leaves out, and changes no other row |
| DomainLaws.ProvisionIff | apps/api/internal/handler/domains.go:1278-1300 | Which provisions succeed, and the row they store |
| DomainLaws.RemoveIff | apps/api/internal/handler/domains.go:1125-1167 | A row is removed if and only if it may be and proxy and delete go through; the status otherwise |
| DomainLaws.LastNamedDecides | apps/api/internal/handler/domains.go:592-821 | In any run the last successful update that names a path, a port or the TLS of a row decides it; and the whole row, when no update of it follows |
| DomainLaws.RowStays | apps/api/internal/handler/domains.go:592-821 | Requests on other rows leave a row bit for bit |
| DomainTable.SharedHostIsFrozen | apps/api/internal/handler/domains.go:698-705 | No single request changes how two rows do TLS while they stay on one host |
| DomainTable.FailedListingBreaksAgreement | apps/api/internal/handler/domains.go:245-252 | With a failing listing two accepted requests make a hostname contradict itself |
| DomainTable.FailedListingIsSoundIff | apps/api/internal/handler/domains.go:245-276 | A request whose listing fails keeps coherence, agreement and uniqueness if and only if it is a remove, or changes nothing, or would have been accepted with the listing |
| DomainTable.AlwaysSoundIff | apps/api/internal/handler/domains.go:245-276 | A run keeps all three after every request if and only if each request of it whose listing fails is such a one |
| DomainHandlers.Handler.CheckHostTLSAgreement | apps/api/internal/handler/domains.go:245-276 | The loop accepts if and only if every sibling is compatible, or the listing failed |
| DomainHandlers.Handler.CreateDomainRecord | apps/api/internal/handler/domains.go:1192-1248 | Table and status after insert, resolve, route and taking back |
| DomainHandlers.Handler.AddDomain | apps/api/internal/handler/domains.go:446-565 | The handler is the add step of the table |
| DomainHandlers.Handler.UpdateDomain | apps/api/internal/handler/domains.go:592-821 | The handler is the update step of the table |
| DomainHandlers.Handler.ProvisionDomain | apps/api/internal/handler/domains.go:1278-1300 | The handler is the provision step of the table |
| DomainHandlers.Handler.RemoveDomain | apps/api/internal/handler/domains.go:1125-1167 | The handler is the remove step: the row stays when the proxy or the delete fails |
| StatusHistory.MoveIsByMark | apps/api/internal/eventwatcher/watcher.go:299-347 | The guards of the event handler and of the reconciler amount to the four marks |
| StatusHistory.AppClosedForm | apps/api/internal/eventwatcher/watcher.go:299-454 | The status after any mix of events and samples, with events that cannot read the status among them: the last deciding step, then the first later end, else the last later check |
| StatusHistory.InactiveWakes | apps/api/internal/eventwatcher/watcher.go:320-336 | A never-started application stays inactive until the first event that decides or ends a stretch, in any trace, and from there has the closed form |
| StatusHistory.FirstEndIsFirst | apps/api/internal/eventwatcher/watcher.go:401-419 | The end the closed form takes precedes every other end |
| StatusHistory.LastCheckIsLast | apps/api/internal/eventwatcher/watcher.go:320-336 | The check the closed form takes follows every other check |
| StatusHistory.LastDecisionIsLast | apps/api/internal/eventwatcher/watcher.go:372-385 | The decision the closed form takes follows every other decision |
| StatusHistory.LastReportIsLast | apps/api/internal/eventwatcher/watcher.go:467-524 | The event the closed form of a database takes follows every other event that reports a status |
| StatusHistory.LastFindingIsLast | apps/api/internal/eventwatcher/watcher.go:232-256 | The sample it takes follows every other telling sample |
| StatusHistory.StopIsStoppedIff | apps/api/internal/eventwatcher/watcher.go:313-454 | Die then stop ends stopped, from every status and with every exit code; stop then die does if and only if the die reads the status or its exit code is no crash |
| StatusLaws.AppEvents | apps/api/internal/eventwatcher/watcher.go:361-385 | What Docker's start, restart, stop, oom, die and health events make of every status, and that every other action leaves it |
| StatusLaws.NumberedExits | apps/api/internal/eventwatcher/watcher.go:438-454 | Exit code 0 and 129 to 192 are stops, every other number is a crash |
| StatusLaws.LastWord | apps/api/internal/eventwatcher/watcher.go:299-385 | Whatever came before, a stop ends stopped and an oom kill ends in error, and both stay while nothing starts the container |
| StatusLaws.FirstDieDecides | apps/api/internal/eventwatcher/watcher.go:299-454 | A start is running; after it the first die decides by its exit code, whatever follows while nothing starts |
| StatusLaws.LastVerdictStands | apps/api/internal/eventwatcher/watcher.go:320-336 | After a start and while it runs the last health verdict stands |
| StatusLaws.DbEvents | apps/api/internal/eventwatcher/watcher.go:467-505 | The same of a database, by the literal actions; a readable creating, upgrading or backing-up status is left |
| StatusLaws.DbLastWord | apps/api/internal/eventwatcher/watcher.go:467-524 | The last of those actions stands, but that samples correct running and stopped into each other |
| StatusHistory.DbHasClosedForm | apps/api/internal/eventwatcher/watcher.go:467-524 | A database no task owns: the last event decides, then the last telling sample corrects running and stopped, never failed |
| StatusHistory.TaskOwnedKeptIff | apps/api/internal/eventwatcher/watcher.go:456-505 | A creating, upgrading or backing-up status survives any mix of events and samples if and only if every mapped event can read it |
| Watcher.BuildContainerIndex | apps/api/internal/eventwatcher/watcher.go:125-158 | The loop builds the index of the listing |
| Watcher.IndexMeansApps | apps/api/internal/eventwatcher/watcher.go:125-158 | An application is in the running (transient) index if and only if a container with its label is in such a state |
| Watcher.IndexMeansDbs | apps/api/internal/eventwatcher/watcher.go:125-158 | The same for databases, by label or by container name |
| Watcher.IndexNamesLast | apps/api/internal/eventwatcher/watcher.go:144-146 | The container name kept for an application is that of its last running container |
| Watcher.SettledSaysNothing | apps/api/internal/eventwatcher/watcher.go:109-124 | A settled stopped container contributes nothing, wherever it is listed |
| Watcher.AppPassSettles | apps/api/internal/eventwatcher/watcher.go:181-230 | A pass leaves alone exactly the applications that agree with the containers, and those it rewrites agree afterwards |
| Watcher.DbPassSettles | apps/api/internal/eventwatcher/watcher.go:232-256 | The same for databases; a pass only ever moves them between running and stopped |
| Watcher.PassIsIdempotent | apps/api/internal/eventwatcher/watcher.go:181-256 | A second pass over the same listing and health answers changes nothing |
| StatusLaws.AppFoundUp | apps/api/internal/eventwatcher/watcher.go:181-230 | What a pass makes of an application with a container in the state running |
| StatusLaws.AppNotUp | apps/api/internal/eventwatcher/watcher.go:95-124 | What it makes of one without: the states restarting, removing, created and paused leave it, any other stops it |
| StatusLaws.DbByStates | apps/api/internal/eventwatcher/watcher.go:232-256 | The same of a database, known by label or container name |
| StatusLaws.EventReaches | apps/api/internal/eventwatcher/watcher.go:288-297 | The row an event reaches, by the literal labels |
| Watcher.Watcher.ReconcileOneApp | apps/api/internal/eventwatcher/watcher.go:186-229 | One iteration writes the wanted status, if it differs and the write is not refused |
| Watcher.Watcher.ReconcileOneDb | apps/api/internal/eventwatcher/watcher.go:237-256 | One iteration for a database |
| Watcher.Watcher.Reconcile | apps/api/internal/eventwatcher/watcher.go:161-259 | After a pass every row whose write was not refused agrees with the containers; it tries one write per disagreeing row; a failed listing ends it there; every row moves as one happening moves it |
| Watcher.Watcher.HandleApplicationEvent | apps/api/internal/eventwatcher/watcher.go:299-347 | Exactly the row the label names moves, by the event automaton |
| Watcher.Watcher.HandleDatabaseEvent | apps/api/internal/eventwatcher/watcher.go:487-524 | Exactly the row the label names moves, by the database automaton |
| Watcher.Watcher.HandleEvent | apps/api/internal/eventwatcher/watcher.go:288-297 | An application label takes the event before a database label; any other container is ignored; every row moves as one happening moves it |
| Watcher.RunMovesApp | apps/api/internal/eventwatcher/watcher.go:161-347 | Over any run of events and passes, with failing listings and refused writes, an application moves by the automaton over exactly the events and samples that reached it |
| Watcher.RunMovesDb | apps/api/internal/eventwatcher/watcher.go:232-524 | The same for a database |
| Watcher.AppRunClosedForm | apps/api/internal/eventwatcher/watcher.go:161-454 | So the status that any run leaves an application that ever ran is the closed form of what reached it |
| Watcher.DbRunClosedForm | apps/api/internal/eventwatcher/watcher.go:232-524 | The same for a database no task owns |
| Keyring.EnvelopeParts | apps/api/internal/pkg/crypto/keyring.go:168-264 | The parts of an envelope sit where the decoder reads them |
| Keyring.DecryptUndoesEncrypt | apps/api/internal/pkg/crypto/keyring.go:164-264 | Decrypting undoes encrypting for every plaintext, and the result is tagged current |
| Keyring.RewrapKeepsPlaintext | apps/api/internal/pkg/crypto/keyring.go:208-226 | Rewrapping keeps the plaintext, yields the current version, and fails exactly on unreadable input |
| Keyring.EnvelopeLayout | apps/api/internal/pkg/crypto/keyring.go:168-200 | The layout in numbers: five magic bytes, the version, 12, 48 and 12 bytes, the data and its tag; and what each part opens to |
| Keyring.OldVersionsAreRead | apps/api/internal/pkg/crypto/keyring.go:228-264 | A secret sealed under any version whose key is there is read; it is current if and only if the version is |
| Keyring.LegacyLooksLikeEnvelopeIff | apps/api/internal/pkg/crypto/keyring.go:221-226 | A blob from before the keyring passes for an envelope if and only if its nonce begins with the magic and it holds 66 bytes or more |
| Keyring.LegacyIsRead | apps/api/internal/pkg/crypto/keyring.go:202-281 | Unless it does it is read under key version 1, is not current, and rewraps to a current envelope of what it held |
| Keyring.NothingElseIsRead | apps/api/internal/pkg/crypto/keyring.go:266-281 | Without key version 1 no such blob is read, nor anything shorter than a nonce |
| Rewrap.RingsAreSound | apps/api/internal/pkg/crypto/keyring.go:208-226 | The same through the two storage forms, column bytes and base64 text |
| Rewrap.SettingsAreBase64 | apps/api/cmd/rewrap/main.go:173-182 | A settings row that is base64 is read and skipped as its bytes are; one that is not can be neither |
| Rewrap.NothingIsLost | apps/api/cmd/rewrap/main.go:199-251 | Over any number of runs stopped anywhere every row reads as before, and the stale rows shrink by exactly the rows changed |
| Rewrap.OldKeysCanRetire | apps/api/cmd/rewrap/main.go:1-12 | Once nothing is stale the current key alone reads every non-empty column and every non-empty settings row as the full keyring did before the first run |
| Rewrap.Rotation.RewrapTable | apps/api/cmd/rewrap/main.go:199-251 | It succeeds if and only if the listing does and every stale row goes through; success counts the store as it was and leaves no listed row stale; failure keeps what was done; a dry run writes nothing |
| Rewrap.Rotation.RewrapSetting | apps/api/cmd/rewrap/main.go:157-197 | The same for one settings row; a missing or empty one is not counted |
| Rewrap.Rotation.RewrapSettings | apps/api/cmd/rewrap/main.go:104-121 | The accumulating loop over settings, going on past failures and counting them |
| Rewrap.Rotation.RewrapTables | apps/api/cmd/rewrap/main.go:122-138 | The accumulating loop over tables, going on past failures and counting them |
| Rewrap.Rotation.Run | apps/api/cmd/rewrap/main.go:104-149 | Exit 0 if and only if everything goes through, and 1 otherwise; at 0 the totals are the run's tally, dry or not, and nothing covered is stale; scanned is always rewrapped plus skipped |
| Rewrap.Rotation.BadBase64Fails | apps/api/cmd/rewrap/main.go:173-176 | A listed settings row that holds something that is not base64 fails every run, dry or not |
| Rewrap.TallyCounts | apps/api/cmd/rewrap/main.go:224-249 | The tally of a listing is its size, its stale part and the rest |
| Rewrap.Rotation.TargetsCount | apps/api/cmd/rewrap/main.go:122-138 | The tables' total counts every stale row of the targets once |
| Rewrap.Rotation.SettingsCount | apps/api/cmd/rewrap/main.go:104-121 | The settings' total counts the rows that hold something, and of those the stale ones, each once |
| Rewrap.Rotation.NextRunRewrapsNothing | apps/api/cmd/rewrap/main.go:3-6 | After a run that left nothing stale the next run's tally has no rewrapped row |
| Rewrap.Rotation.DryRunForetells | apps/api/cmd/rewrap/main.go:104-149 | When a dry run goes through, the real run does if and only if no stale row's write is refused |
| Sorting.SortAscending | apps/api/internal/handler/envvars.go:106-108 | Sorting distinct keys gives the same keys in strictly ascending order |
| Sorting.LeqIff | apps/api/internal/handler/envvars.go:106-108 | A text comes before those it begins and before those with a greater character where they first differ |
| EnvVars.PrepareEnvVars | apps/api/internal/handler/envvars.go:47-78 | The loop with its early returns is the preparation function; the first problem wins |
| EnvVars.PrepareIff | apps/api/internal/handler/envvars.go:47-78 | It succeeds if and only if the non-blank keys are well-formed and distinct and every needed encryption works |
| EnvVars.PrepareMeans | apps/api/internal/handler/envvars.go:47-78 | It prepares exactly the non-blank keys; an untouched stored row keeps its ciphertext, any other is encrypted |
| EnvVars.FirstProblem | apps/api/internal/handler/envvars.go:47-78 | A refused request is refused for the first row at fault, and for its key before its value |
| EnvVars.ValidKeyIff | apps/api/internal/service/envvar.go:16-18 | A key is a letter or underscore and then letters, underscores and digits |
| EnvVars.EnvChangeDetails | apps/api/internal/handler/envvars.go:88-110 | Two loops and three sorts give ascending listings of the created, rewritten and removed keys |
| EnvVars.DescriptionUnique | apps/api/internal/handler/envvars.go:101-108 | The description does not depend on the order in which the map was walked |
| EnvVars.DetailsAccount | apps/api/internal/handler/envvars.go:80-110 | Old keys less removed plus created are the new keys; updated are the surviving keys whose ciphertext changed; the three are apart |
| EnvVars.UpdatedIsReencrypted | apps/api/internal/handler/envvars.go:80-87 | With fresh ciphertexts updated lists exactly the surviving rows not marked unchanged |
| EnvVars.EnvStore.Transact | apps/api/internal/handler/envvars.go:282-307 | All statements or none: a failure anywhere leaves the stored set as it was |
| EnvVars.EnvStore.UpdateEnvVars | apps/api/internal/handler/envvars.go:246-314 | Which requests are refused, which succeed; success stores exactly the submitted set and the audit entry accounts for it; anything else changes nothing |
| EnvVars.ListEnvVars | apps/api/internal/handler/envvars.go:133-176 | In the order asked for: a secret with no value, any other row with its decrypted text, or none when it cannot be read |
| EnvVars.SecretsAreNotSent | apps/api/internal/handler/envvars.go:154-176 | Two stores that differ only in what their secrets hold have the same listing |
| EnvVars.UntouchedSaveChangesNothing | apps/api/internal/handler/envvars.go:39-46 | Saving every row as unchanged is accepted and leaves the stored set bit for bit |
| EnvVars.ListingSavedBackIff | apps/api/internal/handler/envvars.go:154-169 | Sending a listing back keeps every plaintext if and only if every non-secret row can be read |
| DiskUsageCache.StepKeeps | apps/api/internal/handler/docker.go:90-151 | Every locked section keeps the cache's invariant, closes no channel twice and never loses the value |
| DiskUsageCache.OneInFlight | apps/api/internal/handler/docker.go:104-151 | At most one computation in flight, refreshing says exactly whether; every waiter holds a channel that is closed or will be |
| DiskUsageCache.ValueStays | apps/api/internal/handler/docker.go:134-151 | Once there is a value there is one for ever |
| DiskUsageCache.AnswersAreLatest | apps/api/internal/handler/docker.go:104-132 | An answer is the result of the latest successful refresh, nothing only while none succeeded; a waiter woken by a success gets a value |
| DiskUsageCache.EnterMeans | apps/api/internal/handler/docker.go:104-121 | A caller who finds a value of two minutes or less starts nothing; an older one is served all the same and a refresh is then in flight, as when there is none, which the caller then waits for |
| DiskUsageCache.LeaveMeans | apps/api/internal/handler/docker.go:123-132 | A blocked caller that goes on is given what value there is, changes nothing but its own waiting and may call again |
| DiskUsageCache.NobodyIsStuck | apps/api/internal/handler/docker.go:104-151 | In every interleaving whoever is not blocked may call, and whoever is may give up or goes on as soon as the refresh in flight finishes, however it ends |
| DiskUsageCache.ValueIsLastSuccess | apps/api/internal/handler/docker.go:134-151 | The value and its time are those of the last refresh that succeeded |
| DiskUsageCache.Cache.EnterGet | apps/api/internal/handler/docker.go:104-121 | The first locked section is the enter step |
| DiskUsageCache.Cache.LeaveGet | apps/api/internal/handler/docker.go:123-132 | The second locked section is the leave step |
| DiskUsageCache.Cache.FinishRefresh | apps/api/internal/handler/docker.go:134-151 | The refresher's locked section is the finish step |
| UpdateProbe.AnswerIsRecent | apps/api/internal/handler/update_probe.go:57-76 | An answer comes from a listing or a recorded start less than the TTL old |
| UpdateProbe.ReadsAreApart | apps/api/internal/handler/update_probe.go:50-76 | A listing comes no sooner than the TTL after the reading before it |
| UpdateProbe.Cache.HelperState | apps/api/internal/handler/update_probe.go:57-76 | One call under the lock: the cached reading, or a fresh listing recorded at the time it ended |
| UpdateProbe.Cache.MarkRunning | apps/api/internal/handler/update_probe.go:78-86 | A started helper is recorded as running |
| UpdateProbe.ClampGrows | apps/api/internal/handler/update_probe.go:127-132 | The clamp is monotone and the greatest whole second not above |
| UpdateProbe.HandoverKeepsClockIff | apps/api/internal/handler/update_probe.go:99-115 | The start reported is the pull's if and only if the helper was not made in the second the pull began in, and its whole second is no later than the pull timeout after the start; in the same second it is that whole second |
| UpdateProbe.OneClock | apps/api/internal/handler/update_probe.go:92-125 | With a helper made in no such second and recorded within the pull timeout, and no earlier attempt still to clear the start, every client told of the update by the process that began it is told now less the start in whole seconds, through pull, handover and after, or less the start that stood there while the new one is not stored; the process that replaces it tells now less the whole second in which the helper was made; with no earlier attempt around a client is told nothing if and only if Docker cannot be reached after the guard was released or the process replaced |
| UpdateProbe.WhichStart | apps/api/internal/handler/update_probe.go:92-125 | With a helper recorded within the pull timeout and no earlier attempt still to clear the start, in any run from the taking of the guard on every answer is reckoned from the start that stood there, until the new one is stored; then from the start of the pull, or from the whole second in which it and the helper began; and after the API process was replaced from the whole second in which the helper was made |
| UpdateProbe.NeverGoesBackIff | apps/api/internal/handler/update_probe.go:92-125 | The reported time never goes back in any run from the taking of the guard on, the replacement of the API process included, if and only if the helper was not made in the second the pull began in, nor in a later one by an update that replaces the process; it was recorded within the pull timeout; the start that stood there is less than a second older; and no earlier attempt is still to clear the start |
| UpdateProbe.NeverBackByMore | apps/api/internal/handler/update_probe.go:92-125 | With a helper recorded within the pull timeout and no earlier attempt still to clear the start, no answer is further behind an earlier one than this, rounded up: the time between the two starts from before to after the storing; the start less the helper's whole second between answers of one process; that second less the start from one process to the next |
| UpdateProbe.ReplacedGoesBack | apps/api/internal/handler/update_probe.go:99-115 | When the helper's whole second is after the start and the process is replaced, one question put to both at one time is answered from the start of the pull, and then from when the helper was made, which is less |
| UpdateProbe.WindowGoesBack | apps/api/internal/handler/update.go:138-157 | For every start of a second or more before that stands there, a client asking between guard and store is told the time since it, and one asking after is told none |
| UpdateProbe.ClearGoesBack | apps/api/internal/handler/update.go:197-215 | When the earlier attempt clears the start of this one, a client is told the time since 1970, and one asking later less |
| UpdateProbe.AlwaysToldIff | apps/api/internal/handler/update.go:197-215 | In every run every client whose question Docker answers is told of the update, if and only if no earlier attempt is left to release the guard a second time |
| Settings.Predicted | apps/api/internal/handler/settings.go:407-435 | The triple predicted from the store overridden by the request is the triple read back after the writes, with any repeats |
| Settings.AcceptedKeepsWhole | apps/api/internal/handler/settings.go:229-248 | An accepted request leaves no hostname in custom mode without a certificate |
| Settings.NeverBroken | apps/api/internal/handler/settings.go:79-248 | Nor does any run of requests, each meeting its own domains, certificates and providers |
| Settings.LastOneWins | apps/api/internal/handler/settings.go:238-248 | Of a repeated key the last value is stored |
| SettingsLaws.NumbersIff | apps/api/internal/handler/settings.go:387-400 | A numeric setting takes the numbers from 1 to its own limit and the empty text, and nothing else |
| SettingsLaws.ChoicesIff | apps/api/internal/handler/settings.go:356-363 | A switch takes true, false or nothing, a TLS mode one of four or nothing |
| SettingsLaws.JudgedIff | apps/api/internal/handler/settings.go:79-160 | Hostnames, certificates, addresses and schedules are taken when they are such, and an unknown key never |
| SettingsLaws.NamesIff | apps/api/internal/handler/settings.go:365-385 | The two names are limited in bytes |
| SettingsLaws.RefusedIff | apps/api/internal/handler/settings.go:79-236 | A request is refused if and only if a value is not taken, or it touches the dashboard and would leave a hostname with custom certificates and none chosen, the last value of a key counting |
| SettingsLaws.EffectiveIs | apps/api/internal/handler/settings.go:402-436 | The effective TLS triple is what each key ends up with, with automatic where no mode is chosen |
| SettingsLaws.WrittenIs | apps/api/internal/handler/settings.go:238-248 | A request gives each key it names the last of its values, trimmed, and leaves the others |
| SettingsLaws.OnlyTakenIsStored | apps/api/internal/handler/settings.go:279-330 | Through any run every stored value was there before or was taken for its key; no key outside the list is added or changed |
| Settings.HalfWrittenBreaks | apps/api/internal/handler/settings.go:238-248 | An accepted request that fails the condition: a refused write between mode and certificate leaves the dashboard without one |
| Settings.HalfWritesWholeIff | apps/api/internal/handler/settings.go:238-248 | Of any request, every half-write leaves a dashboard that can be served if and only if no prefix of it predicts otherwise |
| Settings.ProtectingFirstIsSafe | apps/api/internal/handler/settings.go:238-248 | Any request whose first dashboard setting protects, and is not undone by a later one of its key, is safe wherever its writes stop |
| Settings.SafeOrderExists | apps/api/internal/handler/settings.go:238-248 | Every accepted request that names no key twice is safe as it stands, or with one of its own settings put first |
| Settings.Endpoint.EffectiveDashboardTls | apps/api/internal/handler/settings.go:407-435 | The fold over the request is the effective triple |
| Settings.Endpoint.Validate | apps/api/internal/handler/settings.go:79-227 | The in-place loop succeeds if and only if every setting is accepted, and then every value is trimmed |
| Settings.Endpoint.UpdateSettings | apps/api/internal/handler/settings.go:69-277 | Which requests are refused and that they write nothing; what a failed write leaves; what success stores |
| BackupTarget.TargetDatabase | apps/api/internal/handler/database_backup_configs.go:84-97 | The printer's loop joins the trimmed non-blank names |
| BackupTarget.ParseTarget | apps/api/internal/handler/database_backup_configs.go:35-44 | The parser's loop keeps the trimmed non-blank parts |
| BackupTarget.KeptTrims | apps/api/internal/handler/database_backup_configs.go:35-97 | A name is kept without the spaces around it, in its place; one of spaces alone is not |
| BackupTarget.StarMeansAll | apps/api/internal/handler/database_backup_configs.go:35-97 | The star and nothing else stands for all databases; it is printed for no names and for a single name "*" |
| BackupTarget.PrintThenParseIff | apps/api/internal/handler/database_backup_configs.go:35-97 | Reading a printed list gives its trimmed non-blank names in order, if and only if none holds a comma and it is not the single name `*` |
| BackupTarget.ParseThenPrintIff | apps/api/internal/handler/database_backup_configs.go:35-97 | Printing what was read keeps the meaning if and only if the target is `*` or lists names other than a lone `*` |
| Text.JoinSplit | apps/api/cmd/update/update.go:644-669 | Splitting a text and joining the parts gives the text back |
| Text.SplitJoin | apps/api/internal/handler/database_backup_configs.go:38 | Joining parts without the separator and splitting gives the parts back |
| Text.TrimSpaceMiddle | apps/api/internal/handler/settings.go:94 | Whatever spaces stand around a text that neither starts nor ends with one, trimming leaves the text |
| Text.TrimPrefixOnce | apps/api/cmd/update/update.go:274 | One prefix is taken off, and a text without it is left alone |
| Text.AtoiOfDecimal | apps/api/internal/handler/settings.go:395 | A printed number is read back, with a sign or without; one that does not fit 64 bits is none |

## Left out

- Updater: file modes, owners, timestamps, message texts and the systemd hints; a step that changes only those is a step that can fail.
- Updater: destinations that are directories, and paths that coincide; the path datatype keeps the install's files, backups and staged files apart, so a version text with a path separator is out.
- Updater: what backup.sh, the pulled images and `docker compose` themselves write; they are taken not to touch `.env`, the infra files and their backups.
- Updater: standard input is read by the question alone; backup.sh, `docker` and `cp` inherit it and are taken to read none of it.
- Updater: a panic inside the restoring `cp -a`, and the appending branch of movePin inside a run, which a run never reaches because it has read a pin.
- Domains: routes pushed to the proxy, DNS policies, TLS probes, route features, audit entries and request decoding; each answer of the proxy is a parameter.
- Domains: rows inserted from templates, foreign keys, and requests that race each other; one request is one step.
- Watcher: broadcasts, the event stream and its reconnecting loop; a run is any sequence of passes and events.
- Watcher: rows changed by other parts of the system between listing and write within one pass.
- Watcher.Watcher.HandleApplicationEvent: the reading of a label as a row id is a parameter, because the UUID parser is not part of this model.
- Keyring: AES-GCM itself and the random source; the parsing of the keyring's environment variables.
- Rewrap: rows written by others between the listing and the update of a table.
- EnvVars: the merge endpoint, revealing one value, access checks, and texts that are not valid Unicode.
- DiskUsageCache: wall-clock waiting; a caller may give up at any time. A successful computation is taken to return a value, as the runtime's contract says.
- UpdateProbe.OneClock: says nothing of a helper made in the second the pull began in or recorded later than the pull timeout, nor of an earlier attempt still to clear the start, because it is false there (`NeverGoesBackIff`). Not covered: a failed listing after the helper has started, which the code reports as no update for one TTL; an update begun while a reading of an earlier helper is still fresh, in which the time can go back too; an API process that ends for another reason than its update; more than one earlier attempt that is still to clear the start, and a later attempt that takes the guard when it was released a second time.
- UpdateProbe: a question is one step, though the code reads the clock, the cache, the guard and the stored start one after the other; what is told in a failing attempt once it has failed.
- RollbackHint: the quoting of the printed `cd` and `cp` lines, whose directory and version are taken as one plain word; readings of the sed line that POSIX leaves open count as not restoring.
- Settings: failing reads of stored settings, which the code treats as unset; what the proxy does with new settings; how a hostname pattern other than the domain rules' own is read, because both use the same one.
- Settings.NeverBroken: runs in which a write fails half-way, because it is false there; `HalfWritesWholeIff` gives the exact condition.
- Other handlers, authentication, the worker, the web and site front ends, migrations and configuration.
