# Helm: verified models

Dafny models of the parts of Helm whose state has to hold over every run, with
proofs about them. `dafny verify dfyconfig.toml` checks the whole project.

- **Migrations** (`Names`, `Migrate`, `MigrateRuns`): the runner of `db/migrate.ts`,
  once as a method over the table and once as a protocol of any number of
  runners interleaved statement by statement, with crashes and lost sessions.
  `Manifest` and `CheckMigrations` are the guard of `scripts/check-migrations.ts`:
  the printer and the parsers character by character, every mode, and what the
  guard's answer says about the runner.
- **The extension** (`Base64Url`, `ExtensionStore`, `Lock`, `Api`, `PairingFlow`,
  `ExtensionRuns`, `ExtensionCases`, `Extension`): an operation is the list of writes it makes in
  order, so stopping it part-way is taking a prefix of the list and emptying
  session storage. `Extension.Browser` changes storage in place, write by write,
  and is held to those lists; `ExtensionRuns` runs any sequence of operations.
  Cryptography is ideal: a box opens under its own key and no other, and key
  derivation is any function that tells secrets apart under one salt.
- **The page** (`Fill`, `InPage`): which input is which and what a fill writes;
  the menu and the save prompt as a class whose ghost fields remember what every
  token was handed out for.
- **The rest** (`Cron`, `Backup`, `Search`, `Drift`): the schedule over a real
  calendar, the backup service loop with restarts, the two searches where the
  latest wins, and the schema comparison.

## What turned out not to hold

Each is stated with the exact condition under which it does hold, and where
useful with an input; `ExtensionCases` has runs from installation.

- Helm ends the old token as it makes a new one, so a renewal whose answer is
  lost, or that is stopped before its first write, leaves the extension with a
  token Helm refuses (`ExtensionRuns.LiveTokenKeptExactly`, `ExtensionCases.AnswerLost`,
  `Lock.ReplaceIsCrashSafe`), until it is paired again (`ExtensionRuns.LostUntilPairedAgain`).
- Turning a first lock on, stopped between storing the lock and the last write,
  and turning one off, stopped once the token is back and before the lock goes,
  leave the plain token beside the lock (`ExtensionRuns.HiddenKeptExactly`,
  `ExtensionRuns.StoppingMayExposeTheToken`).
- Stopped with session storage kept, turning a lock on over another one, or
  storing a renewed token, can leave the unlocked record behind the stored lock
  (`Lock.EnableInterrupted`, `Lock.ReplaceInterrupted`); after the first, the next
  renewal seals a token that the lock's own secret does not open (`Lock.LockedOut`).
- Pairing again, stopped part-way, can leave the new key with the old pairing
  (`PairingFlow.FinishIsCrashSafeWhen`).
- A pairing started in a tab that comes back without an id leaves its key beside
  an older record; finishing the older one then stores the wrong key
  (`ExtensionRuns.KeysKeptExactly`, `ExtensionRuns.FinishingStoresAnotherKey`). A pairing finished after the address was
  changed belongs to the old address (`ExtensionRuns.IssuerKeptExactly`).
- The daily renewal check counts as a use of Helm without sending anything, so
  it holds off the timeout (`Api.RenewalCheckCountsAsUse`).
- A page that puts up another form between the look and the fill is filled in
  elements that were not the ones found (`Fill.FillsWhatWasFound`,
  `Fill.AnotherFormIsFilled`).
- Dismissing an old prompt drops the newer login waiting in that tab
  (`InPage.Background.DismissBar`).
- `started_at` of two scheduled backups may have no slot between them, though
  their decisions always do (`Backup.StartsMayTouch`, `Backup.StartsApartExactly`).
- A restart reads the day of the last rehearsal in the database session's time
  zone and compares it with a UTC day, so one day can be rehearsed twice
  (`Backup.RestartKnowsExactly`, `Backup.RehearsedTwice`).
- `--expect` passes over a table row whose name is not plain
  (`CheckMigrations.ExpectFaithful`), and the manifest cannot carry a name with
  white space at its ends (`Manifest.ManifestRoundTrip`).
- Closing the dependency editor does not stop a search under way from filling
  its list again (`Search.ResetIsOverwritten`), a search cut short can leave its
  busy sign on (`Search.BusySignSticks`), and an answer takes the popup back from
  settings (`Search.OtherViewsAreOverwritten`).
- Two type names are changed again by normalising twice (`Drift.NormalisingTwice`),
  and the aliases that end in a digit are never reached (`Drift.Int8IsReported`).

## Model

| member | source | states |
|---|---|---|
| Names.LessIsByCharacter | db/migrate.ts:163 | one name goes before another exactly when, at the first character in which they differ, it ends or has the smaller one |
| Migrate.PlanExact | db/migrate.ts:163-187 | the plan is refused exactly when some file differs from its row, naming the first such file; otherwise it is exactly the files without a row, in order |
| Migrate.PendingNames | db/migrate.ts:167-187 | pending files have no row, are the tree's own, have distinct names, and every other file is already recorded as it stands |
| Migrate.PlanInOrder | db/migrate.ts:163-187 | the files of a directory, and those a plan leaves to apply, go by the first character in which their names differ |
| Migrate.ComputePending | db/migrate.ts:163-187 | the loop over the directory listing, in whatever order it comes, computes that plan, in character order of the names |
| Migrate.Database.Run | db/migrate.ts:127-231 | a whole run commits a prefix of its plan, whose names go in character order, alters no row, puts the lock back, and if it says it is done every file is recorded |
| Migrate.RunKeeps | db/migrate.ts:209-223 | any prefix of the plan keeps every row, the whole plan records every file |
| MigrateRuns.NeverTwice | db/migrate.ts:201-227 | under every interleaving, with differing trees and crashes, no name commits twice and its one row is the hash of the text that ran (with db/migrate.ts:154-161) |
| MigrateRuns.RowsNeverAltered | db/migrate.ts:209-223 | however a run goes on, no row is changed or removed |
| MigrateRuns.FinishedRunner | db/migrate.ts:169-198 | a runner that finished normally left every file it read recorded; refused, busy, up to date or status means it committed nothing |
| MigrateRuns.ChangedCommitsNothing | db/migrate.ts:178-186 | a runner whose snapshot shows a changed applied file never commits, however the run goes on |
| MigrateRuns.SnapshotDecides | db/migrate.ts:163-198 | one snapshot refuses a changed file, is done when every file is recorded, and otherwise lists what is left, if only asked to, or goes on to the lock with it |
| MigrateRuns.FailureEnds | db/migrate.ts:209-227 | a file that fails ends its runner as failed with the lock let go and nothing recorded for it |
| MigrateRuns.SessionEnds | db/migrate.ts:200-206 | a session that ends frees its own lock and nobody else's, and leaves every row |
| MigrateRuns.AlwaysInOrder | db/migrate.ts:163-227 | one set of files, an empty table, any runners, crashes and lost sessions anywhere: what has committed is always a prefix of the files, of two names the earlier having the smaller character where they first differ or ending there, and it is all of them once a runner finishes normally |
| MigrateRuns.TwoFilesRun | db/migrate.ts:163-227 | one runner of any two files commits the one whose name goes first, then the other, and lets the lock go |
| MigrateRuns.BootstrapFirst | db/migrate.ts:163 | 0000_bootstrap.sql commits, and then 0010_tenancy.sql |
| MigrateRuns.OnlyTheHolderCommits | db/migrate.ts:201-227 | while no session is lost under a runner, only the holder of the lock is ever about to commit |
| MigrateRuns.LockHolderIsLive | db/migrate.ts:225-227 | the lock is never left behind by a runner that has ended or crashed |
| MigrateRuns.LockedRunsAreContiguous | db/migrate.ts:201-227 | once a lock holder has committed one file, nobody else commits before its next |
| Manifest.WhiteSpaceIs | scripts/check-migrations.ts:175-195 | what trimming and patterns take as white space and as the end of a line, code point by code point |
| Manifest.ManifestLineIs | scripts/check-migrations.ts:184-193 | a trimmed line is passed over exactly when empty or a comment, names a file exactly when it is 64 hex digits, white space and a name on one line, and is bad otherwise |
| Manifest.RowLineIs | scripts/check-migrations.ts:277-283 | a trimmed line names a file exactly when it is a plain name, white space with at most one bar in it, and 64 hex digits, and is passed over otherwise |
| Manifest.NameCharIs | scripts/check-migrations.ts:281 | the characters of a plain name, by code point |
| Manifest.ManifestRoundTrip | scripts/check-migrations.ts:175-213 | parsing what was printed gives the map back exactly when every hash is 64 hex digits and every name is one line, trimmed and not empty |
| Manifest.WriteManifest | scripts/check-migrations.ts:197-213 | the text depends on the map only, whatever order its keys come in |
| Manifest.ReadManifest | scripts/check-migrations.ts:175-195 | the loop over lines reads what the line parser says, last entry for a name winning, and stops at the first bad line |
| Manifest.RowsReadBack | scripts/check-migrations.ts:276-283 | a table of plain names and hashes is read back whole, in whatever order its rows were pasted |
| CheckMigrations.Migrations | scripts/check-migrations.ts:167-173 | the tree's names with the hash of each file's text |
| CheckMigrations.Checkout.Update | scripts/check-migrations.ts:393-480 | it succeeds exactly when no change or deletion stands in the way or force is given, and then the manifest is the tree exactly |
| CheckMigrations.Checkout.Check | scripts/check-migrations.ts:482-538 | it passes exactly when the manifest equals the tree and nothing at HEAD is gone |
| CheckMigrations.Reconciled | scripts/check-migrations.ts:430-471 | adding, re-recording and forgetting end at the tree whatever the manifest said before (with scripts/check-migrations.ts:400-407) |
| CheckMigrations.UpdateThenCheck | scripts/check-migrations.ts:430-538 | after a successful update the bare check passes exactly when every name can be printed and, if forced, nothing at HEAD is gone |
| CheckMigrations.UnforcedUpdateAltersNothing | scripts/check-migrations.ts:438-464 | the manifest an unforced update writes has every hash recorded before for a file still there, and every file at HEAD |
| CheckMigrations.SecondUpdate | scripts/check-migrations.ts:430-480 | a manifest just written is accepted by a second unforced update exactly when nothing at HEAD is gone |
| CheckMigrations.Expect | scripts/check-migrations.ts:272-327 | it passes exactly when rows were read and each is in the tree with its hash |
| CheckMigrations.ExpectFaithful | scripts/check-migrations.ts:276-319 | it answers truly for a table, on every tree, exactly when the table has rows and all their names are plain |
| CheckMigrations.ExpectPredictsRunner | scripts/check-migrations.ts:272-327 | it passes exactly when the runner does not refuse the tree and nothing applied is gone; the runner's pending list is then the tree less the applied names, in order (with db/migrate.ts:169-187) |
| CheckMigrations.Against | scripts/check-migrations.ts:334-391 | it passes exactly when every file of the ref is in the tree unchanged, and the ref has files |
| CheckMigrations.DeletedSince | scripts/check-migrations.ts:237-265 | it passes exactly when every file of the ref is still in the tree, and the ref has files |
| Base64Url.RoundTrip | extension/src/store.ts:196-207 | decoding the encoding of any bytes returns them |
| Base64Url.EncodedShape | extension/src/store.ts:196-200 | only URL-safe characters, no padding, length ceil(4n/3) (section 5 of RFC 4648) |
| Base64Url.EncodesSixBits | extension/src/store.ts:196-200 | each character stands in the URL-safe alphabet for its own six bits of its three bytes, a short end filled with zeros (sections 4 and 5 of RFC 4648) |
| Base64Url.EncodeInjective | extension/src/store.ts:196-200 | different bytes have different encodings |
| Base64Url.TextRoundTrip | extension/src/store.ts:196-207 | a text survives decoding and encoding exactly when it is URL-safe, of a possible length and without stray bits |
| Base64Url.ToIsEncode | extension/src/store.ts:196-200 | btoa, two replacements and stripping padding amount to the encoding |
| Base64Url.ToBase64Url | extension/src/store.ts:196-200 | the loop over bytes gives the encoding |
| Base64Url.FromBase64Url | extension/src/store.ts:202-207 | the loop fills the array with the decoding, and throws exactly where there is none |
| Lock.OnlyTheSecretOpens | extension/src/lock.ts:132-155 | a stored lock opens to its token with its own secret and with no other |
| Lock.EnableIsCrashSafe | extension/src/lock.ts:113-123 | stopped after any write and session storage emptied, the token can be had: with the old secret before the new lock is stored, with the new one after |
| Lock.DisableIsCrashSafe | extension/src/lock.ts:162-170 | the same for turning the lock off with the right secret, stopped after any write |
| Lock.ReplaceIsCrashSafe | extension/src/lock.ts:241-255 | stopped after any write and session storage emptied, the renewed token can be had exactly if a write was made; before that only the old one, which Helm has ended |
| Lock.EnableInterrupted | extension/src/lock.ts:113-123 | stopped with session storage kept, the stored and the unlocked token stay one at every write but the lock's own, and there too unless a lock was on already |
| Lock.DisableInterrupted | extension/src/lock.ts:162-170 | the same at every write of turning the lock off |
| Lock.ReplaceInterrupted | extension/src/lock.ts:241-255 | the same at every write of storing a renewed token but the first one with a lock on |
| Lock.SealedUnderAnotherKey | extension/src/lock.ts:249-254 | storing a renewed token under another lock's unlocked key leaves a lock its own secret opens to nothing |
| Lock.LockedOut | extension/src/lock.ts:113-123 | a lock set over another and interrupted there, then a renewed token stored: no secret opens it but one whose key under the new salt is the old lock's (with extension/src/lock.ts:241-255) |
| ExtensionCases.SecretOpensNothing | extension/src/lock.ts:113-123 | a concrete lock its new secret does not open |
| ExtensionCases.OldTokenStillUnlocked | extension/src/lock.ts:252-253 | a concrete unlocked record left with the ended token |
| Lock.EnabledWhole | extension/src/lock.ts:113-123 | turned on, the lock opens to the token with the new secret, over 600,000 rounds and with no failures, and the plain token is nowhere but in the unlocked record |
| Lock.DisabledWhole | extension/src/lock.ts:162-170 | turned off, the store is as before but with the token in the pairing and no lock |
| Lock.ReplacedWhole | extension/src/lock.ts:241-255 | renewed, token and expiry are the new ones in every place, under the same secret and failure count |
| Lock.TokenIsTheOne | extension/src/lock.ts:217-232 | a token handed out is the one that can be recovered |
| Lock.NoTokenOnceDue | extension/src/lock.ts:190-232 | no token is handed out once a lock or a sign-out is due |
| Lock.SignOutDueBounds | extension/src/lock.ts:183-202 | a sign-out is never due before the limit less 30 s since the last use, and always once the limit is passed |
| Lock.PassiveNeverPostpones | extension/src/lock.ts:217-232 | asked without counting as a use, nothing due is put off |
| ExtensionStore.ChangeKeepsTheRest | extension/src/store.ts:99-113 | a change of settings keeps the others as they were in effect, and frees them from the lock they may have come from |
| ExtensionStore.SettingsInEffect | extension/src/store.ts:99-108 | the timeout in effect: what is stored, or never and to sign out, or what a lock from before settings held it brings |
| Api.CallLeaves | extension/src/api.ts:32-104 | a call ends with the pairing, lock, stamp, unlocked token and device key forgotten together, or with nothing changed but the clocks |
| Api.CallAsks | extension/src/api.ts:32-104 | with no sign-out due, a call is sent exactly when the browser is paired, nothing is due and there is a token at hand, with that token, and its result is what Helm said |
| Api.CallIsUse | extension/src/api.ts:44-48 | a call is a use exactly when it is the person's own, paired, with nothing due, and unlocked or with a token and no lock |
| Api.SignOutTells | extension/src/api.ts:111-117 | signing out tells Helm, once and with the token at hand, exactly when there is an address, a key and such a token |
| Api.AlarmLeaves | extension/src/background.ts:122-130 | the minute's alarm signs out, locks or does nothing, as is due, and nothing ever with no minutes set or with nothing paired or unlocked |
| Api.StartupLeaves | extension/src/background.ts:184-197 | a sign-out due, or set for every restart, happens; with a lock on nothing is sent or unlocked |
| Api.DueCallsAreNotSent | extension/src/api.ts:37-47 | past the timeout a call sends nothing and locks, or signs out |
| Api.PassiveCallsAreNoUse | extension/src/api.ts:28-48 | a call made by a page loading moves no clock |
| Api.RenewalLeaves | extension/src/api.ts:120-128 | a renewal stores the new token exactly when Helm was asked and gave one, or forgets the pairing, or changes only clocks |
| Api.RenewalSends | extension/src/api.ts:120-128 | a renewal sends at most one request, with the stored address, key and token |
| Api.RenewsInLastWeek | extension/src/api.ts:120-128 | with nothing due, a renewal is asked for exactly in the pairing's last seven days and while there is a token at hand |
| Api.RenewalCheckCountsAsUse | extension/src/api.ts:120-126 | a renewal that sends nothing counts as a use exactly when an unlocked lock is on, no timeout is due and there is nothing to renew or to renew with (with extension/src/lock.ts:217-232) |
| ExtensionCases.SilentUse | extension/src/api.ts:123-125 | a concrete renewal check that sends nothing and is a use |
| PairingFlow.FinishLeaves | extension/src/background.ts:71-91 | an accepted message leaves the new pairing and its key in place of the old pairing, key and lock; any other message leaves everything (with extension/src/store.ts:184-190) |
| PairingFlow.ClosingDrops | extension/src/background.ts:53-58 | closing the pairing's own tab drops its record, so that nothing sent for it is accepted, and closing any other changes nothing |
| PairingFlow.FinishIsCrashSafeWhen | extension/src/background.ts:71-91 | stopped part-way it leaves a pairing that works exactly when no write was made, the new pairing was stored, or there was none before |
| ExtensionCases.PairingHalfDone | extension/src/background.ts:77-81 | a paired browser paired again and stopped after one write, which works with neither pairing |
| ExtensionRuns.EveryRunIsSafe | extension/src/lock.ts:113-261 | over every run, with the lock's operations stopped anywhere and answers lost: the token last given is recoverable, an unlocked record opens the sealed copy to its own token, the failure count is the wrong tries in a row and below five, the stamp follows the last use (with extension/src/api.ts:32-128, extension/src/background.ts:53-91) |
| ExtensionRuns.EveryStepKeeps | extension/src/lock.ts:113-261 | every operation, alarm, renewal, pairing and restart keeps that invariant (with extension/src/background.ts:122-130, extension/src/background.ts:184-197) |
| ExtensionRuns.LiveTokenKeptExactly | extension/src/api.ts:120-128 | a step keeps the one token Helm accepts exactly when it is not a renewal that Helm carried out and whose answer was not stored (with db/sql/1120_browser_extension.sql:546-556, extension/src/lock.ts:241-255) |
| ExtensionRuns.LiveTokenInEveryRun | extension/src/api.ts:120-128 | over every run without such a renewal that token is recoverable (with extension/src/lock.ts:113-261) |
| ExtensionRuns.LostUntilPairedAgain | extension/src/api.ts:120-128 | once lost it is not had again until a new pairing is finished |
| ExtensionCases.AnswerLost | extension/src/api.ts:66-82 | a run from installation to a renewal whose answer does not arrive |
| ExtensionRuns.HiddenKeptExactly | extension/src/lock.ts:113-170 | a step keeps the plain token from lying beside a lock exactly when it is not a stop of turning a first lock on before the last write, or of turning it off once the token is back |
| ExtensionRuns.LockHidesTheToken | extension/src/lock.ts:113-123 | in every run without those stops a stored lock means a pairing whose plain token is empty (with extension/src/lock.ts:241-255) |
| ExtensionRuns.StoppingMayExposeTheToken | extension/src/lock.ts:113-123 | a stop of turning the lock on leaves the plain token beside it exactly when it came after the lock was stored, before the last write, with no lock before |
| ExtensionCases.TokenExposed | extension/src/lock.ts:119-122 | a run from installation to a stop that leaves the plain token beside the lock |
| ExtensionRuns.WrongTries | extension/src/lock.ts:132-155 | the fifth wrong try in a row removes pairing, lock, stamp, unlocked token and device key together; fewer change only the count (with extension/src/store.ts:93-97) |
| ExtensionRuns.NothingSentUnpaired | extension/src/api.ts:32-36 | unpaired, nothing is sent in any run until a new pairing is finished (with extension/src/api.ts:111-128) |
| ExtensionRuns.RequestsCarryTheLiveToken | extension/src/api.ts:32-117 | every request goes to the saved address with the device key and the token last given, which is the one Helm accepts exactly while that has not been lost |
| ExtensionRuns.LeavingTellsHelm | extension/src/api.ts:111-117 | signing out by hand forgets everything, and tells Helm with the held token exactly when there is an address, a pairing and no lock in the way |
| ExtensionRuns.EachPairingOnce | extension/src/background.ts:53-91 | over every run each accepted state was sent out and is accepted once (with extension/src/settings.ts:136-149) |
| ExtensionRuns.AcceptedAsStarted | extension/src/background.ts:71-75 | after every run from installation a message is accepted only from the tab and the Helm its state was sent out with (with extension/src/settings.ts:136-149) |
| ExtensionRuns.KeysKeptExactly | extension/src/settings.ts:136-149 | a step keeps every key with the state it was sent with exactly when it does not start a pairing without a tab id beside an older record (with extension/src/store.ts:174-190) |
| ExtensionRuns.FinishingStoresAnotherKey | extension/src/background.ts:71-91 | after a start that left its key beside an older record, finishing the older pairing stores the newer key for it (with extension/src/settings.ts:136-149) |
| ExtensionCases.AnotherKeyStored | extension/src/settings.ts:136-149 | a run from installation that stores the second key for the first state |
| ExtensionCases.AnotherAddress | extension/src/settings.ts:117-131 | a run from installation that pairs with one Helm and has another's address |
| ExtensionRuns.IssuerKeptExactly | extension/src/background.ts:71-91 | a step keeps the pairing with its address exactly when it finishes none under another address (with extension/src/settings.ts:117-131) |
| ExtensionRuns.PairingsMatch | extension/src/settings.ts:136-149 | over every run without a key left beside an older record, the device key of a stored pairing is the one sent out with the last accepted state (with extension/src/background.ts:71-91, extension/src/store.ts:175-190) |
| ExtensionRuns.IssuersMatch | extension/src/background.ts:71-91 | over every run without a pairing finished after the address changed, a stored pairing came from the saved address (with extension/src/settings.ts:117-131) |
| ExtensionRuns.EveryRequestIsAsPaired | extension/src/api.ts:51-104 | after every run a request carries the live token, the key sent out with the accepted state and the address that came from, each under its own one of those conditions |
| ExtensionRuns.SignOutFollowsUse | extension/src/lock.ts:177-202 | the timeout's bounds over every run from installation |
| ExtensionRuns.LockFollowsUse | extension/src/lock.ts:190-232 | over every run from installation, while a lock is on and open and the timeout locks: once more than the minutes set have passed since the last unlock or use the alarm locks and no token is handed out, and until then, or with no minutes set, the alarm leaves everything and the token is handed out (with extension/src/background.ts:122-130) |
| Extension.Browser.Token | extension/src/lock.ts:205-232 | the in-place form makes the writes of its list in order and returns its token |
| Extension.Browser.EnableLock | extension/src/lock.ts:113-123 | its writes in order, the plain token last |
| Extension.Browser.TryUnlock | extension/src/lock.ts:132-155 | its result and its writes in order |
| Extension.Browser.DisableLock | extension/src/lock.ts:162-170 | its result and its writes in order, the plain token before the lock |
| Extension.Browser.StoreRenewed | extension/src/lock.ts:241-255 | its writes in order, the sealed copy first |
| Extension.Browser.CallHelm | extension/src/api.ts:32-104 | its writes, its one request and its result |
| Extension.Browser.LeaveHelm | extension/src/api.ts:111-117 | the request while there is a token, then everything forgotten |
| Extension.Browser.RenewWhenDue | extension/src/api.ts:120-128 | its writes and requests |
| Extension.Browser.OnStartup | extension/src/background.ts:184-197 | its writes and requests over emptied session storage |
| Extension.Browser.OnIdleAlarm | extension/src/background.ts:122-130 | its writes and requests |
| Extension.Browser.BeginPairing | extension/src/settings.ts:136-149 | the key, then the record if the tab has an id |
| Extension.Browser.CompletePairing | extension/src/background.ts:71-91 | the writes in order, key first and pairing before the record goes, or none |
| Extension.Browser.SaveAddress | extension/src/settings.ts:109-131 | another Helm's address forgets the pairing before it is stored |
| Fill.FormInPage | extension/src/fill.ts:40-87 | the three writes in place, and what is reported |
| Fill.FieldsDiffer | extension/src/fill.ts:53-64 | the three fields are different shown inputs, the username before the password, a code only without a password |
| Fill.PasswordFound | extension/src/fill.ts:41-53 | a password is reported exactly when there is one shown that is not a new password |
| Fill.CodeFound | extension/src/fill.ts:41-64 | a code, exactly when there is no password and a shown text or number says it is one |
| Fill.UsernameFound | extension/src/fill.ts:41-63 | a username, exactly when a shown text that is no code, with no password up to it, is named for one or has a password after it |
| Fill.SignUpGetsNoPassword | extension/src/fill.ts:52-53 | on a concrete sign-up form no password is reported or written, whatever values are given |
| Fill.UsernameIs | extension/src/fill.ts:54-63 | exactly which input is the username |
| Fill.FillsExactly | extension/src/fill.ts:41-84 | each field gets its own value and every other input is untouched; whatever is written into is enabled, writable, drawn and visible, a password not a new one, a username a text without a code hint, a code a text or number with one |
| Fill.FoundAgain | extension/src/fill.ts:36-64 | what is typed does not change which fields are found |
| Fill.ChosenIs | extension/src/fill.ts:52-64 | which input is chosen for each value, said of the page's inputs alone |
| Fill.FillsWhatWasFound | extension/src/fill.ts:36-87 | for any form looked at and any form filled: values go into the elements found exactly when each is still the one for its value, and nowhere else exactly when each is or the page has nothing for it (with extension/src/inpage.ts:238-272) |
| Fill.SameFormIsFilled | extension/src/fill.ts:36-87 | the same form, whatever was typed since, is filled where it was found |
| Fill.AnotherFormIsFilled | extension/src/fill.ts:36-87 | a page that swapped its password input gets the password in the other one |
| Fill.CountsWhatIsThere | extension/src/fill.ts:66-86 | every value is counted as written exactly when the page has a field for each |
| Fill.BestFrameIsBest | extension/src/popup.ts:298-307 | a frame is chosen exactly when one of the tab's own site has a form, and it has the password if any has, or else the username, or else the code, no other with the same being further out |
| InPage.KeysTellEntriesApart | extension/src/inpage.ts:198-235 | a key names one entry |
| InPage.AsksOnlyForFields | extension/src/inpage.ts:248-265 | a fill reveals at most one secret, only for a field found, and has values only for fields found |
| InPage.ValuesAreTheEntrys | extension/src/inpage.ts:248-265 | what is asked for and filled is the chosen entry's |
| InPage.PreparesAll | extension/src/inpage.ts:248-265 | with nothing in the way, each field found gets what the entry has for it, and the password and the code are asked for exactly where found |
| InPage.BlockedFillsNothing | extension/src/inpage.ts:249-264 | with a password kept in Helm, or a secret Helm did not give, nothing is filled |
| InPage.NeverBoth | extension/src/inpage.ts:67-89 | no sender is both a page and one of the extension's own frames |
| InPage.PageIs | extension/src/inpage.ts:67-77 | a page's frame is exactly what the browser says of this extension's script in a tab, over https, in a document |
| InPage.OwnIs | extension/src/inpage.ts:80-89 | the extension's own frames are told exactly by their address |
| InPage.Background.Lookup | extension/src/inpage.ts:157-168 | asks at most once a minute for a host and gives only what Helm listed for it |
| InPage.Background.InlineStatus | extension/src/inpage.ts:170-179 | exactly when the icon shows and with what count |
| InPage.Background.MenuView | extension/src/inpage.ts:200-227 | the token's own list, looked up again where it was opened locked, and nothing while locked |
| InPage.Background.MenuClosed | extension/src/inpage.ts:406-413 | a page closes only a menu of its own tab |
| InPage.Background.OpenMenu | extension/src/inpage.ts:181-190 | a new token stands for the sender's own frame, and stale menus go (with extension/src/inpage.ts:112-119) |
| InPage.Background.FillFromMenu | extension/src/inpage.ts:232-276 | whatever is written or revealed is for the token's own document, still on that host, with an entry Helm listed for it; and where all that is so, what the entry needs is asked for and written wherever there is a field for it |
| InPage.Background.LoginTyped | extension/src/inpage.ts:282-304 | Helm is asked exactly when the login may be kept, under the username typed, or with none typed the one seen in the tab within five minutes on this host or two on any, or nobody, at most 320 characters; and it is kept as asked, under a new token, in place of the tab's earlier one, exactly when Helm calls it new or changed (with extension/src/inpage.ts:144-151) |
| InPage.Background.SaveFromBar | extension/src/inpage.ts:326-374 | sends exactly the login typed under the token, or nothing if it expired, was superseded or was answered |
| InPage.Background.UpdateFromBar | extension/src/inpage.ts:376-386 | the same, to the entry Helm named |
| InPage.Background.DismissBar | extension/src/inpage.ts:468-477 | drops the tab's login whichever token it has, unanswered exactly when a later one had taken the tab; never-save only for the token's own (with extension/src/inpage.ts:355-358) |
| InPage.Background.ViewBar | extension/src/inpage.ts:331-347 | the prompt for the token's own login, with destinations asked of Helm for a new one only |
| InPage.WithoutWwwIs | extension/src/inpage.ts:343 | the suggested name is the host less a leading www. |
| InPage.Background.Handle | extension/src/inpage.ts:395-481 | for every message from anyone: what it is there to do is done, and nothing else: what is sent and filled is permitted by the sender's frame, the token and what was handed out before; only the message's own menus, the matches of its own host, and the sender's own tab and token are touched; a waiting login goes only for one typed later, an answer, a dismissal or its expiry |
| Cron.NextRun | src/lib/backups/cron.ts:101-123 | the least slot strictly after its argument within five years, or none |
| Cron.NextUnique | src/lib/backups/cron.ts:96-123 | that result is the only one |
| Cron.SlotIs | src/lib/backups/cron.ts:83-94 | which instants a schedule names, days of the month and of the week going together by "or" where both are restricted |
| Cron.DateIsCounted | src/lib/backups/cron.ts:86-88 | every date from 1970 on is the one counted by years of 365 days, leap days and the lengths of months |
| Cron.MonthSkips | src/lib/backups/cron.ts:109-115 | skipping a month passes over no match |
| Cron.HourSkips | src/lib/backups/cron.ts:116-119 | skipping an hour passes over no match |
| Cron.NextMonthStarts | src/lib/backups/cron.ts:112-113 | the skip lands on the first of the next calendar month |
| Backup.AtMostOneRunning | scripts/backup.ts:78-117 | over every run at most one row is running, and it is the one the service works on (with scripts/backup.ts:135-162) |
| Backup.RowsMoveForward | scripts/backup.ts:78-125 | rows only move from requested to running to succeeded or failed |
| Backup.StatusIsHowItEnded | scripts/backup.ts:86-125 | over every run a row has succeeded exactly when work on it ended well, and failed exactly when it ended badly or a restart found it running |
| Backup.RequestWaits | scripts/backup.ts:137-144 | a backup asked for stays as asked until a tick takes it up |
| Backup.RestartLeavesNoneRunning | scripts/backup.ts:122-125 | a restart fails exactly what was running |
| Backup.RequestsFirst | scripts/backup.ts:137-144 | while a request waits a tick serves the oldest and nothing scheduled |
| Backup.FiresWhenSlotPassed | scripts/backup.ts:145-154 | otherwise a tick starts a backup exactly when a slot has come since the last, within the search's five times 366 days |
| Backup.DisabledStartsNothing | scripts/backup.ts:145-146 | turned off, the service starts nothing of its own |
| Backup.RehearsesWhenDue | scripts/backup.ts:155-162 | with no slot come a tick rehearses exactly on the weekday set, from four in the morning UTC, once a day, with a local destination |
| Backup.NoSlotTwice | scripts/backup.ts:127-154 | over every run, failures and restarts included, every scheduled backup row was made for a slot of its own, and of two rows the later one's slot comes after the decision on the earlier (with scripts/backup.ts:78-83) |
| Backup.StartsMayTouch | scripts/backup.ts:78-83 | two rows' started_at with no slot between, in one concrete run (with scripts/backup.ts:148-152) |
| Backup.StartsApartExactly | scripts/backup.ts:127-154 | however the run goes on there is a slot between a scheduled row's start and the next one's, exactly when no slot within the schedule search's reach comes while the row is being inserted (with scripts/backup.ts:78-83, src/lib/backups/cron.ts:101-107) |
| Backup.RehearsedOncePerDay | scripts/backup.ts:130-132 | scheduled rehearsals fall on different days over every run whose restarts read the last one's day back (with scripts/backup.ts:155-162) |
| Backup.RestartKnowsExactly | scripts/backup.ts:130-132 | a restart knows of today's rehearsal exactly when the database session writes its start as the same day |
| Backup.UtcReadsBack | scripts/backup.ts:130-132 | with sessions in UTC every restart does |
| Backup.RehearsedTwice | scripts/backup.ts:130-162 | a session five hours behind, a restart, and two rehearsals of one Thursday |
| Backup.BackupService.Tick | scripts/backup.ts:135-162 | one pass of the loop in place |
| Backup.BackupService.constructor | scripts/backup.ts:122-133 | start-up on the table left behind |
| Search.LinkableAre | src/components/dependency-editor.tsx:83-94 | the list holds exactly the hits that are nodes other than the asset itself |
| Search.SearchIsMade | src/components/dependency-editor.tsx:70-77 | a search is made of two characters or more, under the next number, and anything shorter empties the list |
| Search.ListsOneAnswer | src/components/dependency-editor.tsx:70-100 | what is listed is the whole answer to one search, the newest when it was answered |
| Search.NeverBack | src/components/dependency-editor.tsx:66-98 | the list only moves on to later searches, for any number in flight and any order of answers |
| Search.ShortStaysEmpty | src/components/dependency-editor.tsx:72-76 | a cleared or too short search is never overwritten by an earlier answer |
| Search.NewestIsListed | src/components/dependency-editor.tsx:77-97 | once the newest search is answered its results are listed, whatever else arrives |
| Search.ResetIsOverwritten | src/components/dependency-editor.tsx:107-113 | after closing, the list is filled again exactly when the newest search is answered with something to link |
| Search.FilledAfterClosing | src/components/dependency-editor.tsx:107-113 | a list filled again after closing |
| Search.BusySignSticks | src/components/dependency-editor.tsx:72-97 | with all answers in, the busy sign is on exactly when the last search was too short and cut off one under way |
| Search.BusyWithNothing | src/components/dependency-editor.tsx:72-97 | a busy sign on with nothing under way |
| Search.LinkPicker.OnAnswer | src/components/dependency-editor.tsx:80-97 | an answer handled in place |
| Search.ResultsNeverGoBack | extension/src/popup.ts:437-463 | results shown later are of the same search or a later one |
| Search.EmptiedShowsTheSite | extension/src/popup.ts:440-447 | an emptied box goes on showing the site whatever was under way |
| Search.WaitsForLastTyped | extension/src/popup.ts:437-450 | the text waiting to be searched for is the last one typed, trimmed, whatever came since |
| Search.PauseSearchesOnce | extension/src/popup.ts:449-451 | a pause makes the search waiting, once, under the next number |
| Search.NewestTakesTheView | extension/src/popup.ts:450-462 | under answers and the typing timer, what is shown is the last good answer to what was then the newest search, or what was shown before |
| Search.OtherViewsAreOverwritten | extension/src/popup.ts:450-460 | settings are put away exactly when a good answer comes to what is then the newest search, the typing timer's own included (with extension/src/popup.ts:541-546) |
| Search.SettingsPutAway | extension/src/popup.ts:450-460 | settings put away by the search of a word typed before |
| Drift.NormalisingTwice | scripts/check-drift.ts:32-54 | normalising is idempotent exactly for type names that are not inherited by every object |
| Drift.EqualWhenMeantSo | scripts/check-drift.ts:47-54 | any two type names come out equal exactly when they have the same name up to its alias, modifier and array mark, or are the same text where they do not read so |
| Drift.CaseAndSpaceIgnored | scripts/check-drift.ts:48 | letters large or small and white space anywhere make no difference |
| Drift.ModifierReads | scripts/check-drift.ts:50 | whatever is in the brackets is the modifier, and an array mark may follow it or stand alone |
| Drift.InheritedComesOut | scripts/check-drift.ts:53 | the two names every object has come out as what it has under them |
| Drift.SpelledEitherWay | scripts/check-drift.ts:32-54 | the short and the long name of a type come out the same, with any modifier and array mark |
| Drift.NumberedAliasesNeverApply | scripts/check-drift.ts:37-52 | an alias that ends in a digit is never looked up |
| Drift.Int8IsReported | scripts/check-drift.ts:37-52 | int8 and bigint do not come out equal |
| Drift.Compare | scripts/check-drift.ts:81-139 | what is reported is exactly what there is to report, both ways |
| Drift.NothingReportedWhenAgreed | scripts/check-drift.ts:87-146 | nothing is reported exactly when tables, columns, normalised types and nullability agree |

## Left out

- Fill.FillsWhatWasFound: an input is the flags the page's patterns give it; the patterns over autocomplete, names and labels are not matched character by character.
- InPage.Background.Handle: one clock reading a handler and handlers one at a time; the messages for frame sizes and for opening the popup, and messages to the page, are not modelled, and the never-save list is a set.
- Drift.Compare: the order of problems within undeclared columns and tables, and the messages' wording, are not kept; letters outside ASCII are not made small.
- Extension.Browser.OnStartup: Helm's answers, the clock, random salts, keys and states are parameters of each operation, and an operation reads the clock once.
- ExtensionRuns.EveryRunIsSafe: operations are atomic towards each other; only the lock's operations and the storing of a renewed token are stopped part-way in runs, with session storage emptied. Stops of pairing, and stops that keep session storage, are treated by their own lemmas.
- ExtensionRuns.LiveTokenKeptExactly: the token Helm accepts is the newest it made for the pairing; a pairing removed in Helm, or lapsed, is not a step.
- Names sort by Unicode scalar value; JavaScript sorts by UTF-16 unit, which differs only for names outside the basic plane.
- The migration role check, the table's other columns, database connections, git and file I/O, and the parsing of git's listing.
- Real cryptography and its failure modes; a salt or key in storage that is not what the extension wrote there.
- Parsing of cron expressions, backup work itself, the one-shot backup and decrypt commands, and database statements that fail.
- Settings other than the timeout's, themes, the clipboard, permissions, the content script's registration and all rendering.
- The popup's own confirmation and reason prompts, and its first look-up, which may replace search results with its error.
