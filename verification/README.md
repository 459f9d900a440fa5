# Quintal: a verified model

Quintal is an office that people and agents share. Its desktop app keeps a person's identity
key and, for the personal office, a database with its upgrades and backups; its shared code
reads schedules, decides who hears whom, finds a tile to stand on and works out whom a message
addresses. This project models the parts of it where the order of steps, the arithmetic or a
search decides whether something is lost, and proves what those parts promise.

`dafny verify dfyconfig.toml` checks everything.

## What is modelled

- **The personal office** (`Calendar`, `Stamp`, `Backups`, `BackupLaws`, `Supervisor`,
  `LaunchLaws`). The three database files, the backup directories and the record are one disk;
  copying before an upgrade, restoring and the rotation are methods that change it, and the
  supervisor runs a server over it, attempt by attempt. The calendar is tied to the civil calendar
  day by day, the stamps to the seconds, the rotation to the stamps, and whole runs of launches,
  failing, restored or answering, to the copies that must survive them.
- **The key store** (`Secrets`, `Identity`, `Machine`, `AgentKeys`, `KeyStoreLaws`,
  `MarkerLaws`, `AgentKeyLaws`, `FleetLaws`, `OperationLaws`, `BackupGate`). Every read and write
  meets a fate: it works, it fails, the process dies there, or the keychain says yes and keeps
  something else. Operations are functions over the world those writes leave; the objects do the same in place and are proved
  equal to them. The laws range over all runs of all operations with any fates.
- **Routine schedules** (`Zone`, `Phrases`, `Saying`, `PhraseLaws`, `NameLaws`,
  `RepeatLaws`, `MomentLaws`, `OnceLaws`, `ClockLaws`). A phrase is its list of words; a time zone
  is an arbitrary offset function in whole minutes; whether croner takes a cron line is an arbitrary predicate. The parser has the source's branches
  in the source's order, its greedy and lazy matches worked out word by word.
- **The managed section of `AGENTS.md`** (`Nest`, `NestLaws`), on character strings with the real markers.
- **Who hears whom** (`Earshot`, `EarshotLaws`), with string keys cut at a space as the source
  cuts them, and positions as reals.
- **A tile beside somebody** (`Ring`, with the stable sort in `Sorting`).
- **Whom a message addresses** (`Mentions`), with lower case, trimming and letters left abstract.
- **Backup passphrases** (`Passphrase`), with the random words as a sequence of draws.
- `Text` holds what they share: padded numbers, lexical order, occurrences, joining and splitting.

## Where the code and what is said of it differ

The model follows the code. Each of these has a lemma for the case that fails; where the promise
is met on some inputs and not on others, a lemma says for all inputs exactly which.

- `wallClockToEpoch` says a missing hour lands on the hour after. It does at or east of UTC; west
  of UTC it lands earlier (`Zone.LandsAfterExactly`, `Zone.NewYorkLandsBefore`).
- `tileBeside` says it returns the nearest free tile. Rings are square and distance is not: with
  the default of four rings a corner of the third, 18 away by squares, is taken over the middle of
  the fourth, 16 away (`Ring.NearestUpToThreeRings`, `Ring.NearestExactly`).
- `Backup.fresh == false` is said to mean the database is still the same bytes. It is decided from
  the record alone, and a server that wrote before it failed makes it untrue
  (`BackupLaws.NotFreshAndNotTheSame`, `BackupLaws.UnopenedMayBeWritten`).
- The copy made before an upgrade is said to be the way back from a migration that fails halfway. Only a
  restore stops further copies: an upgrade that fails and is simply launched again is copied each time as
  it then stands, and at the fifth of these the copy from before it is rotated out
  (`LaunchLaws.RetriesRotateItOut`, `LaunchLaws.CopiedExactly`).
- The database that failed is said to be moved aside so that it is not lost. With the clock set back
  under a full set of backups the restore's own rotation deletes it
  (`BackupLaws.AsideCanBeLost`, `BackupLaws.AsideIsKeptExactly`).
- `state_with` says "we could not read it" never becomes "there was nothing there". It does, after
  a failed read and over unreadable text alike, when the marker is gone as well
  (`KeyStoreLaws.NoKeyOverAStoredKey`, `KeyStoreLaws.NoKeyExactly`).
- `store` is said to prove that the blob landed. Only the identity is compared
  (`KeyStoreLaws.TokenLostOnStore`, `KeyStoreLaws.StoredMeansAllSlots`).
- `import` goes past a locked store because "nothing can be lost". Every other slot is, agent keys
  and host tokens included (`KeyStoreLaws.LockedImportDropsTheToken`,
  `KeyStoreLaws.ImportKeepsOtherSlots`).
- The backup gate does not survive an import that wrote its key and was refused or cut off after
  that, by the confirmation left on disk or by the token left in memory, nor a wipe whose last
  removal is refused (`BackupGate.CutImportLeavesTheGateOpen`, `BackupGate.FailedImportLeavesTheToken`,
  `BackupGate.RefusedClearOutlivesTheWipe`; exactly when: `OperationLaws.ImportInheritsExactly`,
  `BackupGate.ImportTokenExactly`, `OperationLaws.WipeConfirmationExactly`). Nor does it survive an
  export with another key in the environment than the one stored, or its files deleted from outside
  (`BackupGate.EnvironmentKeyOpensTheGate`, `BackupGate.DeletedEntryOpensTheGate`).
- Agent key slots keep servers apart exactly while no agent id ends in a colon and another
  (`AgentKeyLaws.ServersApartExactly`, `AgentKeyLaws.ColonsCollide`).
- The text below the end marker is said never to be touched. It is kept exactly when the rendered
  section holds no end marker of its own (`Nest.RewriteKeeps`, `Nest.MarkerInsideIsTaken`).
- "every weekend at noon" is read; "every monday at noon" is refused, `at` and `noon` being taken for
  more day names (`NameLaws.MondayAtNoonIsRefused`, `RepeatLaws.WeekendAtNoonIsRead`). Days by name,
  the last without a comma and none a lone `s`, take exactly the times that open with a digit
  (`NameLaws.NamedTimesRead`); "every monday, at 9" is refused and "every monday s at noon" read
  (`NameLaws.CommaBeforeAtIsRefused`, `NameLaws.LoneSEndsTheNames`).
- `routineWhenPhrase` says its phrase reads back to the same schedule. A moment with seconds, such as
  "in 45 minutes" makes, never does, nor does one of the two times a clock shows on an autumn night,
  nor one past the year 9999 (`OnceLaws.SecondsAreLost`, `OnceLaws.SecondTimeIsLost`,
  `OnceLaws.OnceRoundTrip`, `OnceLaws.WholeMinutesSeenAgain`).
- `ensureNest` is called idempotent. A rendered section with an end marker makes every call write
  (`Nest.SecondRewriteWritesNothing`).
- Lexical order of stamps is chronological up to the year 9999 and not beyond (`Stamp.StampOrderEnds`).
- The mention picker opens after `_@` and `-@`, where a message then addresses nobody
  (`Mentions.PickThenSend`).
- The comment on the word list says a bare modulus would favour the first 928 of 1296 words;
  2^32 mod 1296 is 1264, and by `Passphrase.ModulusIsBiased` that is how many it would favour.

## Model

| member | source | states |
|---|---|---|
| Calendar.CivilSuccessor | apps/desktop/src-tauri/src/personal.rs:617-628 | every day number gives a valid Gregorian date, and the next day number its civil successor |
| Calendar.DaysRoundTrip | apps/desktop/src-tauri/src/personal.rs:617-628 | counting days back from the date, by years, leap days and months, returns the day number, for every integer |
| Calendar.DateRoundTrip | apps/desktop/src-tauri/src/personal.rs:617-628 | every valid civil date is the date of its own day number |
| Calendar.CivilOrders | apps/desktop/src-tauri/src/personal.rs:617-628 | dates come in calendar order exactly as their day numbers do |
| Stamp.StampWidth | apps/desktop/src-tauri/src/personal.rs:605-629 | a stamp is 15 characters wide exactly up to the last second of the year 9999 |
| Stamp.StampOrders | apps/desktop/src-tauri/src/personal.rs:581-583 | up to then stamps compare lexically exactly as the seconds compare, which the rotation relies on |
| Stamp.StampOrderEnds | apps/desktop/src-tauri/src/personal.rs:581-583 | one second later the order breaks: the first stamp of the year 10000 sorts before the one before it |
| Stamp.StampReadsBack | apps/desktop/src-tauri/src/personal.rs:605-629 | for every second, the six fields of its stamp are those of a valid date and time of day, and counted up they come to that second |
| Backups.OfficeDir.ListSorted | apps/desktop/src-tauri/src/personal.rs:585-593 | the listing is strictly sorted and holds each directory once |
| Backups.OfficeDir.Prune | apps/desktop/src-tauri/src/personal.rs:584-603 | the index-skipping loop leaves everything while there is room, otherwise exactly five directories: the kept one and the newest others, contents untouched |
| Backups.RotationUnique | apps/desktop/src-tauri/src/personal.rs:581-603 | that description fixes the outcome: no other set of directories answers it when the kept one is there |
| Backups.OfficeDir.BackupBeforeUpgrade | apps/desktop/src-tauri/src/personal.rs:463-501 | what comes back and what the disk holds in each of the four cases: no database, a restored one still recorded, same version, a copy of the three files and its rotation |
| Backups.OfficeDir.SwapLive | apps/desktop/src-tauri/src/personal.rs:534-543 | the three live files end in the aside directory and the backup's three, and only those, in their place |
| Backups.OfficeDir.RestoreBackup | apps/desktop/src-tauri/src/personal.rs:518-558 | refused, touching nothing, exactly for a path that is no backup with a main file; otherwise live files, aside, record and rotation together |
| BackupLaws.RestoreUndoesUpgrade | apps/desktop/src-tauri/src/personal.rs:437-558 | copy, then anything done to the three files, then restore: the files are the original ones, none more, and the failed ones are those set aside |
| BackupLaws.AsideIsKeptExactly | apps/desktop/src-tauri/src/personal.rs:518-603 | whatever the clock says, a restore's own rotation spares the files that failed exactly if fewer than four other directories sort after the one they were moved to; the backup is always kept |
| BackupLaws.NeitherIsLost | apps/desktop/src-tauri/src/personal.rs:556-603 | so with a clock past every other directory's stamp both the backup and the files that failed are kept, in at most five directories |
| BackupLaws.AsideCanBeLost | apps/desktop/src-tauri/src/personal.rs:505-508 | with the clock set back under five backups, the restore deletes what it set aside and names it in its answer all the same |
| BackupLaws.SixStepsSwap | apps/desktop/src-tauri/src/personal.rs:534-543 | the move and the copy of each of the three files come to the whole swap |
| BackupLaws.CutRestoreLosesNothing | apps/desktop/src-tauri/src/personal.rs:534-543 | cut between any two of those steps or in the middle of a copy: the backup, every other directory and the record are untouched, and every file that failed is live or set aside whole |
| BackupLaws.CutRestoreCanBeRepeated | apps/desktop/src-tauri/src/personal.rs:518-558 | from any such cut the same restore asked for again leaves exactly the backup's files live, and every file that failed in one of the two directories set aside |
| BackupLaws.VersionReadsBack | apps/desktop/src-tauri/src/personal.rs:560-567 | the version reads back from a backup's name exactly when it neither contains `-to-` nor ends in `-to` |
| BackupLaws.NamesApart | apps/desktop/src-tauri/src/personal.rs:487-491 | a directory set aside never takes the name of a copy, whatever the clock says and whatever failed, unless the copy's version text begins with `failed` |
| BackupLaws.HeldUntilTheOfficeOpens | apps/desktop/src-tauri/src/personal.rs:472-483 | from a restored copy on, through any number of failing launches and further restores under the names the code gives: the copy is there unchanged, is the one offered as not fresh, and no other copy is made |
| BackupLaws.FirstRestoreHolds | apps/desktop/src-tauri/src/personal.rs:518-558 | an upgrade whose launch failed and was restored starts such a run: the files are back as before the upgrade and its own copy is the one held from then on |
| BackupLaws.UnopenedMayBeWritten | apps/desktop/src-tauri/src/personal.rs:441-444 | in every failing run the copy is offered as not fresh, documented as still the same bytes; they are the same exactly when the last launch ended in a restore or its server left those bytes |
| BackupLaws.NotFreshAndNotTheSame | apps/desktop/src-tauri/src/personal.rs:441-444 | a run of one launch in which not fresh is said of a database that was written |
| LaunchLaws.CopiedExactly | apps/desktop/src-tauri/src/personal.rs:463-501 | a copy is made exactly if there is a database, it is not a recorded restored one still there, and the version that last answered is another; the restored copy is offered exactly while it is there; nothing else is touched |
| LaunchLaws.Open | apps/desktop/src-tauri/src/personal.rs:885-1148 | a supervised launch and somebody asking for the backup after it: an upgrade that gave up without ever answering is restored, answering where the failed files went and which version to install, and the files are those from before the upgrade; nothing else is ever restored |
| LaunchLaws.BackToTheVersionBefore | apps/desktop/src-tauri/src/personal.rs:545-567 | after that restore the record names the version upgraded from, read back from the copy's name, no launch of any version makes a copy, and once that version answers it is on record with nothing offered |
| LaunchLaws.AnsweringSettles | apps/desktop/src-tauri/src/personal.rs:1005-1027 | a launch that answered puts its version on record and spends the restored copy, whatever was there before |
| LaunchLaws.LeftInPeace | apps/desktop/src-tauri/src/personal.rs:483-485 | from then on any number of launches of that version, answering or failing, leave the backups exactly as they were and none makes a copy or offers one |
| LaunchLaws.RetriesRotateItOut | apps/desktop/src-tauri/src/personal.rs:472-499 | an upgrade that fails and is launched again, unrestored, has a copy made each time of what the last failure left, and the copy from before the upgrade is there through four of these and gone at the fifth |
| Supervisor.Office.Supervise | apps/desktop/src-tauri/src/personal.rs:885-1095 | one backup before the first attempt, then the attempts: memory and disk at the end are the tally and the disk the attempts add up to, every attempt that ended unasked but the last one given up on is a restart counted, and a backup is offered exactly by a failed launch that has one and never answered |
| Supervisor.Office.Turn | apps/desktop/src-tauri/src/personal.rs:1005-1092 | one run of the server: what it does to the tally, the restarts, the disk and the record it spends by answering |
| Supervisor.Office.Restore | apps/desktop/src-tauri/src/personal.rs:1112-1148 | for every state the exact answer: the right refusal with nothing changed, no backup if the offered copy has lost its main file, otherwise done, with where the failed files went and the version to install; on success the disk is the one a restore leaves |
| Supervisor.RecentTwice | apps/desktop/src-tauri/src/personal.rs:1042-1046 | forgetting old exits one exit at a time is forgetting them once, at the latest |
| Supervisor.BudgetByCount | apps/desktop/src-tauri/src/personal.rs:1042-1062 | with a clock that never goes back, more than three exits are kept exactly when the third before this one is under 300 s old |
| Supervisor.FiveMinutes | apps/desktop/src-tauri/src/personal.rs:70-73 | four exits are one too many exactly if the last is under five minutes after the first |
| Supervisor.TallyMeans | apps/desktop/src-tauri/src/personal.rs:1033-1092 | after any attempts the exits kept are exactly those of the last 300 s, and the launch gives up at the first exit whose third predecessor is under 300 s old and never earlier |
| Supervisor.ServedMeans | apps/desktop/src-tauri/src/personal.rs:1005-1027 | the disk a launch leaves: last writes, same backups, and the record spent exactly if the server ever answered |
| Supervisor.UnansweredLaunch | apps/desktop/src-tauri/src/personal.rs:885-1148 | a launch of the supervisor that never answered is a step of the failing runs the backup laws speak of |
| Secrets.SecretStore.LoadSlots | apps/desktop/src-tauri/src/secrets.rs:244-266 | the world and answer of `load` for every fate of the read |
| Secrets.SecretStore.StoreSlots | apps/desktop/src-tauri/src/secrets.rs:273-293 | secret, read-back, marker, each meeting its own fate, in that order |
| Identity.StateIn | apps/desktop/src-tauri/src/identity.rs:176-200 | ready, none or locked for every fate of the read |
| Identity.LoadOrCreateIn | apps/desktop/src-tauri/src/identity.rs:213-251 | reuse and heal, or mint and store, with the world left by every fate |
| Identity.ImportIn | apps/desktop/src-tauri/src/identity.rs:294-333 | store the imported key, then clear the confirmation, past a locked store |
| Machine.SlotsApart | apps/desktop/src-tauri/src/machine.rs:34-40 | registration slots of two servers, the bare slots and the identity's never coincide |
| KeyStoreLaws.StoredMeansStored | apps/desktop/src-tauri/src/secrets.rs:268-293 | a store that reports success left the identity readable and the marker naming it, even on a keychain that claims what it does not keep |
| KeyStoreLaws.StoredMeansAllSlots | apps/desktop/src-tauri/src/secrets.rs:268-293 | of all the slots, a store that reports success kept exactly those written when the keychain did as asked or kept that very blob: only the identity is compared |
| KeyStoreLaws.TokenLostOnStore | apps/desktop/src-tauri/src/secrets.rs:278-287 | a keychain that keeps the identity and loses a token is told it did well |
| KeyStoreLaws.StoreKeepsMark | apps/desktop/src-tauri/src/secrets.rs:273-293 | cut off anywhere, a store leaves the old entry or the new one whole and no marker without its key |
| KeyStoreLaws.LockedExactly | apps/desktop/src-tauri/src/secrets.rs:240-266 | `Locked` exactly when a marker stands and the entry is missing or, on a keychain, unreadable |
| KeyStoreLaws.ReadableIsNotLocked | apps/desktop/src-tauri/src/secrets.rs:240-266 | while no marker stands without its key, a keychain that answers is never reported locked |
| KeyStoreLaws.MintsOnlyWhereThereIsNone | apps/desktop/src-tauri/src/identity.rs:202-251 | whatever the keychain does, a stored identity is not written over; a key is minted only where the store was read and holds none |
| KeyStoreLaws.LoadHeals | apps/desktop/src-tauri/src/identity.rs:225-237 | a successful load leaves the marker naming the identity stored, whatever state a crash left it in |
| KeyStoreLaws.NoKeyExactly | apps/desktop/src-tauri/src/identity.rs:176-200 | for every world and fate, when the state is reported as none |
| KeyStoreLaws.NoKeyOverAStoredKey | apps/desktop/src-tauri/src/identity.rs:189-198 | when the read fails or what was read is no blob, the state is reported as none exactly when the marker is gone too, and as locked otherwise |
| KeyStoreLaws.ImportKeepsOtherSlots | apps/desktop/src-tauri/src/identity.rs:311-320 | an import that succeeds keeps every other slot exactly when the store could be read or held none: past a locked store agent keys and tokens are dropped |
| KeyStoreLaws.LockedImportDropsTheToken | apps/desktop/src-tauri/src/identity.rs:311-320 | one locked read, a key pasted in, and the machine's token is gone |
| OperationLaws.HealingSettles | apps/desktop/src-tauri/src/secrets.rs:152-157 | on success the marker names the identity and a second healing writes nothing; one already right costs nothing; key and confirmation are never touched |
| OperationLaws.WipeExactly | apps/desktop/src-tauri/src/secrets.rs:296-329 | by the fates of its three removals: what a wipe leaves of marker, key and confirmation, and what it says; refused and untouched without a confirmed backup |
| OperationLaws.ImportExactly | apps/desktop/src-tauri/src/identity.rs:294-333 | by the fates of its steps: the key is in place exactly if its write was not refused, the confirmation cleared exactly if none of the four writes and reads was, and only then is success reported |
| OperationLaws.RememberedIsReadable | apps/desktop/src-tauri/src/machine.rs:137-163 | a registration remembered reads back as given beside everything there was; each error is said for exactly the inputs it is for |
| OperationLaws.ForgottenIsGone | apps/desktop/src-tauri/src/machine.rs:201-221 | the token is gone, the name exactly unless it was to be kept, the rest as it was; with neither there nothing is written |
| OperationLaws.MigratedIsFiled | apps/desktop/src-tauri/src/machine.rs:47-69 | a bare slot moves under the server exactly where none stands there, the bare ones are gone, the rest as it was |
| KeyStoreLaws.MachineTouchesItsOwn | apps/desktop/src-tauri/src/machine.rs:47-221 | registering, forgetting and migrating, cut off anywhere, change no slot but that server's and the bare ones, and create no entry |
| KeyStoreLaws.OthersAreNotOwn | apps/desktop/src-tauri/src/machine.rs:34-40 | those slots are neither the identity nor another server's |
| KeyStoreLaws.ProvisionKeeps | apps/desktop/src-tauri/src/agent_keys.rs:121-207 | provisioning, cut off anywhere, leaves every earlier slot as it was |
| KeyStoreLaws.StepKeepsMark | apps/desktop/src-tauri/src/secrets.rs:268-329 | one operation of any kind, cut off between any two writes, never leaves a marker without its key |
| KeyStoreLaws.RunKeepsMark | apps/desktop/src-tauri/src/secrets.rs:268-329 | so in every run of all the store's operations, with no outside deletion of the entry: a crash alone never makes a false locked state |
| KeyStoreLaws.RunKeepsIdentity | apps/desktop/src-tauri/src/identity.rs:202-251 | in every run, however the keychain locks and whoever deletes the marker, a stored identity is replaced by an import or a wipe and nothing else |
| MarkerLaws.RunKeepsMarkerPublic | apps/desktop/src-tauri/src/secrets.rs:32-34 | over every run of all operations, on any keychain and cut off anywhere, the marker file never holds anything but a public key or the beginning of one |
| MarkerLaws.SuccessNamesTheKey | apps/desktop/src-tauri/src/secrets.rs:139-157 | on any keychain, an operation that reports success has left the marker naming the identity stored, or has touched neither |
| MarkerLaws.ImportNamesTheKey | apps/desktop/src-tauri/src/identity.rs:294-333 | an import that succeeds answers with the public key, has the marker name it, and the next load returns the key imported and writes nothing |
| MarkerLaws.StateExactly | apps/desktop/src-tauri/src/identity.rs:176-200 | for every world, fate and environment, when the answer is ready, none, locked or nothing at all |
| MarkerLaws.LoadExactly | apps/desktop/src-tauri/src/identity.rs:213-251 | by what is stored and the fates of its steps: when a load returns the stored key, when the minted one, when an error, and what it leaves |
| MarkerLaws.RegistersExactly | apps/desktop/src-tauri/src/machine.rs:47-221 | exactly when remembering, forgetting and migrating succeed |
| AgentKeys.ProvisionIn | apps/desktop/src-tauri/src/agent_keys.rs:121-207 | load before any request, then the fleet, then one store unless nothing is new or the owner is ephemeral |
| AgentKeys.ProvisionFleet | apps/desktop/src-tauri/src/agent_keys.rs:138-197 | the loop over the fleet: reuse, mint, register, skip or stop, agent by agent |
| AgentKeyLaws.SlotsApart | apps/desktop/src-tauri/src/agent_keys.rs:44-46 | agents' slots coincide exactly for the same server and id while ids hold no colon |
| AgentKeyLaws.ServersApartExactly | apps/desktop/src-tauri/src/agent_keys.rs:41-46 | ids keep all servers apart exactly when none of them ends in a colon and another of them |
| AgentKeyLaws.ColonsCollide | apps/desktop/src-tauri/src/agent_keys.rs:44-46 | with a colon in an id one server's slot is another server's |
| AgentKeyLaws.FleetSettles | apps/desktop/src-tauri/src/agent_keys.rs:138-207 | after a run every agent has a key whose public half the office has registered, or was skipped for a reason that stands; earlier slots are unchanged and a new one exists only for a keyed agent |
| AgentKeyLaws.SecondRunIsQuiet | apps/desktop/src-tauri/src/agent_keys.rs:138-207 | a second run against the same office registers nothing, writes nothing and returns the same keys |
| AgentKeyLaws.ProvisionTwice | apps/desktop/src-tauri/src/agent_keys.rs:121-207 | the same through the store, for a persistent owner and a keychain that works |
| FleetLaws.FleetIsDecided | apps/desktop/src-tauri/src/agent_keys.rs:138-197 | every agent is dealt with by itself, from the slots before the run: when the run comes to its end, which keys are returned and kept, and whose names are reported, in the order of the fleet |
| FleetLaws.ProvisionsExactly | apps/desktop/src-tauri/src/agent_keys.rs:121-207 | exactly when a run through the store succeeds, and what it answers; nothing is written for an owner from the environment or when no key is new |
| FleetLaws.NothingWithoutStoreAndOffice | apps/desktop/src-tauri/src/agent_keys.rs:127-136 | an unreadable store ends it before the office is asked anything, a silent office before anything is written |
| BackupGate.WatchGuards | apps/desktop/src-tauri/src/commands.rs:180-264 | every command keeps the guard: a confirmation, or a pending token, belongs to the identity stored now |
| BackupGate.WipeNeedsABackup | apps/desktop/src-tauri/src/commands.rs:180-264 | in every run in which an import that wrote its key has its later steps go through, a wipe that removed the key has the confirmation removed, an export meets no environment key but the one stored and nobody deletes the entry from outside, everything else failing or dying anywhere: a wipe succeeds only if the key stored now was exported and that export's token handed back, since it was stored |
| BackupGate.EnvironmentKeyOpensTheGate | apps/desktop/src-tauri/src/identity.rs:265-280 | with any other key in the environment, export and confirmation open the gate for a stored key nobody exported, every step working |
| BackupGate.DeletedEntryOpensTheGate | apps/desktop/src-tauri/src/secrets.rs:130-137 | with entry and marker deleted from outside, the key minted next stands under the confirmation of the one before |
| BackupGate.LastExportConfirms | apps/desktop/src-tauri/src/commands.rs:210-226 | after an export that succeeds its token, and no other, is not turned away |
| BackupGate.ExportExactly | apps/desktop/src-tauri/src/identity.rs:265-283 | an export succeeds exactly if the blob opens again and the key, stored or from the environment, can be loaded; an error leaves the token before it standing |
| BackupGate.ConfirmExactly | apps/desktop/src-tauri/src/commands.rs:234-251 | a confirmation succeeds exactly for the pending token and a write that works; when the gate stands open after it |
| BackupGate.BackedUpKeyIsWiped | apps/desktop/src-tauri/src/commands.rs:210-264 | exported, confirmed, wiped, every step working: the wipe goes through and nothing is left |
| BackupGate.TokensAreSpent | apps/desktop/src-tauri/src/commands.rs:234-251 | a token handed back is spent whatever the write met: none is accepted after it, itself included |
| BackupGate.ReplacedTokensAreDead | apps/desktop/src-tauri/src/commands.rs:181-264 | an import or a wipe that succeeds turns every outstanding token away |
| BackupGate.FailedConfirmMayOpenTheGate | apps/desktop/src-tauri/src/commands.rs:234-251 | a confirmation that reports no success opens the gate exactly when its token was right and the file came to be before the write failed |
| OperationLaws.WipeConfirmationExactly | apps/desktop/src-tauri/src/secrets.rs:318-327 | a wipe that reports success leaves the confirmation for the next identity exactly when its last removal failed |
| OperationLaws.ImportInheritsExactly | apps/desktop/src-tauri/src/identity.rs:294-333 | a new key stands under the old key's confirmation exactly when its write went through and one of the three steps after it did not |
| BackupGate.ImportTokenExactly | apps/desktop/src-tauri/src/commands.rs:181-198 | once an import has written its key, an outstanding token outlives it exactly when the first step refused after that was refused with an error |
| BackupGate.FailedImportLeavesTheToken | apps/desktop/src-tauri/src/commands.rs:181-198 | such an import, whose marker could not be written: the old export's token then opens the gate for a key nobody exported |
| BackupGate.CutImportLeavesTheGateOpen | apps/desktop/src-tauri/src/identity.rs:323-333 | where it ends: an import cut off before its last step leaves the old confirmation to the new identity |
| BackupGate.RefusedClearOutlivesTheWipe | apps/desktop/src-tauri/src/secrets.rs:318-327 | a wipe whose last removal fails reports success with the confirmation still there |
| BackupGate.ImportClearsExactlyOnSuccess | apps/desktop/src-tauri/src/identity.rs:294-333 | on any keychain, an import over a confirmed identity clears the confirmation exactly when it reports success |
| Zone.SeenAsUtc | packages/shared/src/routine.ts:195-213 | reading the clock a zone shows and writing it as UTC loses only the seconds |
| Zone.DatesRunOn | packages/shared/src/routine.ts:375-387 | a day or month past its end runs on by days and months, as `Date.UTC` has it, for every date in digits |
| Zone.WeekdaysGoRound | packages/shared/src/routine.ts:195-213 | weekdays follow each other day by day from the epoch, a Thursday |
| Zone.WallClockToEpoch | packages/shared/src/routine.ts:223-235 | the two passes over the wall clock come to the offset read at the first guess |
| Zone.FindsTheMoment | packages/shared/src/routine.ts:215-235 | with at most one change of offset about, the moment returned shows the requested clock exactly when some moment does, hours that come twice included |
| Zone.GapIsMissedByItself | packages/shared/src/routine.ts:215-235 | a time in the gap is missed by exactly the gap |
| Zone.LandsAfterExactly | packages/shared/src/routine.ts:218-222 | and lands after the gap, as documented, exactly when the clock read as UTC is not before the change; always at or east of UTC, never west |
| Zone.NewYorkLandsBefore | packages/shared/src/routine.ts:218-222 | half past two on New York's spring night lands at half past one |
| Zone.NextWeekdayIsEarliest | packages/shared/src/routine.ts:340-347 | the next such weekday at that time is ahead, on that weekday, and no earlier civil day of that weekday is still to come |
| ClockLaws.ClocksRead | packages/shared/src/routine.ts:175-193 | the clock reader takes exactly the texts that denote a time, and for that time: one or two digits, perhaps two for the minute, `am` before noon and `pm` from noon on by the hour a twelve-hour clock shows, bare or with `h` the hour of the day; noon, midday and midnight |
| ClockLaws.HalfPastFive | packages/shared/src/routine.ts:324-331 | `weekdays at 5:30 pm` is half past seventeen and `5:30 am` half past five |
| PhraseLaws.AcceptedMomentsAreAhead | packages/shared/src/routine.ts:282-388 | every phrase accepted as one moment names one strictly after now |
| PhraseLaws.CronIgnoresNow | packages/shared/src/routine.ts:282-388 | a phrase read as a cron at one moment is read as the same cron at any other |
| PhraseLaws.CronRoundTrip | packages/shared/src/routine.ts:480-488 | the phrase of every cron in the reader's alphabet reads back to exactly it, at every moment |
| PhraseLaws.PlanReadsBack | packages/shared/src/routine.ts:446-488 | for the plain schedules the words themselves read back, so they are the phrase |
| PhraseLaws.ClockReadsBack | packages/shared/src/routine.ts:405-409 | a clock time as printed is read as itself |
| PhraseLaws.DailyIsDescribed | packages/shared/src/routine.ts:446-471 | the words for a daily schedule name its group or its days |
| PhraseLaws.PlanIsDescribed | packages/shared/src/routine.ts:446-471 | the words for every kind of cron there are words for |
| ClockLaws.PlanLinesRead | packages/shared/src/routine.ts:286-291 | each such cron, typed as a line, is taken as it is |
| ClockLaws.LettersAndPleaseDoNotMatter | packages/shared/src/routine.ts:282-287 | a phrase is read the same in any letters and after `please`, cron lines aside |
| ClockLaws.HourlyReads | packages/shared/src/routine.ts:318-322 | `hourly` and `every hour`, with or without a minute, with or without its colon: taken up to 59 |
| PhraseLaws.NamedReadsBack | packages/shared/src/routine.ts:333-351 | day names in words, then a time, are read as exactly those days at that time |
| NameLaws.NamedTimesRead | packages/shared/src/routine.ts:333-352 | after `every`, `on` or `weekly on`, days by name and any time are read, as a cron or as the next such day, exactly when the time opens with a digit; spelt out in letters it is taken for more names and the phrase is refused |
| NameLaws.MondayAtNoonIsRefused | packages/shared/src/routine.ts:333-352 | `every monday at noon` is refused |
| NameLaws.CommaBeforeAtIsRefused | packages/shared/src/routine.ts:333-352 | `every monday, at 9` is refused: a comma before the `at` keeps it from ending the names |
| NameLaws.LoneSEndsTheNames | packages/shared/src/routine.ts:333-352 | `every monday s at noon` is read: a lone `s` ends the names |
| NameLaws.NamedMorningReads | packages/shared/src/routine.ts:333-351 | days by name without a time are at nine in the morning, whatever stands before them |
| RepeatLaws.WeekendAtNoonIsRead | packages/shared/src/routine.ts:324-331 | `every weekend at noon` is read |
| RepeatLaws.GroupsRead | packages/shared/src/routine.ts:324-331 | each of the nine groups of days is read at every time there is, and refused at what is none |
| RepeatLaws.GroupsDefaultToMorning | packages/shared/src/routine.ts:324-331 | and is at nine in the morning without one |
| RepeatLaws.EveryReads | packages/shared/src/routine.ts:302-317 | in every spelling of unit and number, which counts of minutes, hours and days are taken, exactly, and the cron each becomes |
| MomentLaws.OnWeekdayReads | packages/shared/src/routine.ts:340-347 | `on`, any word for a day and any time opening with a digit: once, at the earliest such day's moment ahead |
| MomentLaws.InReads | packages/shared/src/routine.ts:354-360 | a number or `a` or `an` of any unit from now, and refused for none |
| MomentLaws.ClockPhrasesRead | packages/shared/src/routine.ts:362-373 | any time after `today`, `tomorrow` or `at`: which civil day, and when refused |
| MomentLaws.TonightReads | packages/shared/src/routine.ts:362-373 | `tonight`, whatever follows it, is eight in the evening, today's or tomorrow's once that has passed |
| MomentLaws.DatesRead | packages/shared/src/routine.ts:375-387 | a date and a time however joined, with seconds or without, is that moment in the zone, or in UTC when it ends in `Z`, and refused once passed; a date alone is at nine |
| ClockLaws.SecondsAreDropped | packages/shared/src/routine.ts:378-379 | seconds and their fraction are dropped from a time that has them, and nothing else is |
| ClockLaws.IsoMomentsRead | packages/shared/src/routine.ts:375-387 | a moment as programs print it is that minute in UTC wherever the office is, and refused once passed |
| ClockLaws.DatedHalvesRead | packages/shared/src/routine.ts:375-387 | after a date the half of the day may be a word of its own |
| ClockLaws.UnitsNest | packages/shared/src/routine.ts:255-269 | the twelve words for a unit, and each unit in the next: sixty minutes, twenty-four hours, seven days |
| ClockLaws.TomorrowIsTheNextDay | packages/shared/src/routine.ts:237-251 | today's clock time is on the civil day it is in the zone, tomorrow's on the civil day after it |
| ClockLaws.BareTimesRead | packages/shared/src/routine.ts:362-373 | a time alone is today's, or tomorrow's once that has passed |
| ClockLaws.GluedTimesRead | packages/shared/src/routine.ts:362-373 | `today` and `tomorrow` may run into the time after them |
| Saying.DayIndexes | packages/shared/src/routine.ts:416-430 | the loops over a cron's day field compute the days it names, 7 as Sunday |
| Saying.FieldNames | packages/shared/src/routine.ts:411-430 | a field names exactly the days of its parts: a digit, or all between two, seven being Sunday too |
| PhraseLaws.ListedDays | packages/shared/src/routine.ts:411-430 | a sorted list of days in a cron field names exactly those days |
| OnceLaws.OnceReads | packages/shared/src/routine.ts:480-485 | for every moment and every zone, what its phrase comes to: refused past the year 9999, else the moment the clock it shows stands for, if that is ahead |
| OnceLaws.OnceRoundTrip | packages/shared/src/routine.ts:473-485 | a moment's phrase reads back to it exactly if it is ahead, its year has four digits and it is the moment its clock stands for; only whole minutes are |
| OnceLaws.WholeMinutesSeenAgain | packages/shared/src/routine.ts:215-235 | with one change of offset about, a whole minute is the moment its clock stands for unless that clock comes twice and this is the other time |
| OnceLaws.SecondsAreLost | packages/shared/src/routine.ts:354-360 | `in 45 minutes`, said with seconds on the clock, is a moment whose phrase never reads back to it |
| OnceLaws.SecondTimeIsLost | packages/shared/src/routine.ts:473-485 | half past one on New York's autumn night: the phrase of the second reads back to the first |
| Nest.Workspace.WriteAgentsFile | packages/acp-harness/src/nest.ts:222-246 | the two files and which of them were written, in each case: left alone, stale version, nothing new |
| Nest.SplitUndoesAssembly | packages/acp-harness/src/nest.ts:238-267 | splitting an assembled file returns head and begin line always, and the owner's tail exactly when the rendered section holds no end marker |
| Nest.SplitHeadIsClean | packages/acp-harness/src/nest.ts:257-267 | a head split off any file holds neither marker, so it can be put back |
| Nest.TemplateIsGood | packages/acp-harness/src/nest.ts:225-226 | a template can be put back exactly when its begin line ends before its end marker |
| Nest.RewriteKeeps | packages/acp-harness/src/nest.ts:222-246 | one rewrite: head kept unless the version moved; tail kept exactly when the rendered section holds no end marker |
| Nest.MarkerInsideIsTaken | packages/acp-harness/src/nest.ts:257-267 | a rendered section that holds an end marker hands what follows it, and the marker written after it, to the owner's tail |
| Nest.SecondRewriteWritesNothing | packages/acp-harness/src/nest.ts:238-245 | with the same inputs again the version is never written, and the file, unless left alone, exactly when the rendered section holds an end marker |
| Nest.OwnersTextSurvives | packages/acp-harness/src/nest.ts:87-91 | through any number of rewrites the owner's text below the end marker is unchanged, and above it too unless the version had moved first |
| NestLaws.OwnFileIsLeftAlone | packages/acp-harness/src/nest.ts:222-246 | a file is left alone exactly if it is there and a marker is missing or the end stands before the begin, and then neither file is touched; what is said to be written is what changed |
| NestLaws.OwnFileStays | packages/acp-harness/src/nest.ts:231-236 | so it stays through any number of rewrites, whatever is rendered; any other is never left alone again |
| NestLaws.SectionIsWritten | packages/acp-harness/src/nest.ts:238-245 | after a rewrite what stands between the markers is the section rendered, exactly if it holds no end marker; where there was no file, around it is the template |
| Earshot.EarshotTracker.Update | packages/shared/src/voice.ts:176-207 | pairs and changes after a tick, loops and sweep as written |
| Earshot.EarshotTracker.Remove | packages/shared/src/voice.ts:210-219 | pairs and changes after somebody leaves |
| Earshot.EarshotTracker.Hearers | packages/shared/src/voice.ts:222-230 | the partners of one id, in the order of the pairs |
| EarshotLaws.KeysApart | packages/shared/src/voice.ts:153-155 | two pairs share a key exactly when they are the same two people, in either order |
| EarshotLaws.WithinIsDistance | packages/shared/src/voice.ts:187-193 | within reach is no farther apart than it by the straight distance, either way round |
| EarshotLaws.UpdateTracks | packages/shared/src/voice.ts:163-207 | two humans here are tracked after a tick exactly when within the radius, or tracked before and within radius and margin; one change is said if that is news, none otherwise |
| EarshotLaws.OthersEnd | packages/shared/src/voice.ts:200-206 | every other pair is over after a tick, said once |
| EarshotLaws.RemoveEnds | packages/shared/src/voice.ts:209-219 | a departure ends exactly the pairs that person was in, each said once |
| EarshotLaws.HearersAreTracked | packages/shared/src/voice.ts:221-230 | hearing is being a tracked pair: mutual, nobody twice, nobody themselves |
| EarshotLaws.RunReplays | packages/shared/src/voice.ts:163-219 | over any run, replaying all changes from nothing gives exactly the pairs tracked, no enter for one in, no leave for one out |
| EarshotLaws.OnlyHumansHear | packages/shared/src/voice.ts:163-175 | after the last tick and any departures, both ends of every pair were humans at that tick and have not left |
| Ring.TileBeside | packages/shared/src/map.ts:284-313 | a free tile on the innermost ring that has one, closest on that ring, first in scan order among equals; null exactly when no ring searched has one |
| Ring.CountOut | packages/shared/src/map.ts:291-299 | the two loops list each tile of the ring's edge exactly once |
| Ring.OneAnswer | packages/shared/src/map.ts:284-313 | that description has one answer |
| Ring.NearestExactly | packages/shared/src/map.ts:270-283 | where the answer is nearest whatever else is free: exactly on the last ring, or no farther than the middle of the next ring's side |
| Ring.NearestUpToThreeRings | packages/shared/src/map.ts:270-283 | 'the nearest free tile' holds on every floor exactly when at most three rings are searched; four is the default |
| Ring.DrawnIsWalkable | packages/shared/src/map.ts:263-266 | a tile can be stood on exactly where the floor is drawn so, row by row; nobody is sent into a wall, off the floor or onto somebody |
| Sorting.SortMeans | packages/shared/src/map.ts:300-305 | the stable sort: by key, equals in the order they came, the same elements |
| Sorting.SortPermutes | packages/shared/src/map.ts:300-305 | nothing is lost and nothing doubled |
| Mentions.AddressedNames | packages/shared/src/settings.ts:226-247 | the names called, each once, in the order the text first reaches them |
| Mentions.WantedMeans | packages/shared/src/settings.ts:228-231 | names are tried longest first, equals as given, blanks not at all |
| Mentions.HitIsCalled | packages/shared/src/settings.ts:234-245 | the first name that matches at an `@` is the longest candidate there, the first given among equals; if none matches nobody is called |
| Mentions.OneNameAtATime | packages/shared/src/settings.ts:216-225 | an `@` calls one name at most |
| Mentions.PickThenSend | packages/shared/src/settings.ts:264-288 | a name picked where the picker opens calls somebody exactly when no `_` or `-` stands before the `@`, and never a shorter name than the one picked |
| Mentions.QueryExactly | packages/shared/src/settings.ts:264-277 | where the picker is open and what it looks for, exactly: the last `@` before the caret, on its line, after no letter or digit |
| Mentions.PickedInPlace | packages/shared/src/settings.ts:280-288 | a pick changes what stands between its `@` and the caret and leaves the caret behind the space |
| Passphrase.Limit | apps/desktop/src-tauri/src/nip49.rs:192-195 | the limit never wraps, and lets through a whole number of rounds |
| Passphrase.UniformIndex | apps/desktop/src-tauri/src/nip49.rs:192-201 | the first draw not rejected, by its remainder |
| Passphrase.LandingCount | apps/desktop/src-tauri/src/nip49.rs:188-191 | how many draws below any bound land on an index |
| Passphrase.EveryIndexAlike | apps/desktop/src-tauri/src/nip49.rs:188-201 | every index has exactly (2^32 - 1) / len accepted draws |
| Passphrase.ModulusIsBiased | apps/desktop/src-tauri/src/nip49.rs:188-191 | a bare modulus treats all indices alike exactly when the length divides 2^32; otherwise the first 2^32 mod len are favoured |
| Passphrase.Wordlist | apps/desktop/src-tauri/src/nip49.rs:159-165 | exactly the lines that are no comment, not blank and without the separator |
| Passphrase.GeneratePassphrase | apps/desktop/src-tauri/src/nip49.rs:177-186 | the words of the first six accepted draws, joined |
| Passphrase.PhraseSplitsBack | apps/desktop/src-tauri/src/nip49.rs:151-158 | the phrase cuts back into exactly the six words drawn |
| Passphrase.PhrasesDiffer | apps/desktop/src-tauri/src/nip49.rs:177-186 | with no word listed twice, two phrases agree exactly when all six indices do |
| Text.SplitUndoesJoin | apps/desktop/src-tauri/src/nip49.rs:151-158 | splitting undoes joining exactly when no part holds the separator |
| Text.PaddedOrders | apps/desktop/src-tauri/src/personal.rs:581-583 | padded numbers of one width compare lexically as they compare |

## Left out

- BackupLaws.HeldUntilTheOfficeOpens: starts at the first restore and supposes stamps of 15 characters and a version text that does not begin with `failed`.
- LaunchLaws.Open: supposes a clock that does not go back between exits; that the files are those from before the upgrade, that no directory had the copy's name already and that the failed files are not moved to it.
- LaunchLaws.BackToTheVersionBefore: supposes a stamp of 15 characters and a version text that reads back from the name (`BackupLaws.VersionReadsBack`).
- LaunchLaws.RetriesRotateItOut: supposes that every new copy is named after all other directories.
- FleetLaws.FleetIsDecided: distinct agent ids, as the office lists them.
- BackupGate.WipeNeedsABackup: supposes of imports and wipes that what follows the write, or the removal, of the key goes through, of exports that no other key is in the environment, and that nobody deletes the entry from outside; the laws beside it say what comes of it otherwise.
- KeyStoreLaws.RunKeepsMark: supposes a keychain that keeps what it says it keeps, and no deletion of the entry from outside; the marker may be deleted.
- Zone.FindsTheMoment: supposes at most one change of offset within a day of the time asked for, and offsets in whole minutes and under a day.
- EarshotLaws.UpdateTracks: distinct ids without spaces, as the office gives them out, and a margin that is not negative.
- Mentions.PickThenSend: supposes a lower case that works character by character; `AddressedNames` does not.
- Passphrase.UniformIndex: over a finite sequence of draws, `None` standing for a loop still drawing; that random draws end it is probability.
- Cryptography: signing, attestation contents, bech32, scrypt and the sealed blob. Keys have abstract encodings; export is told whether its blob opened again.
- Errors of single file operations in backing up, restoring and pruning, and a crash while copying before an upgrade, writing the record or rotating; a crash between or within the file steps of a restore is modelled.
- Two processes on one store, and the lock around a store's write.
- Permission bits, the keychain's own prompts, and the contents of error messages and log lines.
- The record's id, port and creation date, the payload, the plan and the secret of the office's server.
- Spawning, health checks, pipes, signals and threads; of a server's run only whether it answered, what it left on disk, when and how it ended. A launch that fails before the first spawn, and a stop between two attempts, are left out with them.
- Names that are not UTF-8, and byte offsets into backup names with characters outside ASCII.
- The cron engine and its floor of one run per interval, and which zone names there are.
- `Date.UTC` reading years 0 to 99 as 1900 to 1999, and moments no `Date` can hold.
- The single words of error texts: every refused phrase is one `Refused`.
- Lower-casing of characters outside ASCII in schedule phrases, and white space other than as a separator of words.
- Trimming of a machine's token and name before they are remembered: they are given trimmed.
- What the managed section says, the nest's directories and its link to the repositories, and how the version file's number is parsed.
- Voice frames and their headers, and the order in which a relay delivers changes.
- Standing tiles, seats, zones and spawn points of a map: simple scans beside the ring search. Coordinates are whole tiles, and occupied tiles are tiles rather than their printed form.
- Mentions by pattern, and the list a picker shows.
