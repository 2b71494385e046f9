# Verified models of the forecast network

This project models the parts of the forecast network whose correctness an operator has to take on
trust, and proves what they promise. `dafny verify dfyconfig.toml` checks all of it.

**Recovery-key shares** (`Xors`, `Gf256`, `Bits`, `Cyclic`, `Powers`, `Polynomials`, `Interpolation`,
`Shamir`, `Sharing`). The log and exp tables, `split` and `combine` are the loops of the program. They
are proved against carry-less multiplication modulo 0x11D, which is shown to be a field; over any field
of that kind a polynomial with d coefficients has fewer than d roots, and Lagrange interpolation at
zero gives back the constant term. From this follow reconstruction from any threshold of shares and
perfect secrecy below it.

**The backup scheduler** (`Schedule`, `ScheduleSafety`, `ScheduleTheorems`, `ScheduleProgress`,
`ScheduleRuns`, `ScheduleOutcomes`, `ScheduleEvidence`, `Scheduler`, `Retention`). `run_once` is a machine whose steps are the durable writes and
the programs it starts. Any number of invocations overlap; clocks and answers are arbitrary; every write
may fail and every invocation may be cut off between any two steps. An invariant of the machine gives the
guarantees over all runs; the runs that meet its limits are built step by step. What one call comes to
is then said of the clock, the files and the answers alone, and whatever is on file is traced back to the
calls and answers it came of. The class `TaskDirectory`
is the program in its own form, and every call of it is proved to be a run of the machine. The retention
plan is proved separately.

**Tombstones** (`Tombstones`, `TombstoneTheorems`, `TombstoneOutcomes`, `LoginContexts`). Validation and replay of the
privacy registry over the account tables, as the loops of the program over one table record, with the
triggers as guards on later writes, and the sign-ins and sign-outs that the tables come from.

**The encrypted archive** (`Json`, `Canonical`, `JsonText`, `Archive`, `ArchiveTheorems`,
`ArchiveContents`, `Base58`). Canonical JSON
is printed and parsed concretely. Cryptography, base64, zip and key wrapping are functions with their
laws, which `Quads` helps to show can be met.

**Adjudication** (`Adjudication`, `AdjudicationSafety`, `AdjudicationTheorems`, `AdjudicationOutcomes`,
`AdjudicationEvidence`, `Adjudicator`). Calls of `adjudicate_forecast` interleave with each other, with every other command and
with everything else that retains a body, at each read, at each step of the timing review and at each
batch; answers get lost and batches fail. The class `Database` is one call in the program's own form.

**Smaller pieces.** The RPC relay (`Relay`), the point market maker (`Lmsr`) and the deployment buffer
(`Buffer`).

`Numerals`, `Sorting`, `Strings` and `Identifiers` hold what several of these share.

## How things are represented

- A hash stands for what it was taken of, so two hashes are equal exactly when their contents are: the
  digest of a configuration is the configuration, an event is its own hash, a registry is its own head,
  and a backup ID is its start, task and slot (the program keeps twelve hexadecimal digits of a hash of
  the last two).
- Sealing is ideal where it matters: `ArchiveContents.CiphertextDetermines` takes it that only what was
  sealed opens, and that different contents or associated data never seal to the same bytes. The round
  trip needs no more than that what was sealed opens.
- The text of a record in an adjudication is its canonical JSON text, and the parser is a parameter with
  one law, that canonical text is its own canonical form; `AdjudicationEvidence.JsonIsLawful` shows it of
  the JSON in `Canonical`. Whether a text is a profile card is a parameter too.
- Randomness, clocks, exit codes, file contents and database failures are parameters or answers of the
  environment, and every one of them is allowed at every point.
- Two invocations of the scheduler never share a task directory unless their task IDs agree; the machine
  lets invocations of any configuration meet in one directory, which only adds runs.

## Where the code differs from what is said about it

- The comment in `scripts/recovery_key_shares.py` calls the polynomial the Rijndael polynomial, which is
  0x11B (section 4.2 of FIPS 197). The constant is 0x11D, and 0x11D is what is modelled.
- `tests/test_recovery_key_shares.py` says that fewer shares than the threshold never reconstruct. With
  one share fewer `combine` still answers, and `Sharing.OneShareShort` shows that the answer is the
  secret exactly when the highest coefficient drawn for every byte is zero; `Sharing.SharesShort` gives
  the condition for any number fewer.
- A crash or a failed write between creating a receipt and filling it leaves a torn receipt. The first
  invocation can already do so (`ScheduleRuns.TornReceiptHappens`); from then on no run makes progress
  (`ScheduleTheorems.TornReceiptBlocks`) and the slot is never completed. A pending job that is due goes
  on exactly when its receipt is not torn (`ScheduleRuns.ProgressExactlyWhenNotTorn`).
- The retry delays bound the attempts of a job only while no crash keeps the handler from running and
  its own write is not lost: with either, `ScheduleRuns.InterruptionsRepeatBackups` starts the backup
  program as often as asked, without coming to reconciliation.
- The evidence check of an adjudication reads the body supplied last under a hash, but the row that is
  kept is the first one to arrive, and a hash in the table is one of three: the plain digest of the body,
  the commitment of a record, or the hash of a profile card. So a success may leave a cited hash on a body
  that does not hash to it. The timing review refuses a row that is already wrong, but a forecast that
  needs no review is not looked at (`AdjudicationEvidence.RetainedEarly`), and a row may arrive between
  the review and the batch (`AdjudicationEvidence.CheckedBodyMayNotBeKept`). A success is sure to keep its
  evidence exactly when the evidence is not one of the two prefixes followed by the text of a record or of
  a card, or is too large to be supplied (`AdjudicationEvidence.KeptPlainExactlyWhen`).
- The relay's `errors` counter is more than the calls out that failed: exceptions that leave a handler,
  those its last clause catches and failed thread starts move it too (`Relay.Accounts`).

## Model

| member | source | states |
|---|---|---|
| Gf256.MulIsTheRemainder | scripts/recovery_key_shares.py:37-53 | The field product is the remainder of carry-less multiplication modulo 0x11D, and no other byte is a remainder. |
| Gf256.RemainderIsUnique | scripts/recovery_key_shares.py:37-45 | Division by 0x11D leaves one remainder below 256. |
| Gf256.TopBitWraps | scripts/recovery_key_shares.py:45 | Doubling the top bit alone leaves 0x1D: the modulus in numbers. |
| Powers.OrderIs255 | scripts/recovery_key_shares.py:41-45 | Of the powers 1 to 255 of the generator 2, exactly the 255th is 1, so the exp table repeats with period 255. |
| Powers.ExpSurjective | scripts/recovery_key_shares.py:42-44 | Every nonzero byte is a power of the generator: the log table has no gaps. |
| Powers.ExpAdds | scripts/recovery_key_shares.py:50-53 | Multiplying powers adds exponents. |
| Powers.MulAssociates | scripts/recovery_key_shares.py:50-53 | The product is associative. |
| Powers.MulCommutes | scripts/recovery_key_shares.py:50-53 | The product is commutative. |
| Powers.MulAddLeft | scripts/recovery_key_shares.py:50-53 | The product distributes over exclusive or. |
| Powers.NoZeroDivisors | scripts/recovery_key_shares.py:50-53 | A product is zero exactly when a factor is. |
| Powers.DivIsQuotient | scripts/recovery_key_shares.py:56-61 | The table quotient is the one byte that times the divisor gives the dividend. |
| Shamir.FillTables | scripts/recovery_key_shares.py:39-47 | The two loops fill the tables with the powers of the generator and their logarithms. |
| Shamir.Tables.Mul | scripts/recovery_key_shares.py:50-53 | The product through the tables is the field product, zeros included. |
| Shamir.Tables.Div | scripts/recovery_key_shares.py:56-61 | The quotient through the tables is the field quotient for every nonzero divisor. |
| Shamir.GfIsField | scripts/recovery_key_shares.py:39-61 | Exclusive or, the product and the quotient make a field. |
| Polynomials.RootBound | scripts/recovery_key_shares.py:70-78 | A polynomial with d coefficients that vanishes at d distinct points is the zero polynomial. |
| Polynomials.DeflateDivides | scripts/recovery_key_shares.py:74-78 | The intermediate values of Horner's rule are the quotient by X + r. |
| Interpolation.Reconstructs | scripts/recovery_key_shares.py:96-106 | Interpolation at zero through at least as many points as coefficients gives the constant term. |
| Interpolation.OnePointShort | scripts/recovery_key_shares.py:96-106 | With one point fewer it gives the constant term exactly when the leading coefficient is zero. |
| Interpolation.TranslationIsBijective | scripts/recovery_key_shares.py:71-78 | Coefficients explaining the observed values under one constant term correspond one to one to those under any other. |
| Interpolation.SomethingExplains | scripts/recovery_key_shares.py:71-78 | Fewer points than coefficients are explained by some coefficients, whatever the constant term. |
| Sharing.Horner | scripts/recovery_key_shares.py:74-77 | The accumulator loop evaluates the polynomial at the share's index. |
| Sharing.Split | scripts/recovery_key_shares.py:64-79 | Refuses an empty secret and bad parameters; otherwise gives shares 1 to n, each holding its polynomials' values byte for byte. |
| Sharing.Recover | scripts/recovery_key_shares.py:94-107 | The outer loops recover, byte for byte, the interpolation at zero. |
| Sharing.Combine | scripts/recovery_key_shares.py:82-107 | Answers exactly for two or more shares of distinct indices in 1 to 255 and one length; anything else gets the refusal of the first of those that fails. |
| Sharing.CombinesExactlyWhen | scripts/recovery_key_shares.py:84-93 | The same of the function that the theorems below are about: done exactly then, and otherwise which refusal, first failure first. |
| Sharing.ThresholdReconstructs | scripts/recovery_key_shares.py:64-107 | Any distinct shares of one split, at least the threshold and in any order, give back exactly the secret. |
| Sharing.OneShareShort | tests/test_recovery_key_shares.py:36-40 | One share short, the answer is the secret exactly when the highest coefficient drawn for every byte is zero. |
| Sharing.SharesShort | tests/test_recovery_key_shares.py:36-40 | With any number of shares below the threshold, the answer is the secret exactly when the coefficients drawn for every byte, divided by the factors X + index of the shares, leave the constant term zero. |
| Sharing.BelowThresholdIsSecret | scripts/recovery_key_shares.py:64-79 | Below the threshold, the draws consistent with what is held are in one-to-one correspondence across all secrets of that length. |
| Sharing.EverySecretIsPossible | scripts/recovery_key_shares.py:64-79 | Below the threshold, every secret of that length could have produced the observed values. |
| Sharing.PossibleDrawIsUnique | scripts/recovery_key_shares.py:64-79 | At threshold minus one, exactly one draw goes with each secret. |
| ScheduleSafety.Reachable | scripts/backup_schedule.py:154-288 | Every state reachable under crashes, retries, clocks and concurrent invocations satisfies the invariant. |
| ScheduleSafety.NextKeeps | scripts/backup_schedule.py:154-288 | Every single step, crash or launch keeps the invariant. |
| ScheduleTheorems.MutualExclusion | scripts/backup_schedule.py:163-174 | At most one invocation is past the lock. |
| ScheduleTheorems.FreshAtMostOnce | scripts/backup_schedule.py:243-246 | Over every run the backup program is started with resume false at most once for a backup ID. |
| ScheduleTheorems.LaterBackupsResume | scripts/backup_schedule.py:243-246 | Every start of the backup program after the first for its ID resumes. |
| ScheduleTheorems.ExportsAreBounded | scripts/backup_schedule.py:219-237 | Over every run, no attempt directory is used twice and the exporter starts at most once more than there are delays for a slot. |
| ScheduleTheorems.RetryIndexInRange | scripts/backup_schedule.py:263-277 | Whenever a retry delay is read, its index is inside the list. |
| ScheduleTheorems.RunsMoveForward | scripts/backup_schedule.py:178-262 | From any reachable state on, filled receipts never change, a job keeps its ID, configuration and frozen digest and its phase never goes back, until its slot has a receipt for exactly that backup and digest. |
| ScheduleTheorems.CompletedSlots | scripts/backup_schedule.py:205-214 | Completed slots strictly increase, and each has its filled receipt. |
| ScheduleTheorems.CutOffCompletionReconciles | scripts/backup_schedule.py:205-214 | After a crash between filling the receipt and clearing the job, the next invocation clears the job against that receipt and starts nothing. |
| ScheduleTheorems.TornReceiptBlocks | scripts/backup_schedule.py:205-212 | A torn receipt stops every later run: disk and history stay as they are. |
| ScheduleRuns.TornReceiptHappens | scripts/backup_schedule.py:243-259 | Under every valid configuration, a first invocation cut off while it files its receipt leaves the task in that state. |
| ScheduleRuns.ProgressExactlyWhenNotTorn | scripts/backup_schedule.py:201-277 | In every reachable state with the lock free, a due invocation under the job's configuration changes what is on disk exactly when the receipt is not torn: it completes the slot, makes a new attempt directory or saves one attempt more. |
| ScheduleRuns.InterruptionsRepeatBackups | scripts/backup_schedule.py:243-277 | However many are asked for, some run with crashes alone, and some with lost handler writes alone, makes that many attempts at one slot and starts that many backups, short of reconciliation. |
| ScheduleProgress.AttemptsSettleJobs | scripts/backup_schedule.py:218-285 | Without crashes, and without the loss of the handler's own write, a job has at most one attempt more than there are delays, its counter counts them, and after the last it is complete or waits for reconciliation. |
| ScheduleProgress.StaysBalanced | scripts/backup_schedule.py:218-285 | Uninterrupted runs keep the attempt counter equal to the attempts made. |
| Scheduler.TaskDirectory.RunOnce | scripts/backup_schedule.py:154-288 | The program, with its handler and its lock, ends in the state of a run of the machine and leaves the lock as it found it. |
| Scheduler.TaskDirectory.Load | scripts/backup_schedule.py:175-200 | Reads the state or starts from an empty one, and makes a job or none as `ScheduleOutcomes.JobIsMadeExactlyWhenDue` says. |
| Scheduler.TaskDirectory.Check | scripts/backup_schedule.py:201-218 | Checks configuration, receipt, phase and due time in order, and reconciles an existing receipt. |
| Scheduler.TaskDirectory.Freeze | scripts/backup_schedule.py:220-237 | Exports into a new attempt directory and saves the frozen digest, or leaves the job for the handler. |
| Scheduler.TaskDirectory.Execute | scripts/backup_schedule.py:243-262 | Saves the running phase before the backup starts, and files its proof before the job is cleared. |
| Scheduler.TaskDirectory.Handle | scripts/backup_schedule.py:263-285 | The handler decides between a retry and reconciliation and saves it, keeping a completion it finds in memory. |
| Scheduler.DriveIsRun | scripts/backup_schedule.py:154-288 | The steps of one invocation are a run of the machine, so its theorems apply. |
| ScheduleOutcomes.BeginsExactlyWhen | scripts/backup_schedule.py:157-161 | A call goes on exactly when every field of its configuration is in range, it is enabled and its clock is not negative. |
| ScheduleOutcomes.JobIsMadeExactlyWhenDue | scripts/backup_schedule.py:178-200 | With the lock free and no job pending, a call makes a job exactly when no slot was completed or its clock has reached (last + 1) * interval * 1000; the slot is the interval its clock is in and the backup ID starts there; otherwise nothing changes. |
| ScheduleEvidence.JobFollowsTheClock | scripts/backup_schedule.py:178-199 | Over every run, the pending job is for a slot that the clock of some call of the run lay in, under the same configuration. |
| ScheduleEvidence.ExportFollowsTheClock | scripts/backup_schedule.py:178-225 | So is every slot the exporter was ever started for. |
| ScheduleEvidence.BackupFollowsTheClock | scripts/backup_schedule.py:183-246 | Every backup ever started has an ID that starts where such a slot does. |
| ScheduleOutcomes.PendingJobIsChecked | scripts/backup_schedule.py:201-219 | What a call under any configuration makes of a pending job: refused, reconciled, left to an operator, waiting or attempted, by the configuration, the receipt, the phase and the time alone. |
| ScheduleOutcomes.AttemptedExactlyWhenDue | scripts/backup_schedule.py:201-219 | An attempt is counted exactly under the job's own configuration, without a receipt, short of reconciliation and not before its time. |
| ScheduleOutcomes.DueCallCompletes | scripts/backup_schedule.py:220-262 | A due call in which nothing goes wrong completes the slot with one export if none is frozen, one backup, resumed exactly when it was running, and the receipt of that snapshot and archive. |
| ScheduleOutcomes.IdleCallCompletes | scripts/backup_schedule.py:178-262 | With no job pending, such a call makes the job of its interval and completes it. |
| ScheduleOutcomes.HandlerReschedules | scripts/backup_schedule.py:263-277 | The handler calls for reconciliation exactly when the snapshot had changed, a running backup left nothing to resume or the delays are used up; otherwise the next attempt is at now + delays[attempts - 1] * 1000. |
| ScheduleOutcomes.AnswersTellTheTruth | scripts/backup_schedule.py:201-285 | Over every run, each answer given after the check of a job says what is then on file, a retry with its time. |
| ScheduleOutcomes.ReconciliationIsFinal | scripts/backup_schedule.py:215-216 | Once reconciliation is called for, no run changes anything or starts a program. |
| ScheduleOutcomes.ReceiptMustMatch | scripts/backup_schedule.py:205-214 | Whatever receipt is found, the job is cleared against it exactly when it is whole and of this backup and snapshot. |
| ScheduleOutcomes.NothingIsOverwritten | scripts/backup_schedule.py:220-259 | An attempt directory or receipt that is there already is left as it is, and the attempt fails. |
| ScheduleEvidence.ReceiptsAreProven | scripts/backup_schedule.py:133-151 | Over every run, each filled receipt has an answer of the run that proved its backup, snapshot and archive. |
| ScheduleEvidence.BackupsAreOfTheExport | scripts/backup_schedule.py:238-246 | Whenever the backup starts, its snapshot is of an export started for its slot, was just read again with that digest, and the running phase is on file. |
| Retention.RetentionPlan | scripts/backup_schedule.py:291-352 | The loop refuses what the program refuses and otherwise returns the specified plan. |
| Retention.PlansExactlyWhen | scripts/backup_schedule.py:298-325 | Refused for the clock, then the parameters, then a record at fault; otherwise the plan is of these parameters and of the whole inventory in order of ID. |
| Retention.KeptExactlyWhen | scripts/backup_schedule.py:302-307 | An ID is kept exactly when fewer than the minimum of verified archives are newer, or as new with a later ID, than a verified one of that ID. |
| Retention.ListedExactlyWhen | scripts/backup_schedule.py:320-331 | An archive is listed exactly when it is verified, unpinned, more than days * 86400000 old and of an ID that is not kept. |
| Retention.MinimumStays | scripts/backup_schedule.py:302-307 | Removing every listed ID leaves the required number of verified archives, or all of them. |
| Retention.CandidatesRankBelowKept | scripts/backup_schedule.py:302-307 | Every listed archive ranks below every one of the newest kept. |
| Retention.PlanIgnoresArrival | scripts/backup_schedule.py:291-352 | With distinct IDs the plan is the same for every order of the inventory. |
| Retention.CandidatesGrow | scripts/backup_schedule.py:320-331 | As time passes the inventory stays acceptable and nothing leaves the list. |
| Retention.CandidatesAreSorted | scripts/backup_schedule.py:332-344 | The list is in order of backup ID. |
| Tombstones.ValidateTombstones | scripts/backup_recovery.py:760-818 | The loop refuses for the first entry at fault, after every check on the envelope and the anchor. |
| Tombstones.AcceptedEntries | scripts/backup_recovery.py:795-817 | An accepted registry holds each entry once, with bounded subjects and times. |
| Tombstones.RestoreDatabase.ApplyRestoreTombstones | scripts/backup_recovery.py:821-961 | The loops over entries and users, in whatever order the set yields them, end in the specified tables and report, or change nothing. |
| Tombstones.RestoreDatabase.QuarantineAll | scripts/backup_recovery.py:907-919 | The users may be quarantined in any order. |
| Tombstones.RestoreDatabase.ReplayEntry | scripts/backup_recovery.py:879-906 | One entry records its tombstone, revokes what it names and yields the users it concerns. |
| TombstoneTheorems.CommitAdvances | scripts/backup_recovery.py:860-870 | A commit never goes back or forks, and leaves the tombstones equal to the registry's entries and a superset of the old. |
| TombstoneTheorems.CommitsExactlyWhen | scripts/backup_recovery.py:764-960 | A replay commits exactly when the registry is in its window, pinned by a fresh anchor, signed, of distinct well-formed entries, no older than and a superset of what was applied, over the needed tables and sound keys; otherwise nothing changes. |
| TombstoneOutcomes.RefusesInOrder | scripts/backup_recovery.py:764-794 | Which refusal a registry gets before its entries are looked at, first failure first. |
| TombstoneOutcomes.SubjectsExactlyWhen | scripts/backup_recovery.py:879-907 | After a commit a user is a new subject exactly when an entry erases them, or a retired address has an identity row or a link of theirs, in those tables that exist; the report counts exactly those. |
| TombstoneOutcomes.SessionsExactlyWhen | scripts/backup_recovery.py:906-919 | A session is gone exactly when its hash is revoked or its user is one of those; the report counts exactly the sessions gone. |
| TombstoneOutcomes.ContextsExactlyWhen | scripts/backup_recovery.py:900-914 | A login context is revoked exactly when its active session is, or when it was not and a session left or a challenge of such a user names it; how its row then reads. |
| TombstoneOutcomes.ChallengesExactlyWhen | scripts/backup_recovery.py:915-918 | An open challenge of such a user is revoked at the time of the replay, and no other row changes. |
| TombstoneOutcomes.NothingElseChanges | scripts/backup_recovery.py:879-941 | The tombstones are the entries, no row is added, and identities and links are left alone. |
| TombstoneOutcomes.ConcernedStayOut | scripts/backup_recovery.py:907-937 | Whoever a replay concerned, the owners of retired wallets among them, has no session and no open login over every later run. |
| TombstoneOutcomes.RetiredForGood | scripts/backup_recovery.py:926-937 | Over every later run a retired address gets no new challenge and no new active identity. |
| TombstoneOutcomes.TriggersRefuse | scripts/backup_recovery.py:920-937 | Each trigger refuses exactly the rows of a quarantined user, a revoked hash or a retired address. |
| TombstoneOutcomes.SignsInExactlyWhen | apps/web-rs/src/wallet_login.rs:711-729 | A sign-in goes through exactly when no trigger refuses it and its context, if any, is there and unrevoked; then it has the only session of that context. |
| TombstoneOutcomes.SignsOut | apps/web-rs/src/auth.rs:361-384 | A sign-out leaves no session of its contexts, revokes them, and touches nothing else. |
| TombstoneTheorems.ContextsRevokedOnce | scripts/backup_recovery.py:901-914 | A context keeps its first revocation time, and its epoch moves by at most one. |
| LoginContexts.ContextsOfAffectedAreRevoked | scripts/backup_recovery.py:898-914 | Where every session is the active one of its context, every context that a session or challenge of an affected user names beforehand is revoked. |
| LoginContexts.LeftExactlyWhen | scripts/backup_recovery.py:898-914 | Over any tables, a context stays unrevoked exactly when it was, its active session is not revoked, no challenge of an affected user names it, and every session of theirs that names it is revoked by itself. |
| LoginContexts.ContextMayBeLeft | scripts/backup_recovery.py:898-914 | Erasing a user and revoking their one session of an inactive context leaves that context unrevoked. |
| LoginContexts.StaysBound | apps/web-rs/src/wallet_login.rs:711-729 | Over every run of replays and guarded writes in which only the application writes sessions and contexts, every session stays the active one of its context. |
| LoginContexts.EveryReplayRevokes | apps/web-rs/src/auth.rs:361-384 | After any run of the application from a database without sessions, a replay revokes every context that those it affects are named in. |
| TombstoneTheorems.ReplayIgnoresOrder | scripts/backup_recovery.py:879-919 | Neither the order of entries nor the order of users changes the result. |
| TombstoneTheorems.ReplayTwice | scripts/backup_recovery.py:879-919 | Replaying the same entries later changes no row. |
| TombstoneTheorems.ApplyTwice | scripts/backup_recovery.py:821-961 | Applying the same registry again under a fresh anchor is accepted, changes nothing and revokes no session. |
| TombstoneTheorems.AlwaysSafe | scripts/backup_recovery.py:920-937 | Whatever signs in or is inserted or updated later, no reachable state holds a session of a quarantined user or under a revoked hash. |
| TombstoneTheorems.RunsAdvance | scripts/backup_recovery.py:860-870 | Over every run the sequence never goes back, one sequence never names two registries, and nothing applied is dropped. |
| Base58.Encode | scripts/backup_recovery.py:61-67 | The division loop writes the digits of the number after one '1' for each leading zero byte. |
| Base58.RoundTrip | scripts/backup_recovery.py:61-67 | A decoder gives back exactly the bytes, for every length. |
| Base58.Injective | scripts/backup_recovery.py:61-67 | No two byte strings have the same text. |
| Base58.LeadingOnes | scripts/backup_recovery.py:61-67 | Leading zero bytes are exactly the leading '1's. |
| Base58.KeyBounds | scripts/backup_recovery.py:61-67 | 58^43 < 2^256 < 58^44. |
| Base58.KeyLength | scripts/backup_recovery.py:61-67 | Every 32-byte key has between 32 and 44 characters. |
| Base58.ZeroKey | scripts/backup_recovery.py:61-67 | Zero bytes take one character each, so a key of 32 takes 32. |
| Base58.HighestKey | scripts/backup_recovery.py:61-67 | The key of 32 bytes of 255 takes 44 characters. |
| Json.LoadsBack | scripts/backup_recovery.py:43-46 | Printed text is read back as the value it was printed from. |
| Json.LoadedIsProper | scripts/backup_recovery.py:199 | Whatever text is read, no dictionary in it has a key twice. |
| JsonText.AnyTextIsRead | scripts/backup_recovery.py:199 | Any text of a value, with spaces wherever they may stand and keys that repeat, is read as that value with the last of each key's values. |
| JsonText.LastValueCounts | scripts/backup_recovery.py:199 | What is read under a key is what the text sets it to last. |
| JsonText.NumberedCharacterIsRead | scripts/backup_recovery.py:199 | Four hexadecimal digits after a backslash and u are read as the character of that number, and a surrogate as none. |
| JsonText.CharIsPrinted | scripts/backup_recovery.py:43-46 | Which characters are escaped, and how, with lower-case hexadecimal; every other is itself. |
| JsonText.DictionariesArePrinted | scripts/backup_recovery.py:43-46 | The separators are a colon and a comma, without spaces. |
| Canonical.CanonIsStable | scripts/backup_recovery.py:43-46 | Canonical text is read back as the sorted value, whose canonical text it is. |
| Canonical.CanonIsInjective | scripts/backup_recovery.py:43-46 | Two values have one canonical text exactly when they differ in key order alone. |
| Canonical.CanonIgnoresKeyOrder | scripts/backup_recovery.py:43-46 | The order in which keys were set does not matter. |
| Strings.EarlierAtFirstDifference | scripts/backup_recovery.py:43-46 | The order of keys is decided by the first character that differs, a proper prefix first. |
| Canonical.RemoveFromCanon | scripts/backup_recovery.py:208-216 | Taking the ciphertext out of the parsed envelope leaves the canonical form of the header. |
| ArchiveTheorems.EnvelopeBack | scripts/backup_recovery.py:182-216 | The associated data recomputed after parsing is the header's text, byte for byte. |
| ArchiveTheorems.RoundTrip | scripts/backup_recovery.py:143-241 | Every archive that is encrypted and not over the length bound is decrypted under its key to what was zipped and the same manifest. |
| ArchiveContents.EncryptsExactlyWhen | scripts/backup_recovery.py:121-152 | An archive is written exactly for a backup ID, 1 to 67108864 bytes, a key of 3072 bits and the four seeds of the pinned deployment, and otherwise refused for the first of these. |
| ArchiveContents.ContentsComeBack | scripts/backup_recovery.py:154-172 | What comes back: d1.sql with the database, devnet-roles.json with each role's own seed under that role and nothing else, and a manifest of that backup with each role's own key and a true line on each file. |
| ArchiveContents.AcceptedIsVouchedFor | scripts/backup_recovery.py:194-241 | Only a text of the six keys and the format, addressed to the key, that opens over its own header to a zip of the two files that its manifest vouches for, is accepted. |
| ArchiveContents.VouchedForIsAccepted | scripts/backup_recovery.py:194-241 | Every such text is accepted, with those files and that manifest. |
| ArchiveContents.RefusedInOrder | scripts/backup_recovery.py:197-216 | Which refusal any other text gets up to its seal, first failure first. |
| ArchiveContents.CiphertextDetermines | scripts/backup_recovery.py:194-241 | Whatever text is accepted under any key with the ciphertext of an archive yields the files and the manifest of that archive. |
| Identifiers.BackupIdForm | scripts/backup_recovery.py:86-89 | A backup ID is fixed text around eight and six digits and twelve lower-case hexadecimal ones. |
| ArchiveTheorems.SeedFileFits | scripts/backup_recovery.py:154-160 | The seed file always fits the 4096 bytes allowed on the way back. |
| ArchiveTheorems.EncodedFits | scripts/backup_recovery.py:197-198 | With hashes, keys and zip of their usual sizes the text always fits the length bound, up to the largest database. |
| ArchiveTheorems.LawsCanBeMet | scripts/backup_recovery.py:143-241 | Primitives exist that decode, measure, unzip, unwrap and open as assumed, and whose seals cannot be forged. |
| AdjudicationSafety.BatchEffect | apps/web-rs/src/mutate.rs:269-312 | The batch of a decision goes in whole, exactly when the revision is current and its event, command and key are unused, or not at all. |
| AdjudicationSafety.Reachable | apps/web-rs/src/adjudication.rs:35-225 | Every state reachable under any interleaving satisfies the invariant. |
| AdjudicationSafety.NextKeeps | apps/web-rs/src/adjudication.rs:35-225 | Every step of a call, every other command and every body retained in any of the three senses keeps the invariant and takes nothing back. |
| AdjudicationTheorems.OneEventPerKey | apps/web-rs/src/adjudication.rs:71-76 | At most one adjudication is ever committed under one idempotency key. |
| AdjudicationOutcomes.RequestsAgreeExactlyWhen | apps/web-rs/src/adjudication.rs:62-71 | Two calls make one request exactly when the forecast, both records, the revision and the hash, kind and media type of every artifact in order are equal. |
| AdjudicationOutcomes.OneRequestPerKey | apps/web-rs/src/writes.rs:781-803 | All successes under one key carry one receipt and agree in all of that. |
| AdjudicationOutcomes.RetriesAfterCommit | apps/web-rs/src/adjudication.rs:72-76 | Once a key is committed for some call, a call under it begun at any later time is answered, at any time after that, with that call's receipt if the two agree in all of that and a conflict if they do not, and writes nothing. |
| AdjudicationTheorems.ReceiptIsTheCommit | apps/web-rs/src/adjudication.rs:145-173 | The receipt built from the preview names the event on record, from ESCALATED to PROPOSED, at the revision after the one asked for. |
| AdjudicationTheorems.OneChain | packages/domain-rs/src/lifecycle.rs:2002-2060 | The events of a forecast form one chain back to revision 1. |
| AdjudicationOutcomes.TimeNeverGoesBack | apps/web-rs/src/adjudication.rs:89-98 | Over every run, along the chain of a forecast no event is before the one it follows. |
| AdjudicationTheorems.NothingIsTakenBack | apps/web-rs/src/adjudication.rs:196-225 | From any reachable state on, no receipt, event, body or reply changes. |
| AdjudicationTheorems.LostAnswerReadsBack | apps/web-rs/src/adjudication.rs:212-221 | A call whose answer was lost after committing finds its receipt when it reads back. |
| AdjudicationTheorems.CommitsExactlyWhenCurrent | apps/web-rs/src/mutate.rs:269-312 | A decision commits exactly when its forecast is still at the revision it was made on and its key is unused. |
| AdjudicationOutcomes.LoadsExactlyWhen | apps/web-rs/src/adjudication.rs:78-98 | What becomes of a call that finds its forecast: revision, state, time within 900,000 ms and artifacts, first failure first. |
| AdjudicationOutcomes.ArtifactsPassExactlyWhen | apps/web-rs/src/source_watch.rs:214-246 | Artifacts pass exactly when each has at most 524,288 bytes, the running total at most 2,097,152, JSON parses, and the hash is one of the body's two. |
| AdjudicationOutcomes.EvidencePassesExactlyWhen | apps/web-rs/src/adjudication.rs:107-134 | Evidence passes exactly when the body supplied last under its hash, or else the one retained, is the one with that plain digest. |
| AdjudicationOutcomes.ReviewsExactlyWhen | apps/web-rs/src/resolution_timing.rs:261-287 | The review goes on exactly when a body is at hand under the hash and every one supplied or retained is the evidence itself. |
| AdjudicationOutcomes.DecidesExactlyWhen | packages/domain-rs/src/lifecycle.rs:1828-1884 | The guards of the command, in fields and constants, and the forecast and event it makes. |
| AdjudicationOutcomes.CommitLeaves | apps/web-rs/src/mutate.rs:245-312 | A commit leaves exactly one forecast, event, command and receipt more and every body and record it cites, and replies with that receipt when it is heard. |
| AdjudicationOutcomes.LostRaceIsReported | apps/web-rs/src/mutate.rs:312-379 | A batch that does not go in changes nothing and is a revision conflict exactly when the forecast has moved on. |
| AdjudicationOutcomes.RowsAreNamed | apps/web-rs/src/mutate.rs:245-312 | Over every run a body is on file only under its digest, the commitment of what it parses as or the hash of the card it is. |
| AdjudicationEvidence.EvidenceIsRetained | apps/web-rs/src/adjudication.rs:99-134 | Every hash a success cites is retained under a body it is a hash of: under the evidence itself, unless the evidence is one of the two prefixes followed by the text of a record or a card, and small enough to be supplied. |
| AdjudicationEvidence.CheckedBodyMayNotBeKept | apps/web-rs/src/mutate.rs:245-312 | After any run, if a call is about to succeed on evidence that reads as a record or a card, retaining that record or card between its timing review and its batch lets the call succeed and leaves the hash on it. |
| AdjudicationEvidence.RetainedEarly | apps/web-rs/src/resolution_timing.rs:104-287 | A wrong row that is there before the call is kept by a success when the forecast needs no timing review, and makes the review refuse the call when it does. |
| AdjudicationEvidence.KeptPlainExactlyWhen | apps/web-rs/src/adjudication.rs:99-134 | Under any rules that take calls for a hash, every success in every run leaves its evidence in the store exactly when the evidence does not read as a record or a card, or is too large to be supplied. |
| AdjudicationEvidence.SomeRunReplaces | apps/web-rs/src/profile_cards.rs:42-73 | With the program's JSON and any profile cards, all evidence that reads as a record or a card is lost in some run from the start. |
| Adjudicator.ArtifactStatements | apps/web-rs/src/source_watch.rs:214-246 | The loop refuses the first artifact over a limit, unparsable or misnamed, and otherwise retains them all in order. |
| Adjudicator.Database.RunBatch | apps/web-rs/src/mutate.rs:312 | All statements of a batch, or none and no change. |
| Adjudicator.Database.Adjudicate | apps/web-rs/src/adjudication.rs:35-225 | One call, with its loops, ends where the protocol's steps for it end. |
| Adjudicator.Database.CheckAll | apps/web-rs/src/adjudication.rs:107-134 | The loop passes exactly when every cited piece of evidence is found and hashes to what is claimed. |
| Adjudicator.Database.Extra | apps/web-rs/src/adjudication.rs:174-191 | The statements beside the command, in order, or a refusal of an oversized record. |
| Adjudicator.Database.ReviewTiming | apps/web-rs/src/resolution_timing.rs:150-190 | The loop over the cited evidence passes, is passed over or refuses as the protocol's review steps do. |
| Adjudicator.Database.Inspect | apps/web-rs/src/resolution_timing.rs:261-287 | A hash passes exactly when some body is supplied or retained under it and every one of them has that plain digest. |
| Adjudicator.Database.Mutate | apps/web-rs/src/mutate.rs:190-379 | Decides again, has the timing reviewed and commits everything in one batch, or leaves the store alone. |
| Adjudicator.Database.ReadBack | apps/web-rs/src/adjudication.rs:212-223 | After a failure the receipt decides the reply. |
| Relay.ProxyState.Rpc | scripts/devnet_rpc_proxy.py:260-271 | A write is forwarded only after a probe of its own answered the pinned genesis; the counters and the flag end as specified. |
| Relay.ProxyState.Call | scripts/devnet_rpc_proxy.py:232-244 | Each call out moves exactly one of the two counters. |
| Relay.ProxyState.VerifyGenesis | scripts/devnet_rpc_proxy.py:246-258 | The flag becomes whether this probe answered the pinned genesis. |
| Relay.ProbedBeforeWritten | scripts/devnet_rpc_proxy.py:246-271 | In every interleaving each forwarded transaction follows a pinned answer to a probe of the same call, whatever the shared flag says, and no call forwards twice. |
| Relay.RpcIsACallAlone | scripts/devnet_rpc_proxy.py:246-271 | The steps of one call with nothing in between make the calls out and the flag of `ProxyState.Rpc`. |
| Relay.FlagNeedsAProbe | scripts/devnet_rpc_proxy.py:246-258 | In every interleaving the shared flag is up only after some probe answered the pinned genesis. |
| Relay.TurnedAwayExactlyWhen | scripts/devnet_rpc_proxy.py:304-311 | A connection is counted as busy exactly when all six slots are out. |
| Relay.Accounts | scripts/devnet_rpc_proxy.py:289-411 | However threads interleave and fail, `forwarded` is the calls out that came back, `errors` those that failed plus the relay's own failures, and the slots taken are one for each handler and for the thread being started. |
| Lmsr.CostIsLogSum | scripts/simulate_point_pricing.py:19-20 | The overflow-safe formula is the logarithm of the sum of exponentials. |
| Lmsr.QuoteInvertsCost | scripts/simulate_point_pricing.py:23-26 | Buying the quoted claims costs exactly the spend and leaves the quoted price. |
| Lmsr.ClaimsAreUnique | scripts/simulate_point_pricing.py:23-26 | No other number of claims costs the spend. |
| Lmsr.SpendsAreQuotable | scripts/simulate_point_pricing.py:23-26 | Every spend that is not negative can be quoted at every price. |
| Lmsr.Simulate | scripts/simulate_point_pricing.py:36-62 | On every path of buys all checks pass, and deposits are the rise of the cost, whatever the order. |
| Lmsr.ReserveCovers | scripts/simulate_point_pricing.py:52-59 | Subsidy and deposits cover the larger liability and every refund, and the loss stays below b ln 2. |
| Lmsr.LossBoundIsTight | scripts/simulate_point_pricing.py:60 | However small the gap asked for, some path of buys loses all of b ln 2 but the gap. |
| Buffer.PendingChunks | scripts/resume_devnet_buffer.py:45-46 | The comprehension lists the chunks that differ. |
| Buffer.ListedExactlyWhen | scripts/resume_devnet_buffer.py:45-46 | In numbers: exactly at the multiples of 700 inside the binary where the two slices differ, with the slice of the binary. |
| Buffer.OffsetsRise | scripts/resume_devnet_buffer.py:45-46 | Nothing is listed twice, and the offsets rise. |
| Buffer.DeliverAll | scripts/resume_devnet_buffer.py:48-60 | The writes that arrive change the account, in place, as specified. |
| Buffer.NothingIsSpoiled | scripts/resume_devnet_buffer.py:48-60 | Whatever arrives, in any order and any number of times, no right byte is spoiled. |
| Buffer.AllDelivered | scripts/resume_devnet_buffer.py:61-65 | When everything listed has arrived the buffer is the binary. |
| Buffer.RerunListsTheRest | scripts/resume_devnet_buffer.py:43-46 | A later run lists exactly the chunks that did not arrive. |

## Left out

- ScheduleProgress.AttemptsSettleJobs: leaves out runs with a crash or with the loss of the handler's own write, because there the bound does not hold (`ScheduleRuns.InterruptionsRepeatBackups`).
- ScheduleTheorems.RunsMoveForward: says nothing of what the backup program itself leaves behind when the scheduler is cut off while it is still running.
- JsonText.AnyTextIsRead: is about texts that `json.loads` reads as text, whole numbers, lists and dictionaries; fractions, literals and escaped surrogates are not parsed.
- The checks of `validate_config` on the task name and the export command, file modes, symbolic links, subprocess timeouts and `lastErrorType`.
- A failed attempt directory or state write leaves nothing behind; only a receipt can be left half written.
- The text form of shares and their fingerprint, the command line, Keychain, SSH, transfer and launchd.
- Records of the wrong JSON type in the registry, the retention inventory or an adjudication request, which the programs refuse.
- The quarantine marker file, and the report given when no registry is available at all.
- The columns of the account tables that replay never reads, and statements other than the modelled inserts, updates and deletes.
- The card added to an adjudication reply, the outbox, registry intents, and the review row that the timing review writes when it refuses.
- Every reason of the timing review but the digests of the bodies, such as publication times, is one refusal that may come at any of its steps; that it is not needed is one answer.
- Other operators' receipts: only those of the adjudicating operator are in the modelled store.
- The conditions of record validation in the domain beyond the guards of the adjudication command, which are one function of the resulting forecast.
- Deletion of artifacts or receipts, which no code path performs.
- Request validation and response sanitizing in the relay, its timestamps and its authentication.
- Floating-point rounding, the invoice paths and the scoring grid of the pricing script.
- Signing, sending and confirming the buffer's transactions.
