# ShadowDroid: verified models

ShadowDroid is a command-line tool through which agents drive Android devices.
This project models the parts of it whose correctness is not visible from one
function body, in Dafny 4.11, and proves what they promise.

`dafny verify dfyconfig.toml` checks everything.

## What is modelled

**Device ownership** (`cli/src/runtime.rs`). Many command processes share a
device through an OS lock, a durable journal per authority root, a host index
and a marker directory on the device. Four layers:

* `Journal`, `JournalHistory`, `CommandPaths`: the journal as a serial machine of
  whole commands, when a failure leaves the device in doubt, and what every legal
  history guarantees.
* `Protocol`: the concurrent world. Every command is cut at its device
  round-trips and journal writes, so that other processes, crashes, lost
  replies, half-done device scripts, failed writes, reboots and services
  starting or stopping may come between any two steps.
* `Refinement`, `Guarantees`, `BootOrder`, `Exclusion`, `Recoverability`,
  `Lockout`, `RebootNeeded`, `EarlyRelease`: every interleaving refines a serial
  history, so the history properties hold of concurrent runs; at most one
  authority depends on a device; an authority can get back to a driver by steps
  of its own exactly when it is not blocked in one of three ways; and a recovery
  needs a reboot exactly when the request recorded the current boot. `Guards` and
  `CleanCommands` say when a command goes on after asking the device, and what an
  undisturbed one leaves behind.
* `Runtime`: `admit`, `finish`, the early release and the session commands as
  code that updates state field by field, each method tied to the serial machine.

**Redaction** (`cli/src/redaction.rs`). `Placeholders`, `KnownLiterals`,
`Scrubbing` and `LongestFirst` cover scrubbing known secrets while placeholders
stay untouched; `SensitiveNames` and `NameFamilies` which names are sensitive in
any spelling, and what is put at one; `JsonRedaction`, `JsonGuarantees`, `JsonFrame`
and `SecondPass` the JSON tree; `SourceRedaction`, `MarkedSecrets` and
`SourceTwice` both together on a whole document; `RequestTarget` HTTP request
targets.

**Crash reports** (`cli/src/crashscan.rs`). `CrashStamp`, `CrashClock` and
`CrashCursor`: a log clock without a year, and exactly-once delivery from a
cursor with slack and a bounded memory, in whole milliseconds.

**Compact algorithms.** `ScreenDiff`, `ScreenIdentity`, `ScreenKeys` and `ScreenPatch`
(`cli/src/screen_cache.rs`), `ConfigLayers` and `StringSets` (`cli/src/config.rs`),
`Selector` (`cli/src/selector.rs`), `Similarity` (`cli/src/fusion.rs`),
`ImageHeader` (`cli/src/cli.rs`) and `ShellQuoting` (both quoters).

## Assumptions

* `fresh_id` never repeats: tokens and request identifiers come from one
  growing counter. Process numbers are not reused while the journal names them.
* A journal write is atomic and either happens or fails. `write_state`
  (`cli/src/runtime.rs:485-489`) sets the file's protection after writing it, so
  there a write can land and still be reported as failed; that outcome is not
  part of this model. A device script is one step, which may be lost, done with
  its reply lost, or (claims and releases) cut short after its directory
  operation.
* Boot identities are numbered in order; a process learns the current one.
* Redaction of plain text is a function from texts to texts and counts; where a
  result needs it to leave its own output alone, the statement says so.
* Percent-decoding undoes percent-encoding, and encoded text holds none of
  `#?/&=`. Lower-casing is any function.

## Where the code and its words differ

* Removing the marker after an early release (`cli/src/runtime.rs:757-763`)
  comes after the lock is dropped. `Exclusion.LateReleaseIsSafeIff` says exactly
  when that is harmless, `EarlyRelease.TwoAuthoritiesAtOnce` shows a run in which
  two authorities drive one device.
* `record_passive_release` (`cli/src/runtime.rs:766-775`) takes the request out of
  memory before the write that may fail; a later completion then names no
  request. `EarlyRelease.RequestIsAccountedFor` says that this happens exactly
  then, `EarlyRelease.CompletionLosesRequest` shows a run.
* A reserved, idle device that reboots while its proxy or recorder runs accepts
  no command while it answers: not even `net stop`, which
  `docs/sessions.md:44` offers for quarantined operations only
  (`Lockout.StrandedForGood`). An owner who has observed gets out by
  disconnecting the device and stopping the services, one who has not does not
  (`Lockout.StrandedWayOut`). `Recoverability.Blocked` is the exact condition for
  being locked out in general (`Lockout.RecoverableIff`).
* Recovery asks for a changed boot identity and takes that for a reboot since
  the interrupted command (`cli/src/runtime.rs:908-917`). The identity recorded
  with a command is not always that of the boot it ran at: an offline control
  command records the session's boot or none (`cli/src/runtime.rs:628-639`), and
  a reboot may come between reading and recording. Such a request can be
  recovered with no reboot in between, exactly when it recorded another boot
  (`RebootNeeded.RebootNeededIff`, with three runs).
* `publish_local_owner` (`cli/src/runtime.rs:289-297`) overwrites the host index
  unconditionally, so after a late marker removal an owner may close its session
  in the journal and then fail at another authority's entry
  (`EarlyRelease.CloseMeetsAnotherEntry`).
* A command whose outcome is already in the journal still fails when the marker
  cannot be removed afterwards (`cli/src/runtime.rs:388-400`; the `Runtime`
  methods say when).
* A comment in `probe_once` (`cli/src/crashscan.rs:380-381`) says that events not
  delivered are remembered as well; the code does not do that, so a crash logged
  in the two seconds before the first probe is reported by the next one.
  `CrashCursor.ExactlyOnce` includes those crashes.
* `age_secs` reports an age of zero for a line that is within two minutes of a
  full year old across New Year (`CrashClock.AgeIsTrueIff`).
* Scrubbing may put a placeholder next to text that then looks sensitive, so
  redacting a document twice can act twice. `SourceTwice.SourceSettlesIff` says
  exactly when it never does, `SourceTwice.StableTextIsNotEnough` shows a document.
* A known secret that itself holds a placeholder is never found by the literal
  pass and stays wherever nothing else gives it away: exactly those secrets do
  (`MarkedSecrets.SecretsGoIff`, `LongestFirst.WholeSecretGoesIff`).
* An element without a resource id is meant to be told by its class and its
  description or text (`cli/src/screen_cache.rs:93-112`). It is, unless a class name
  has a colon in it (`ScreenIdentity.SameBaseIff`, `ScreenIdentity.ColonsBlurIdentity`).
* Element keys are meant to be unique on a screen (`cli/src/screen_cache.rs:93-121`);
  they are exactly when no base key reads like a numbered one
  (`ScreenKeys.KeysDifferIff`, `ScreenKeys.CollidingKeys`). With equal keys on the
  new screen a report may tell of a change that is reverted under the same key;
  `ScreenPatch.PatchIsRightIff` says exactly when it is misread.

## Model

| member | source | states |
|---|---|---|
| Runtime.Command.ClaimMarker | cli/src/runtime.rs:370-387 | The claim script succeeds exactly when the marker is this authority's, absent, or an interrupted claim from before this boot, and then leaves it bound to this authority |
| Runtime.Command.ReleaseMarker | cli/src/runtime.rs:388-400 | Removing the marker succeeds exactly when the device answers and the marker is this authority's or gone; any other marker stays, and the conflict is reported |
| Runtime.Command.CheckOwner | cli/src/runtime.rs:532-546 | A token is accepted exactly when it is the open session's, and no token exactly when there is no session; the two refusals are told apart |
| Runtime.Command.Admit | cli/src/runtime.rs:600-688 | Admission succeeds exactly when every guard holds; it then commits one whole admission to the journal that was read under the lock; a refusal leaves the journal alone, and each refusal is given only for its own reason |
| Runtime.Command.Finish | cli/src/runtime.rs:691-733 | A failure that may have had an unknown effect (interrupted, verified without result, a runner that had started, or a device-changing command with an unanswered mutation or an ADB call cut off while running) keeps journal, operation and lock; any other outcome commits the completion and ends the operation, or keeps all three when the write fails; the marker goes only with an unreserved device-changing command, and one that cannot be removed fails the command after the write |
| Runtime.Command.ReleaseForPassiveWait | cli/src/runtime.rs:740-775 | Admission ends early exactly when no mutation is unsettled, no cleanup is running and the write succeeds, even when the marker then cannot be removed, which is reported; otherwise the operation stays admitted |
| Runtime.Command.OpenSession | cli/src/runtime.rs:865-894 | Opening succeeds exactly on an idle, unreserved, reachable device with stopped services whose marker is free; it issues a fresh token at the next generation |
| Runtime.Command.ObserveSession | cli/src/runtime.rs:819-857 | Observing under a token lifts the duty to observe exactly when the boot seen is the session's |
| Runtime.Command.HandoffSession | cli/src/runtime.rs:939-969 | Handing off succeeds exactly for the owner of an idle session with stopped services, and replaces the token at the next generation |
| Runtime.Command.RecoverSession | cli/src/runtime.rs:895-925 | The journal is recovered exactly for the owner of an interrupted request after a changed boot with services stopped and workers attested, and the owner must observe again; without a session the command then succeeds only if the marker can be removed |
| Runtime.Command.CloseSession | cli/src/runtime.rs:926-938 | The session ends in the journal first; another authority's entry in the host index then fails the command and keeps index and marker, and a marker that cannot be removed fails it after the entry is gone |
| JournalHistory.Quarantine | cli/src/runtime.rs:547-583 | In every serial history a request in flight on a reserved device stays, with its owner and generation, until its own process settles it with an outcome that is certain for its own command or its owner's token recovers it at another boot |
| JournalHistory.CleanupIsCertain | cli/src/runtime.rs:691-715 | A cleanup that ends beside a quarantined request leaves the request, owner and generation alone, and is recorded only with an outcome that is certain |
| JournalHistory.OwnerGeneration | cli/src/runtime.rs:865-894 | The owner's generation is the journal's in every history |
| JournalHistory.OwnerWasIssued | cli/src/runtime.rs:865-969 | Whoever owns the device holds the token issued last, with no close since |
| JournalHistory.RevokedTokenIsDead | cli/src/runtime.rs:926-969 | After a close or handoff under a token no command presenting it commits |
| JournalHistory.ObserveBeforeDrive | cli/src/runtime.rs:649-662 | A driver command under a session token follows an observation with that token at the same boot, after the token's issue and with no session change in between |
| JournalHistory.ContextIsNoEvidence | cli/src/runtime.rs:73-105 | Wrapping an error in context that carries no evidence changes no verdict about its outcome |
| JournalHistory.ReadersAreNotQuarantined | cli/src/runtime.rs:89-105 | Without an explicit verdict a command that changes nothing is never quarantined, and one that does exactly when a mutation is unanswered or delivery unknown |
| JournalHistory.UncertainIff | cli/src/runtime.rs:68-106 | Whether a failure leaves the device in doubt: the first diagnostic decides if it is an interrupted test, a verification without result, or a failed runner (in doubt unless it never started); otherwise it is in doubt exactly when the command changes the device and a mutation is unanswered, an unknown is explicit, or an ADB call timed out that was not waiting for a worker |
| Refinement.ActShape | cli/src/runtime.rs:600-775 | Every single step of a process, including failed writes and crashes, either leaves all journals alone or commits one whole legal command on what is on disk at that moment |
| Refinement.Reachable | cli/src/runtime.rs:502-531 | After any interleaving of steps, crashes and reboots, every journal is the outcome of a legal serial run of the commands committed, locks are exclusive, and private copies agree with the disk |
| Guarantees.NoLostUpdate | cli/src/runtime.rs:609-687 | One step changes at most the journal of the root whose lock its process holds, by one whole command applied to the current contents |
| Guarantees.MemoryIsJournal | cli/src/runtime.rs:679-687 | While a process is admitted or quarantined its memory is the journal on disk, up to its own failed early release |
| Guarantees.QuarantineHolds | cli/src/runtime.rs:553-583 | The quarantine of a reserved device survives every concurrent run: same request, owner and generation, until settled by its own process with an outcome certain for that request's command, or recovered by its owner |
| Guarantees.GenerationMatches | cli/src/runtime.rs:865-969 | In every reachable world the owner's generation is the journal's |
| Guarantees.DriversHaveObserved | cli/src/runtime.rs:649-662 | In every concurrent run an admitted driver under a token was preceded by an observation with it at the same boot, after its issue and after any recovery |
| Guarantees.RevokedForEver | cli/src/runtime.rs:926-969 | In every continuation of a run a closed or handed-off token gets no further command into the journal |
| Guarantees.QuarantinedIff | cli/src/runtime.rs:691-733 | In every run an admitted command that ends is quarantined, with lock and journals as they were, exactly when it failed and its failure leaves the device in doubt |
| BootOrder.BootsHold | cli/src/runtime.rs:584-594 | Recorded boot identities and marker dates never lie in the future |
| BootOrder.RecoveryFollowsReboot | cli/src/runtime.rs:908-917 | In every run a recovery is made no earlier than the boot its interrupted command was admitted at, and at a later one if the admission recorded the boot it happened at; commands admitted to an answering device record a boot they read, at most that one |
| BootOrder.OfflineIsControl | cli/src/runtime.rs:628-639 | In every run a command admitted while the device did not answer is offline control |
| CommandPaths.OfflineIff | cli/src/runtime.rs:306-313 | Offline control is everything under `net` but start, check and trust, the recorder's status, stop and mark, and disconnecting |
| CommandPaths.CleanupIff | cli/src/runtime.rs:615-621 | The commands that join a quarantined session are exactly stopping the proxy or the recorder, disconnecting and `verify recover` |
| Exclusion.MarkerHolds | cli/src/runtime.rs:315-401 | As long as no late marker removal hits a root that needs its marker, every root that depends on the device (open session, recorded or running device-changing command) is the one the marker names |
| Exclusion.AuthoritiesExclude | cli/src/runtime.rs:315-401 | At most one authority at a time depends on a device, across crashes, interrupted claims, uncertain finishes and reboots |
| Exclusion.WithoutPassiveRelease | cli/src/runtime.rs:740-763 | Runs without early release meet the proviso of the exclusion theorem |
| Exclusion.LateReleaseIsSafeIff | cli/src/runtime.rs:757-763 | A late marker removal that reaches the device keeps the markers in order exactly when the root no longer depends on its marker |
| Exclusion.MarkerIsTakenIff | cli/src/runtime.rs:315-387 | A claim that reaches the device takes the marker exactly if it is the root's, absent, or left by a claim interrupted before this boot, and a reader is content with exactly the same markers |
| EarlyRelease.TwoAuthoritiesAtOnce | cli/src/runtime.rs:757-763 | A run in which the lock goes before the marker: a second command loses its marker and two authorities drive the device at once |
| RebootNeeded.RebootNeededIff | cli/src/runtime.rs:908-917 | With services stopped and the lock free, recovering the request in flight needs a reboot exactly when it recorded the current boot |
| RebootNeeded.OwnedOffline | cli/src/runtime.rs:628-639 | A run in which a session's offline control command records an old boot and is recovered at the boot it was admitted at |
| RebootNeeded.UnownedOffline | cli/src/runtime.rs:628-639 | The same without a session, where no boot is recorded at all |
| RebootNeeded.OnlineAcrossReboot | cli/src/runtime.rs:628-687 | The same for an online command, when the device reboots between the reading of its boot and the journal write |
| EarlyRelease.RequestIsAccountedFor | cli/src/runtime.rs:691-775 | In any step of any run, a request that leaves the journal is named by the completion put in its place, except exactly when the process that took it out had failed to write an early release before |
| EarlyRelease.CompletionLosesRequest | cli/src/runtime.rs:766-775 | A run in which a failed early release is followed by a completion that names no request |
| EarlyRelease.CloseMeetsAnotherEntry | cli/src/runtime.rs:926-938 | A run in which a session is opened before the late removal of its marker and another authority opens its own after it: closing the first ends it in the journal and then stops at the other's index entry |
| Recoverability.DriverRuns | cli/src/runtime.rs:600-688 | A driver that would be admitted is admitted when its steps run undisturbed, with the stated journal, lock, marker and operation |
| CleanCommands.CommandCleansUp | cli/src/runtime.rs:691-775 | A driver on an idle root that ends well, or ends its admission early, leaves the journal with its completion and else unchanged, the lock free, and the marker gone unless a session needs it or a reader never took it |
| CleanCommands.SessionCleansUp | cli/src/runtime.rs:865-938 | A session that is opened and closed again leaves no owner, no request, no index entry and no marker |
| Guards.ProbeGoesOnIff | cli/src/runtime.rs:622-648 | After the boot identity is asked for, a driver goes on exactly when no other authority is in the host index and the device answered or its command is offline control; other commands need the answer |
| Guards.ClaimGoesOnIff | cli/src/runtime.rs:640-648 | After the marker is asked for, a command goes on exactly when it was told that the marker was free for its root |
| Guards.ReadersLeaveMarker | cli/src/runtime.rs:315-369 | Without a session a command that changes nothing leaves the marker alone |
| Recoverability.NoLockout | cli/src/runtime.rs:600-688 | From every reachable world that is not blocked, steps the authority can bring about itself (its commands, reboots, disconnecting, crashes of its own, a service ending under its own admitted stop command) lead to any driver command |
| Lockout.RecoverableIff | cli/src/runtime.rs:600-688 | Where the lock is free, or its holder has only begun or ended uncertain or unsaved, an authority can get back to a driver by such steps exactly when no other authority has the marker and, while a service runs, neither the host index names another nor the reserved, idle device rebooted before anyone observed it |
| Lockout.RecoverableAfterCrash | cli/src/runtime.rs:600-688 | The same holds of the world in which any holder of the lock has just crashed |
| Recoverability.SessionsKeepOthersOut | cli/src/runtime.rs:268-306 | As long as no late marker removal hits a root that needs its marker, an open session holds both the host index and the device marker |
| Lockout.StrandedForGood | cli/src/runtime.rs:650-655 | A reserved, idle device that rebooted while its services run stays without an admitted command in every run of all authorities in which the services keep running and the device answers |
| Lockout.StrandedWayOut | cli/src/runtime.rs:624-634 | Such an owner gets out exactly when it has observed: offline control is checked against the session's own boot, so it can stop the services while the device is unreachable |
| CrashClock.NewerIsLater | cli/src/crashscan.rs:104-109 | On clock readings under half a year apart, the circular comparison holds exactly when the instant is later |
| CrashClock.NewerIsAsymmetric | cli/src/crashscan.rs:104-109 | Of two readings at most one is newer |
| CrashClock.AgeIsTrueIff | cli/src/crashscan.rs:90-102 | The age of a line under a year old is right exactly when no New Year lies between or it stays two minutes short of a year; otherwise it is reported as zero |
| CrashStamp.MillisKeepOrder | cli/src/crashscan.rs:54-88 | Valid calendar stamps map into the year, strictly increasing |
| CrashStamp.FormatParses | cli/src/crashscan.rs:54-88 | Every stamp the log writes, leap seconds included and with any whitespace around it, is read back as its instant |
| CrashStamp.MillisCountUp | cli/src/crashscan.rs:48-88 | Stamps count milliseconds from New Year without a gap up to the end of a year with a 29th of February |
| CrashStamp.FractionIsThousandths | cli/src/crashscan.rs:72-79 | A fraction of any number of digits is read as milliseconds, rounded down |
| CrashStamp.TimeIgnoresMore | cli/src/crashscan.rs:67-82 | Whatever stands behind a third colon is not looked at |
| CrashStamp.SignedNumbers | cli/src/crashscan.rs:58-80 | One plus sign in front of a number makes no difference; a minus sign or two plus signs make it unreadable |
| CrashCursor.Probe.ProbeOnce | cli/src/crashscan.rs:318-391 | A probe delivers the crashes newer than the cursor and not remembered, and moves the cursor to two seconds behind the clock; failed probes change nothing |
| CrashCursor.FreshIff | cli/src/crashscan.rs:358-368 | Fresh is exactly what the dump holds with a readable stamp newer than the cursor and a fingerprint the cursor does not remember |
| CrashCursor.CursorIsHistory | cli/src/crashscan.rs:336-390 | After any probes the cursor is the last clock reading less the slack, together with the last 32 deliveries of all time |
| CrashCursor.DeliveredIff | cli/src/crashscan.rs:358-390 | One probe delivers a crash once exactly when it is in the dump, newer than the cursor and not among the last 32 deliveries |
| CrashCursor.ExactlyOnce | cli/src/crashscan.rs:318-391 | Over any run of probes, some of them failed, each crash stamped after the first cursor is reported exactly once by the time the cursor has passed it |
| CrashCursor.AtMostOnce | cli/src/crashscan.rs:318-391 | No crash is reported twice |
| CrashCursor.ForgottenIsRepeated | cli/src/crashscan.rs:376-383 | The 32-entry bound is needed: a delivered crash still newer than the cursor is delivered again exactly when it has dropped out of the ring |
| Placeholders.PlaceholderIsMark | cli/src/redaction.rs:822-836 | Every generated placeholder has the recognised form |
| Placeholders.MarkIff | cli/src/redaction.rs:55-59 | In small letters a placeholder is exactly the plain or the percent-encoded bracketing of a name that begins with a letter and goes on with letters, digits, `_` and `-`, where the long s and the Kelvin sign count as letters |
| Placeholders.MarkInAnyCase | cli/src/redaction.rs:55-59 | The case of letters makes no difference to what is a placeholder |
| Placeholders.MarksDoNotOverlap | cli/src/redaction.rs:55-59 | Two placeholders in one text are the same or disjoint, plain or percent-encoded, in any letter case |
| Placeholders.FirstMarkAt | cli/src/redaction.rs:55-59 | The first placeholder after placeholder-free text is exactly the one that stands there |
| Placeholders.MarkAlone | cli/src/redaction.rs:743-747 | A whole placeholder consists of that placeholder and empty text around it |
| KnownLiterals.PiecesAreClean | cli/src/redaction.rs:731-737 | What is left between occurrences is part of the text and holds no occurrence |
| KnownLiterals.PiecesRestore | cli/src/redaction.rs:731-737 | Putting the occurrences back restores the text, so nothing else is taken; nothing is cut exactly when nothing occurs |
| KnownLiterals.ReplacePreservingMarks | cli/src/redaction.rs:716-741 | The cursor loop over placeholders computes the span-by-span replacement and its count |
| Scrubbing.ScrubShape | cli/src/redaction.rs:716-741 | Each span between placeholders is cut at the literal, each cut leaves one new placeholder, and all old ones stay in order |
| Scrubbing.NothingKnownIsLeft | cli/src/redaction.rs:620-646 | After the loop no literal stands anywhere outside placeholders |
| Scrubbing.QuietIffClean | cli/src/redaction.rs:620-646 | The loop reports zero, and changes nothing, exactly when every literal was already gone |
| Scrubbing.SecondRunIsQuiet | cli/src/redaction.rs:620-646 | A second run with the same literals replaces nothing |
| Scrubbing.PlaceholdersSurvive | cli/src/redaction.rs:716-741 | No placeholder is lost or moved, and the reported count is the number gained |
| LongestFirst.ScrubText | cli/src/redaction.rs:632-643 | The loop over one text scrubs the literals longest first and adds up the counts |
| LongestFirst.WholeSecretGoesIff | cli/src/redaction.rs:633-635 | Longest first, a text that is itself a known secret becomes its placeholder and nothing else, exactly when it holds no placeholder already |
| LongestFirst.ShortestFirstLeaks | cli/src/redaction.rs:633-635 | Shortest first would leave part of a longer secret in the open |
| JsonRedaction.RedactValue | cli/src/redaction.rs:436-500 | The loops over members and elements, with their flags and counts, compute the specified redaction of the tree |
| JsonRedaction.MaskLeaves | cli/src/redaction.rs:806-820 | The loops below a sensitive list compute the specified masking |
| JsonGuarantees.RedactionIsComplete | cli/src/redaction.rs:436-500 | Whatever the text policy does, no value survives at a sensitive key: lists are masked throughout, containers at identifier keys are searched, all else is a placeholder or a generated flag |
| JsonGuarantees.UncountedIsUnchanged | cli/src/redaction.rs:436-500 | A count of zero means the tree was not touched |
| JsonGuarantees.MaskCountsTheRest | cli/src/redaction.rs:806-820 | Masking counts nothing exactly where every text is a placeholder and no number is left |
| JsonGuarantees.SecondPassIsQuiet | cli/src/redaction.rs:436-500 | With a stable text policy and no sensitive flag name a second pass counts nothing |
| SecondPass.OnePassSettlesIff | cli/src/redaction.rs:470-486 | With a stable text policy one pass settles every tree exactly when no key that names a raisable flag is itself sensitive |
| SecondPass.NoFlagConfiguredIsSafe | cli/src/redaction.rs:756-804 | No built-in sensitive name is a flag name; it is enough that no configured key mentions a body and ends in `redacted` |
| SourceRedaction.EverySecretIsCollected | cli/src/redaction.rs:502-527 | What is collected are exactly the texts of four bytes or more, other than placeholders, that the document stores directly at a sensitive key |
| SourceRedaction.CollectedMarkIsItsKind | cli/src/redaction.rs:502-527 | Each is collected with the placeholder of a key it is stored at |
| SourceRedaction.SourceIsSafe | cli/src/redaction.rs:274-281 | After redacting a source document no sensitive key holds a value, and no secret the document stored at one stands between the placeholders of any of its texts; for secrets that hold a placeholder that says nothing (MarkedSecrets.SecretsGoIff) |
| SourceRedaction.SecondScrubIsQuiet | cli/src/redaction.rs:620-646 | Scrubbing a tree twice with the same literals replaces nothing the second time |
| SourceTwice.SecondSourcePass | cli/src/redaction.rs:274-281 | On its own result a pass collects nothing and scrubs nothing, so all it may still do is redact the tree |
| MarkedSecrets.SecretsGoIff | cli/src/redaction.rs:274-281 | A secret the text policy does not know by sight is no text of any redacted document that stores it at a sensitive key, exactly when it holds no placeholder |
| MarkedSecrets.PlaceholderWithTail | cli/src/redaction.rs:716-741 | One secret that stays: a placeholder with a letter behind it |
| SourceTwice.SourceSettlesIff | cli/src/redaction.rs:274-281 | With a stable text policy a second pass changes no document exactly when no flag name is sensitive and scrubbing a document's secrets from a text the policy leaves alone gives one it leaves alone |
| SourceTwice.StableTextIsNotEnough | cli/src/redaction.rs:666-714 | A document on which a second pass still acts under a stable, placeholder-respecting policy: once the secret in front of it has become a placeholder, an address stands alone |
| JsonFrame.RedactionKeepsTheRest | cli/src/redaction.rs:436-500 | Members keep places and keys, lists their lengths; below sensitive lists texts and numbers give way to placeholders of that kind; every other value is untouched or the text policy's own output |
| JsonFrame.BodiesAreFlagged | cli/src/redaction.rs:470-486 | A body in which something was redacted is flagged by name, and so are its object and the report |
| SensitiveNames.SpellingMakesNoDifference | cli/src/redaction.rs:749-804 | Punctuation in a name and the case of its letters do not change whether it is sensitive |
| NameFamilies.SensitiveKindIff | cli/src/redaction.rs:749-804 | However a name is spelled, it is of the configured kind exactly if it is configured, otherwise of the kind of the first family it belongs to by whole name, ending or part, and a name outside all families is not sensitive |
| NameFamilies.BodyKeyIff | cli/src/redaction.rs:842-844 | A body is any name that, spelled somehow, has `body` in it |
| NameFamilies.NamedValueIsReplaced | cli/src/redaction.rs:436-500 | A text at a sensitive name gives way to its kind's placeholder, written out, in any spelling of the name |
| NameFamilies.NamedParameterIsReplaced | cli/src/redaction.rs:346-384 | A parameter of a request target whose name is sensitive in any spelling keeps its raw name and decodes to its kind's placeholder, written out |
| RequestTarget.ParsedTargetPrints | cli/src/redaction.rs:330-341 | Splitting a target at its delimiters and joining it again is the identity, byte for byte |
| RequestTarget.StructureIsKept | cli/src/redaction.rs:329-389 | The redacted target splits into the same fragment presence, path segments and parameters, and is the component-wise redaction |
| RequestTarget.ParametersAreRedacted | cli/src/redaction.rs:346-384 | Every parameter keeps its raw name or the lack of one; a sensitive value decodes to its kind's placeholder, but stays byte-identical when empty or already a placeholder; anything else decodes to what the text policy makes of it, and stays byte-identical when that is no change |
| RequestTarget.PathIsRedacted | cli/src/redaction.rs:336-400 | Every path segment decodes to what the text policy makes of it, and stays byte-identical when it makes no change |
| RequestTarget.FragmentIsRedacted | cli/src/redaction.rs:384-400 | So does the fragment |
| RequestTarget.ReportedIffChanged | cli/src/redaction.rs:329-400 | A change is reported exactly when the target differs |
| RequestTarget.SecondPassIsQuiet | cli/src/redaction.rs:329-400 | With a stable text policy a second pass changes nothing and says so |
| ScreenDiff.ElementKeys | cli/src/screen_cache.rs:97-121 | The counting loop gives each element its base key, numbered from the second occurrence on |
| ScreenDiff.ComputeDiff | cli/src/screen_cache.rs:138-193 | The loops compute the added, changed and removed elements as specified |
| ScreenIdentity.SameBaseIff | cli/src/screen_cache.rs:93-112 | Elements count as the same exactly if their resource ids are equal; with neither having one, class and description; without description, class and text; and without that, class; where no class name has a colon |
| ScreenIdentity.ColonsBlurIdentity | cli/src/screen_cache.rs:103-112 | Two different elements, one with a colon in its class, that count as the same |
| ScreenIdentity.SingleDiff | cli/src/screen_cache.rs:138-193 | Of two single elements that are not the same the report tells one removed and one added; of two that are, it tells a change exactly if a compared field differs |
| ScreenIdentity.ComparableIff | cli/src/screen_cache.rs:123-131 | Two elements compare equal exactly when they agree on every field but id and handle |
| ScreenKeys.KeysDifferIff | cli/src/screen_cache.rs:93-121 | The keys of a screen are pairwise distinct exactly when no element's base key is the numbered key of another base that the screen has that many elements of |
| ScreenKeys.CollidingKeys | cli/src/screen_cache.rs:115-121 | A screen with two equal keys |
| ScreenPatch.DiffIsAPatch | cli/src/screen_cache.rs:134-193 | Whatever the old screen, the report and the old screen alone give exactly the new screen's keys and comparable fields, where the new screen's keys are distinct |
| ScreenPatch.PatchIsRightIff | cli/src/screen_cache.rs:134-193 | For any two screens they do exactly when no element reported as changed has its key taken by a later one that is as the old one was |
| ScreenPatch.RevertedChangeIsMisread | cli/src/screen_cache.rs:151-172 | Two screens, the new one with two equal keys, where they do not |
| ScreenPatch.ChangesAreExact | cli/src/screen_cache.rs:151-172 | A reported change names exactly the fields that differ, says what they were and gives the element as it is now |
| ScreenPatch.RemovalsAreDescribed | cli/src/screen_cache.rs:174-191 | A reported removal tells the old element's text, description, identifier and class, and the element is gone |
| ScreenPatch.CountsBalance | cli/src/screen_cache.rs:187-192 | New size is old size less removed plus added, where each screen's keys are distinct |
| ScreenPatch.EmptyDiffIff | cli/src/screen_cache.rs:138-193 | The report is empty exactly when both screens look the same by key and no reported change is reverted under its key, which goes without saying where the new keys are distinct |
| ScreenPatch.SameScreenIsNoDiff | cli/src/screen_cache.rs:16-17 | Screens that differ only in id or handle give an empty report exactly when their keys are distinct |
| ConfigLayers.Loaded.Merge | cli/src/config.rs:387-403 | Merging a file into the loaded settings gives the field-by-field layering |
| ConfigLayers.Load | cli/src/config.rs:218-227 | Loading gives the layering of all files in order with their paths, or the first error |
| ConfigLayers.MergeIsAssociative | cli/src/config.rs:387-449 | Merging is associative, including the sorted key lists and the host list |
| ConfigLayers.EmptyIsNeutral | cli/src/config.rs:387-449 | The empty configuration is neutral on both sides |
| ConfigLayers.LayersCompose | cli/src/config.rs:218-227 | Files can be layered in any grouping |
| ConfigLayers.EverySettingIsTheLastSet | cli/src/config.rs:387-449 | Every scalar, named app and named target, and the host list, comes from the last file that sets it |
| ConfigLayers.ListsAccumulate | cli/src/config.rs:406-424 | A redaction key or pattern is in force exactly when some file names it |
| StringSets.SortDedupIsCanonical | cli/src/config.rs:416-420 | Sorting and dropping duplicates depends only on which strings are in the list |
| StringSets.LessIff | cli/src/config.rs:416-420 | Of two strings the smaller is the one with the smaller character where they first differ, or the proper beginning of the other |
| Selector.Normalize | cli/src/selector.rs:24-50 | The loop with its deferred space computes the specified scan |
| Selector.NormalizedIsWords | cli/src/selector.rs:24-50 | A normal form is the folded words of the text with one space between them |
| Selector.SameWordsIff | cli/src/selector.rs:24-50 | Two texts have one normal form exactly when they have the same words |
| Selector.FixedIffCanonical | cli/src/selector.rs:23-50 | A text is its own normal form exactly when it is canonical |
| Selector.NormalizedTwice | cli/src/selector.rs:23-50 | Normalising is idempotent |
| Selector.InvisibleMakesNoDifference | cli/src/selector.rs:52-62 | Invisible controls may stand anywhere |
| Selector.WhitespaceRunsAreAlike | cli/src/selector.rs:31-37 | One run of whitespace is as good as another |
| Selector.TypographyMakesNoDifference | cli/src/selector.rs:42-47 | Typographic quotes, primes and the ellipsis match their ASCII spelling; dashes are kept |
| Selector.CharacterForms | cli/src/selector.rs:24-62 | By code point, what every single character becomes between two letters: nothing, a space, an ASCII quote, three dots, or itself |
| Selector.MatchIff | cli/src/selector.rs:64-78 | No expected text matches everything and no actual text matches nothing else; otherwise the lower-cased normal forms are equal, or, unless exactness is asked for, the actual one is some text, the expected one and some text |
| Selector.ExactImpliesSubstring | cli/src/selector.rs:64-78 | An exact match is a substring match |
| Selector.SubstringIsTransitive | cli/src/selector.rs:64-78 | Substring matching is transitive |
| Similarity.Overlap | cli/src/fusion.rs:833-840 | The removal loop counts exactly the shared bigrams, with multiplicity, and leaves the others |
| Similarity.ComputeSimilarity | cli/src/fusion.rs:810-842 | The computed score is the specified one; the denominator is the sum of both original bigram counts |
| Similarity.BigramsGrow | cli/src/fusion.rs:828-832 | One more character at the end of a non-empty text adds one bigram, of the last two characters |
| Similarity.PerfectScoreIff | cli/src/fusion.rs:807-842 | Equal non-empty texts score one; else only texts do of which neither holds the other and whose bigrams agree as multisets |
| Similarity.ZeroScoreIff | cli/src/fusion.rs:807-842 | A score is zero exactly when a text is empty, or neither holds the other and they share no bigram |
| Similarity.DiceEquation | cli/src/fusion.rs:828-842 | Where neither text holds the other, score times number of all bigrams is twice the number of shared ones |
| Similarity.ContainmentScores | cli/src/fusion.rs:819-827 | Where one properly holds the other, the score is 0.7 or 0.5 and three tenths of the part's share of the bytes |
| Similarity.DiceIsBounded | cli/src/fusion.rs:841-841 | The Dice score is a fraction, and one exactly when both texts have the same bigrams |
| Similarity.ScoreIsBounded | cli/src/fusion.rs:807-842 | Every score is a fraction; containment scores lie above 0.7 one way and between 0.5 and 0.8 the other |
| Similarity.ScoreIsSymmetricIff | cli/src/fusion.rs:807-842 | The score is the same both ways exactly when neither text properly holds the other, a non-empty one |
| Similarity.ContainmentIsDirected | cli/src/fusion.rs:819-827 | Where one text holds the other, asking for the part scores exactly 0.2 more than asking for the whole |
| ImageHeader.ImageDimensions | cli/src/cli.rs:5406-5463 | The walk never reads outside the bytes, ends, and gives the specified size |
| ImageHeader.FrameMarkers | cli/src/cli.rs:5438-5455 | Frame headers are the sixteen markers from 0xC0 on without every fourth one behind the first |
| ImageHeader.SizeIsInAFrame | cli/src/cli.rs:5425-5460 | A JPEG size always comes from a frame header |
| ImageHeader.JpegRoundTrip | cli/src/cli.rs:5421-5461 | Behind any stray bytes, fill bytes, standalone markers and segments, the size written in the frame header is the one found, exactly when something follows the width; otherwise none is |
| ImageHeader.PngRoundTrip | cli/src/cli.rs:5407-5416 | The size written in a PNG header is the one found |
| ShellQuoting.QuotersRoundTrip | cli/src/config.rs:744-749 | Either quoter's output is read by a shell as exactly one word, the original, for every text without NUL |
| ShellQuoting.CommandLinesRoundTrip | cli/src/cli.rs:4444-4446 | Quoted words joined by spaces are read back as the original list |

## Left out

- JsonRedaction.RedactValue: trees are values rebuilt by the loops, not nodes changed in place; the order of an object's members is not modelled.
- Runtime.Command.Admit: the process is alone with its files and its scripts answer; interference, lost replies and half-done scripts are the subject of Protocol.
- Lockout.RecoverableIff: for a root whose lock holder is further under way only one direction is stated (Recoverability.NoLockout), because the holder may already be the driver or be about to stop a service; services end only under an admitted stop command of the same root, not by themselves.
- Exclusion.MarkerHolds: needs the proviso NeverCutsOff, because without it the property is false (EarlyRelease.TwoAuthoritiesAtOnce).
- CrashCursor.ExactlyOnce: is stated for distinct fingerprints, gaps and log retention under half a year, a clock that does not run backwards, whole blocks in the dump and saves that succeed.
- Similarity.ComputeSimilarity: exact fractions; floating-point rounding is not modelled.
- A journal write that lands and is then reported as failed, because protecting the file fails.
- Session text fields (agent labels, wall-clock times, handoff documents) and the status command, which only prints.
- The lock's waiting loop and its time-out: a busy lock refuses at once.
- Results deferred until a command has completed, and events shown to the user.
- Observing without a token, which takes no lock and changes nothing.
- Build guards and their journals.
- Regular expressions for e-mail, JWT, bearer, header and address patterns, JSON inside strings, and text redaction of URLs in prose.
- The reserved `redaction` metadata of output envelopes, header values, flow records and pixel masking.
- Concrete percent-coding over UTF-8 bytes.
- The order among known secrets of equal length, which is lexicographic in the source and arbitrary here.
- The logcat crash grammar, crash-file persistence and the compact event form.
- Remembered-screen files and their pruning; numbers in elements are opaque texts.
- Discovery and parsing of configuration files; entries of `apps` and `targets` are opaque.
- Nearest-element ranking around the similarity score.
- Shell expansions and operators: the word reader refuses texts that need more than quote removal.
