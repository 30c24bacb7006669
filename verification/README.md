# LocalThings: protocols, identities and codecs, verified

LocalThings keeps a live mirror of Samsung appliances over one connection that can be lost, with one
cache that several writers share and registry ids that must never be orphaned. This project models
those parts in Dafny and proves what they promise. Run `dafny verify dfyconfig.toml`.

| file | what it models |
|---|---|
| PushProtocol | one session, its lock, and the polls, commands and observe attempts that interleave over it |
| ObserveManager, WriteWindows | the write-settle guard and field merge, and which subscribed hrefs really push; overlapping commands and the windows they arm, arm again and put back |
| LegacyEnvelope | the table-driven translation between the 8888 bridge's bodies and OCF resources |
| Staging, HeldLedger, OvenStart | values only a start carries: splitting, overlaying and putting back; what becomes of each held value; the requests a start makes under every failure |
| Subdevices, Discovery | several units on one connection: href namespaces, entity keys, binding, and narrowing to the units that are there |
| Identity, Rekey | which appliance may own an entry, and moving its registry rows to another key |
| CoapCodec, BlockTransfer | the plaintext probe's CoAP messages (section 3.1 of RFC 7252) and its Block2 transfer (sections 2.2 and 2.4 of RFC 7959) |
| JsonSafe | encoding decoded CBOR for JSON, over graphs that share and cycle, and back |
| CloudCourse, SensorTrace | learning downloaded programs; a sensor's hold and deadband |
| Dicts, Text, Seqs, Options | ordered dictionaries, string operations and small helpers |

Each protocol is a state machine whose steps are the code's pieces between two awaits, or whole
locked sections; the classes' methods follow the code branch by branch and are proved to be paths or
steps of it. The environment (device, network, clock, registries) is universally quantified.

Where the code does not do what a caller might expect, the exact condition is proved:

- The debug read closes a session without a downgrade, which strands "observe" for good; the
  rejected-credentials exit does too and is sound only because the transport that raises it has no
  OBSERVE.
- "At most a fifth of the hrefs stay on the poll cadence" holds at a commit exactly when four fifths
  of them have pushed since the latest burst, so a second burst between wait and commit breaks it.
- A refused write puts back the window it found, not the one its retry armed over: it takes a newer
  write's window exactly when its own last arming is the one standing, and several refused writes
  leave a window behind unless the refusals hand down one to the next to what there was before.
- `batch_steps` says an element that cannot be translated whole refuses the batch; it keeps that for
  an element exactly when the element does not mix fields with a home and fields without, which it
  takes and sends short.
- Putting split values back loses empty lists, empty maps and all but one token of a start-only prefix.
- A start that is not settings-first can put Run on the wire twice.
- An indexed and a prefixed unit always overlap on some href, and narrowing to the units that are
  there is stable for every appliance exactly when its candidates are all of one kind.
- Rekeying moves a registry whole only when neither key reads as a subdevice of the other, in either
  direction, loses a slot whose twin belongs to another entry, and loses the other slots of a device
  row it merges for one of them.
- Adopting a poll by its key when it reports no usable serial stores the address as the serial, after
  which a regenerated identity is no longer followed. A replay onto an entry with neither key nor
  serial would change the key of the next start; snapshots exist only after a live poll stored one.
- A map that carries the bytes marker's type is turned into bytes, or kept with its nested markers.

## Model

| member | source | states |
|---|---|---|
| PushProtocol.PushIsSound | custom_components/localthings/coordinator.py:2359-2454 | Over every interleaving of polls, command retries, enumerations and observe attempts, a free lock and an open coordinator make "observe" mean: the live session exists and is the very one the committed subscriptions were registered on |
| PushProtocol.ClosedStaysWithoutSession | custom_components/localthings/coordinator.py:1149-1153 | Once closed and without a session, no later step of any run opens one |
| PushProtocol.DebugReadKeepsPushIff | custom_components/localthings/coordinator.py:3384-3406 | The debug read, kept out of the step set, keeps the push claim exactly when it closes no session in observe mode |
| PushProtocol.DebugReadStrandsPush | custom_components/localthings/coordinator.py:3391-3400 | After a debug read that does close one, any number of answered polls leaves the mode "observe" on a session nothing was registered on |
| PushProtocol.RejectedPollKeepsPushIff | custom_components/localthings/coordinator.py:2583-2585 | The rejected-credentials exit closes without a downgrade: sound exactly in poll mode, hence always on a transport without OBSERVE |
| PushProtocol.Coordinator.PollOnceBlocking | custom_components/localthings/coordinator.py:1365-1432 | One poll attempt leaves the session, handshake flag and exception its outcome says, connecting first when there is no session |
| PushProtocol.Coordinator.DeviceUnreachable | custom_components/localthings/coordinator.py:2538-2567 | Going dark drops the subscriptions and counts the failed cycle |
| PushProtocol.Coordinator.PollSection | custom_components/localthings/coordinator.py:2579-2646 | The locked poll section ends where the protocol's path of it does, the lock given back and the push claim true. A second poll goes out exactly when the first failed with something other than rejected credentials or a failed handshake, the coordinator is open, it was no timeout to wait out (discovered, board not flat, fewer than two before) and no failed cycle precedes it; session, mode, resubscribe, timeouts and failed cycles are said for every case |
| PushProtocol.PollSectionRuns | custom_components/localthings/coordinator.py:2579-2646 | Where the poll section ends is reached by a path of the protocol, so every run theorem holds of it |
| PushProtocol.PollSectionEnds | custom_components/localthings/coordinator.py:2579-2646 | Those cases hold of the protocol's own path, said from the outcomes of the polls and the state before alone |
| PushProtocol.PutSectionRuns | custom_components/localthings/coordinator.py:3021-3059 | The same for the command section |
| PushProtocol.PutSectionEnds | custom_components/localthings/coordinator.py:3021-3059 | The same for a command: the session, mode and resubscribe its outcomes leave |
| PushProtocol.Coordinator.JudgeFirst | custom_components/localthings/coordinator.py:2580-2617 | What the first poll's exception decides, case by case: give the lock back, wait a timeout out, go dark, close and raise, or close and then reconnect or go dark, by whether a failed cycle precedes it |
| PushProtocol.Coordinator.DoPut | custom_components/localthings/coordinator.py:3008-3016 | One PUT attempt connects when needed and leaves the link and exception its outcome says |
| PushProtocol.Coordinator.PutSection | custom_components/localthings/coordinator.py:3021-3059 | The locked command section ends exactly where the protocol's path of it does: a second PUT goes out exactly after a retryable exception, its outcome is the command's, and leaving observe mode on the way always schedules a resubscribe |
| PushProtocol.Coordinator.BeginAttempt | custom_components/localthings/coordinator.py:2382-2390 | A session that cannot observe ends the attempt at poll; without a session or with one that can it goes on |
| PushProtocol.Coordinator.GiveUp | custom_components/localthings/coordinator.py:2434-2436 | An attempt none of whose subscribes was taken is gone and the mode is poll |
| PushProtocol.Coordinator.SubscribeSection | custom_components/localthings/coordinator.py:2392-2436 | The first phase of an attempt either remembers the session its registrations went out on or gives up with the mode at poll |
| PushProtocol.Coordinator.CommitSection | custom_components/localthings/coordinator.py:2440-2454 | The second phase ends in observe mode exactly when the wait succeeded and the session subscribed on is still the live one, and otherwise schedules a retry when it is not |
| ObserveManager.MergeOptionsByPrefix | custom_components/localthings/registry/capabilities/common.py:179-206 | Merging tokens into an options array leaves, for every prefix, the last incoming token of it if there is one and what was cached otherwise |
| ObserveManager.MergeKeepsPlaces | custom_components/localthings/registry/capabilities/common.py:193-206 | Every cached entry keeps its place, itself or as a token of its prefix, and only incoming tokens are added behind them |
| ObserveManager.HasPrefixIff | custom_components/localthings/registry/capabilities/common.py:190-202 | A prefix is all of the text up to the last underscore |
| ObserveManager.CacheIsLastWriter | custom_components/localthings/observe.py:205-282 | Over any sequence of updates, a field on an ordinary href (the options array aside) is the one of the last accepted rep that carried it |
| ObserveManager.AlarmsAreLastRep | custom_components/localthings/observe.py:220-232 | An alarms href is the last accepted rep, absent fields cleared |
| ObserveManager.WindowHolds | custom_components/localthings/observe.py:257-259 | Inside a write-settle window nothing but an optimistic write changes that href |
| ObserveManager.UpdateReads | custom_components/localthings/observe.py:205-282 | One update, field by field: nothing new inside a window unless it is a write's own; an alarms href replaced, any other merged, the option array token by token for a push where both have one |
| ObserveManager.UpdateSettles | custom_components/localthings/observe.py:195-203 | An update forgets its own href's window exactly if that has run out, a write's update none |
| ObserveManager.PeekReads | custom_components/localthings/observe.py:195-203 | A window is over exactly from its deadline on, and a look at it then forgets it |
| WriteWindows.NewerWindowStandsIff | custom_components/localthings/coordinator.py:2893-2973 | Over any run of writes that begin, arm again, are accepted or refused between polls, pushes and sweeps: from its arming to its deadline a window stands exactly when no write begun before it is refused while its own last arming is the one standing, unless that goes back to the same deadline |
| WriteWindows.TakenOnlyByRearmed | custom_components/localthings/coordinator.py:2929-2939 | A write begun before the window was armed takes it only by arming again since, or in the same tick |
| WriteWindows.WrittenValueStands | custom_components/localthings/coordinator.py:2893-2973 | Anywhere in any run, from a write's merge and arming to its deadline, a field it wrote keeps its value through polls, sweeps, pushes, later writes to other fields whatever becomes of them and refusals of older writes, as long as it is not refused itself and no older write arms again and is then refused |
| WriteWindows.LostWindowLosesValue | custom_components/localthings/observe.py:257-282 | A read of a field replaces its value exactly when nothing is settling, so a window taken early is a written value open to the next stale read |
| WriteWindows.RearmedRefusalTakesNewer | custom_components/localthings/coordinator.py:3058-3077 | A concrete run: an older write whose retry is answered with a refusal arms over the newer write's window and takes it, the newer write still open |
| WriteWindows.AllRefusedRestoresIff | custom_components/localthings/coordinator.py:2893-2973 | Over any such run the window is as it was before exactly when the refusals since the last arming, each holding what the one before it put back, hand down to that window or to one that has run out as it has |
| WriteWindows.NewestFirstRestoresIff | custom_components/localthings/observe.py:184-193 | Writes that armed once each and were all refused give back the window there was before exactly when they were refused newest first, or the deadline of theirs that another order leaves has run out |
| WriteWindows.OlderRefusedFirstLeavesWindow | custom_components/localthings/coordinator.py:2964-2972 | A concrete run: neither armed again, refused oldest first, the older one's window stays with nothing accepted |
| WriteWindows.BothRearmedLeavesWindow | custom_components/localthings/coordinator.py:2929-2972 | A concrete run: both armed again, refused newest first, the older one's first deadline stays all the same |
| WriteWindows.Command.constructor | custom_components/localthings/coordinator.py:2893-2924 | A command remembers the window it finds and merges its value |
| WriteWindows.Command.Arm | custom_components/localthings/coordinator.py:2925-2939 | Arms the window and remembers the deadline, the first time and after a retry |
| WriteWindows.Command.Refuse | custom_components/localthings/coordinator.py:2964-2969 | A refused command puts back what it found over its own last deadline only |
| ObserveManager.CoverageHolds | custom_components/localthings/observe.py:385-401 | In observe mode, in every run: fallback hrefs are subscribed, every other subscribed href has pushed since its attempt began, and an href stale on two compared sweeps is a fallback one |
| ObserveManager.NotifiedIsPushedSinceBurst | custom_components/localthings/observe.py:304-355 | Over every run the notified hrefs are exactly those pushed since the latest burst, whichever attempt began it |
| ObserveManager.CommitLeavesAFifthIff | custom_components/localthings/observe.py:355-397 | In any run a commit leaves at most a fifth of its hrefs on the sub-poll cadence exactly when four fifths of them have pushed since the latest burst, its own or a later one |
| ObserveManager.QuorumCommitLeavesAFifth | custom_components/localthings/observe.py:367-401 | It does at every commit with no other burst since the wait succeeded |
| ObserveManager.OverlappingBurstsBreakQuorum | custom_components/localthings/observe.py:354-356 | A second burst in between clears the notifications, and a run commits with every href silent |
| ObserveManager.TwoStaleSweepsDemote | custom_components/localthings/observe.py:489-498 | Two compared sweeps that disagree on an href with no push and no clean sweep between put it back on the sub-poll cadence |
| ObserveManager.OneStaleSweepSpares | custom_components/localthings/observe.py:489-498 | One that disagrees does not |
| ObserveManager.DiffIff | custom_components/localthings/observe.py:53-73 | A sweep disagrees exactly on a field both carry with different values |
| ObserveManager.SweepTells | custom_components/localthings/observe.py:444-498 | A subscribed href is compared where the sweep and the cache have it and no window stands, and found stale exactly on such a field |
| ObserveManager.Manager.MarkWritePending | custom_components/localthings/observe.py:173-178 | Arms the window, replacing an older one, and returns its deadline |
| ObserveManager.Manager.SettleDeadline | custom_components/localthings/observe.py:180-182 | Reads the window as it stands, run out or not |
| ObserveManager.Manager.RestoreWritePending | custom_components/localthings/observe.py:184-193 | Undoes only the window its own write armed |
| ObserveManager.Manager.IsSettling | custom_components/localthings/observe.py:195-203 | Says whether a window stands and forgets one that has run out |
| ObserveManager.Manager.ApplyRep | custom_components/localthings/observe.py:205-282 | Drops, replaces or merges one update; the new cache and windows are the gate's step |
| ObserveManager.Manager.OnNotification | custom_components/localthings/observe.py:284-317 | A push that did not decode, belongs to an isolated debug recording or names another resource type changes nothing; any other counts its href as covered and is applied |
| ObserveManager.Manager.SubscribeHrefs | custom_components/localthings/observe.py:341-365 | Clears the notified set and returns exactly the hrefs whose subscribe did not raise |
| ObserveManager.Manager.EnterObserveMode | custom_components/localthings/observe.py:385-401 | Commits the subscribed hrefs with the silent ones as fallback |
| ObserveManager.Manager.AbandonObserveAttempt | custom_components/localthings/observe.py:403-409 | Drops a failed attempt: nothing subscribed, back to polling, the fallback set as it was |
| ObserveManager.Manager.DowngradeToPoll | custom_components/localthings/observe.py:507-512 | Keeps the subscribed hrefs only as fallback |
| ObserveManager.Manager.LogSweepDiscrepancies | custom_components/localthings/observe.py:444-505 | Counts, forgives and demotes hrefs exactly as comparing each with the sweep says |
| LegacyEnvelope.ToWrite | custom_components/localthings/legacy_http.py:536-563 | The loops over steps and fields compute the body that the patches, taken one by one, put together |
| LegacyEnvelope.ToResources | custom_components/localthings/legacy_http.py:361-388 | The loops over the table and fields compute the reps read resource by resource |
| LegacyEnvelope.TranslationRoundTrip | custom_components/localthings/legacy_http.py:361-563 | For every well-formed table, writing patches and reading the body back gives exactly the patched hrefs and fields, each with the value last patched, a number for the string that spells it |
| LegacyEnvelope.PatchReadsBackIff | custom_components/localthings/legacy_http.py:361-563 | One patch written alone reads back alone and the same exactly when its field has a home, its address is that home's canonical one, every name inside it is kept and a list for a comma-joined field arrives split, whatever its entries are |
| LegacyEnvelope.AddressRoundTripIff | custom_components/localthings/legacy_http.py:519-533 | The first-match scan is inverse to fan-out and rename exactly when the field is fanned out there or is one of the resource's own that it neither fans out elsewhere nor knows only under another name |
| LegacyEnvelope.ValueRoundTripIff | custom_components/localthings/legacy_http.py:503-516 | A nested value survives being written and read exactly when every name in it is canonical and none is the bridge's own spelling of a renamed field |
| LegacyEnvelope.WiredSpells | custom_components/localthings/legacy_http.py:536-563 | Where a patched field goes and what is put there: the whole list of an items resource, or one field, each in the spelling its own resource asks for; a field without a home goes nowhere |
| LegacyEnvelope.WireIsSpelled | custom_components/localthings/legacy_http.py:503-516 | At every depth: a text under a numeric name is sent as the number it spells, names are bare, all else as it is |
| LegacyEnvelope.CanonicalIsRespelled | custom_components/localthings/legacy_http.py:309-320 | At every depth: names are renamed and prefixed, nothing else touched |
| LegacyEnvelope.AddressIs | custom_components/localthings/legacy_http.py:361-388 | A wire field is read onto the href it fans out to, else its resource's, under the name it is renamed to, else its own, prefixed |
| LegacyEnvelope.ResourcesAt | custom_components/localthings/legacy_http.py:361-388 | Reading through a well-formed table, each address holds what is last read onto it; an items resource overwrites nobody |
| LegacyEnvelope.SplitJoinedFixedIff | custom_components/localthings/legacy_http.py:323-334 | Splitting comma-joined entries is idempotent, and leaves a list alone exactly when its entries are single, trimmed, non-empty and distinct |
| LegacyEnvelope.SplitHas | custom_components/localthings/legacy_http.py:323-334 | A split list holds exactly the trimmed pieces of its texts that are not empty, and its other entries |
| LegacyEnvelope.SplitCommasJoin | custom_components/localthings/legacy_http.py:329 | Splitting a text takes nothing but its commas |
| LegacyEnvelope.BatchSteps | custom_components/localthings/legacy_http.py:566-585 | A batch becomes steps exactly when every element names an href and is a marker or has at least one field with a home |
| LegacyEnvelope.ElementTakesIff | custom_components/localthings/legacy_http.py:566-585 | An element is taken exactly when it is a map whose href is a text and whose rep is missing, null, or a map with some field that has a home |
| LegacyEnvelope.ElementPromiseIff | custom_components/localthings/legacy_http.py:569-581 | An element is taken exactly when it translates whole, unless it mixes fields with a home and fields without |
| LegacyEnvelope.TakenBatchIsWholeIff | custom_components/localthings/legacy_http.py:566-583 | Everything a taken batch said has a home exactly when no element of it mixes the two |
| LegacyEnvelope.HomelessFieldsAreDropped | custom_components/localthings/legacy_http.py:536-563 | What a mixed element loses is exactly its homeless fields: the body is that of the others |
| LegacyEnvelope.DeviceEmptyIff | custom_components/localthings/legacy_http.py:536-563 | A body comes out empty exactly when no patch has a home |
| LegacyEnvelope.PartlyHomedElementIsTaken | custom_components/localthings/legacy_http.py:569-573 | An element with one homed and one homeless field is taken and the homeless one dropped, which the function's description rules out |
| Staging.SplitStartOnly | custom_components/localthings/legacy_http.py:592-628 | The loops put each field, list token and wrapper into the sendable body or the held values, a repeated prefix keeping its last token |
| Staging.AddStaged | custom_components/localthings/legacy_http.py:665-679 | The loop adds held values one by one, and fails exactly where a field cannot hold one |
| Staging.WithStaged | custom_components/localthings/legacy_http.py:647-662 | The loop lays held values over a read in order, leaving reads without the wrapper alone |
| Staging.SentIs | custom_components/localthings/legacy_http.py:592-628 | What goes out now: every field that is not start-only, an array without the tokens of start-only options, and nothing of an array of such tokens alone |
| Staging.HeldIs | custom_components/localthings/legacy_http.py:592-628 | What waits: exactly the start-only fields, whole, and the last token of each start-only option in the arrays of other fields |
| Staging.StartOnlyIs | custom_components/localthings/legacy_http.py:603-611 | Start-only names are those of the last table row for the wrapper, none without one |
| Staging.StagedCurrentIs | custom_components/localthings/legacy_http.py:631-644 | What the appliance reports for a held key: the field, or the first token of the option in its array |
| Staging.SplitThenAddRestoresIff | custom_components/localthings/legacy_http.py:592-679 | Putting the held values back always succeeds on what a split left, and restores the body up to token order exactly when no wrapper is empty and every list not itself start-only is non-empty with one token per start-only prefix |
| Staging.OverlaidReads | custom_components/localthings/legacy_http.py:631-662 | A held value is what a read with it laid over reports, and every other key that could be held reads as without it |
| Staging.OverlayTwice | custom_components/localthings/legacy_http.py:647-662 | Laying the same values over twice reads as once, token order included |
| Staging.SplitIsProducible | custom_components/localthings/legacy_http.py:592-628 | Every split satisfies what those laws ask: distinct keys, each token under its own prefix, a field plain or by token throughout one table |
| HeldLedger.Hold | custom_components/localthings/legacy_http_transport.py:459-468 | A write with a course drops the settings it does not bring, then every held value of the write is recorded with what the appliance last reported |
| HeldLedger.Compare | custom_components/localthings/legacy_http_transport.py:623-644 | A read naming no Operation state, null or "Ready" keeps exactly the values whose wrapper it leaves out, that have no base yet or whose base it repeats, the base filled in by the first report; one with any other state leaves nothing held |
| HeldLedger.ReportLeaves | custom_components/localthings/legacy_http_transport.py:623-646 | The same said of the ledger as a whole, read off the report literally |
| HeldLedger.ApplyReads | custom_components/localthings/legacy_http_transport.py:459-468 | What is held under a key after any event: what the event wrote there, or what was held and has the fate of staying |
| HeldLedger.EveryValueHasOneFate | custom_components/localthings/legacy_http_transport.py:576-644 | Over any run each written value is held now, with its first report as base, exactly when its fate, told from the events alone, is to stay: nothing since has written the key anew, chosen a course without it, started, or reported another value or an Operation state other than null and "Ready" |
| HeldLedger.HeldWasWritten | custom_components/localthings/legacy_http_transport.py:466-468 | Whatever is held is the newest value written under its key |
| HeldLedger.SettingsFollowCourse | custom_components/localthings/legacy_http_transport.py:460-465 | No held setting predates the held course |
| HeldLedger.AddedCarriesAll | custom_components/localthings/legacy_http.py:665-679 | A body held values were added to has every one of them |
| OvenStart.Appliance.Write | custom_components/localthings/legacy_http_transport.py:458-486 | One write: the requests it makes, how it ends, and what the ledger goes through, a start clearing it exactly when its body was taken. A start folds the held values into its first body exactly for an oven given a mode, or when something is held and the last sweep read the state "Ready"; otherwise the sendable body goes out alone |
| OvenStart.StartSends | custom_components/localthings/legacy_http_transport.py:469-471 | That for every start: which body goes out first, field by field, and that none does when a held value cannot be put in or no time is left |
| OvenStart.PlainSends | custom_components/localthings/legacy_http_transport.py:472-486 | Any other write goes out once as it is, a stop only after a fresh read says something other than Ready, an empty one not at all |
| OvenStart.OvenRunGoesOut | custom_components/localthings/legacy_http_transport.py:576-612 | After the settings of an oven were taken Run is put exactly when time is left, and its answer is the result |
| OvenStart.ComposedRunGoesOut | custom_components/localthings/legacy_http_transport.py:589-612 | After a composed start was taken Run is put again exactly when a fresh read came back without saying so; read once more exactly when that is turned down |
| OvenStart.UnansweredEnds | custom_components/localthings/legacy_http_transport.py:596-608 | How an attempt ends whose last request was refused or lost, the Run of an oven start apart |
| OvenStart.CoapKeepsClass | custom_components/localthings/legacy_http.py:702-712 | A status keeps its class, and the statuses in use their meaning |
| OvenStart.Appliance.Start | custom_components/localthings/legacy_http_transport.py:563-612 | The two-request start in both forms, under every answer, refusal, loss and spent budget |
| OvenStart.Appliance.Read | custom_components/localthings/legacy_http_transport.py:623-646 | A read reconciles the ledger and shows the rest laid over it |
| OvenStart.Appliance.Sweep | custom_components/localthings/legacy_http_transport.py:325-336 | A sweep is remembered as sent before it is reconciled |
| OvenStart.AsyncPut | custom_components/localthings/coordinator.py:3021-3059 | The coordinator's two attempts over the appliance make the requests the protocol says |
| OvenStart.TriedAgainIff | custom_components/localthings/coordinator.py:3029-3059 | A command is tried again exactly after a refused token or an exception other than the unconfirmed start |
| OvenStart.OvenStartsAtMostOnce | custom_components/localthings/legacy_http_transport.py:563-612 | A settings-first oven start puts Run on the wire at most once across both attempts, whatever is lost, refused or late, and only right after settings of the same attempt were taken |
| OvenStart.StartedAtMostOnceIff | custom_components/localthings/legacy_http_transport.py:469-471 | Run goes out at most once under every pattern of failures exactly when the start is settings-first, or its held values cannot be put in its body so that nothing goes out |
| OvenStart.AcceptedStartCarriesHeldIff | custom_components/localthings/legacy_http_transport.py:576-590 | Whatever a start cleared, each held value was in the request the appliance took, except an Operation state in a settings-first start and nothing else |
| Subdevices.CanonicalRoundTripIff | custom_components/localthings/registry/subdevices.py:91-120 | Canonical to actual and back is the identity exactly on the unit's domain |
| Subdevices.ActualRoundTrip | custom_components/localthings/registry/subdevices.py:108-120 | Actual to canonical and back is the identity on every owned href |
| Subdevices.PrefixedHref | custom_components/localthings/registry/subdevices.py:91-120 | A prefixed unit's hrefs have its key as their first segment, written out |
| Subdevices.IndexedHref | custom_components/localthings/registry/subdevices.py:91-120 | An indexed unit's end in its index where the canonical ones end in 0, and other tails are left alone |
| Subdevices.ViewIsFaithful | custom_components/localthings/registry/subdevices.py:153-179 | A unit's view never overwrites one rep with another and reads for each canonical href what the snapshot has for the actual one |
| Subdevices.ViewsPartitionIff | custom_components/localthings/registry/subdevices.py:153-179 | The main view and the units' views hold every resource exactly once exactly when no href has two owners |
| Subdevices.UnitsApartIff | custom_components/localthings/registry/subdevices.py:108-129 | Two different units never share an href exactly when they are of one kind |
| Subdevices.KeysNeverCollideIff | custom_components/localthings/registry/subdevices.py:131-147 | No entity of one unit ever has another's key exactly when they differ in kind, index or the letters and digits of their UUIDs |
| Subdevices.EntityKeyIs | custom_components/localthings/registry/subdevices.py:131-147 | The prefixes written out: none, `subdevice` and the index, `subdevice_` and the slug |
| Subdevices.SlugKeeps | custom_components/localthings/registry/subdevices.py:145 | A slug is the letters and digits in order |
| Subdevices.MainKeyCollidesIff | custom_components/localthings/registry/adapter.py:11-16 | A main-unit key meets a unit's key exactly when it begins with that unit's prefix |
| Subdevices.UuidsTagDistinct | custom_components/localthings/registry/subdevices.py:143-146 | Different canonical UUIDs keep different slugs |
| Subdevices.NormalizeSeedBatch | custom_components/localthings/registry/subdevices.py:182-197 | The comprehension builds the batch under prefixed hrefs in order |
| Subdevices.NormalizedIsOwned | custom_components/localthings/registry/subdevices.py:182-197 | Every normalized href is the unit's own and stays as it is when normalized again |
| Subdevices.NormalizeKeepsIff | custom_components/localthings/registry/subdevices.py:182-197 | No entry is lost exactly when no resource is listed both with and without the prefix |
| Discovery.Discover | custom_components/localthings/registry/discovery.py:115-190 | The loop over a view finds what binding each href finds, in order: an entity is bound exactly when some href of the view binds it |
| Discovery.DiscoverHref | custom_components/localthings/registry/discovery.py:139-188 | One href: the entities of every capability that takes its rep, with its instance, those they derive, else those of the first pattern that takes it, under what the href names; the tiers with them; a gap only where nothing is registered |
| Discovery.DiscoveredHas | custom_components/localthings/registry/discovery.py:115-190 | The same for a whole view, entities and poll tiers |
| Discovery.InstanceOfNumber | custom_components/localthings/registry/discovery.py:58-63 | An href ending in a number other than 0 has it, with an underscore, as its instance; one ending in 0 has none |
| Discovery.InstanceOfOther | custom_components/localthings/registry/discovery.py:58-63 | Whatever has an instance ends in such a number |
| Discovery.InstancesHaveOwnKeys | custom_components/localthings/registry/adapter.py:11-16 | Within a unit one description bound under two numbers of one href never has one key |
| Discovery.TakesIff | custom_components/localthings/registry/discovery.py:141-148 | A capability takes a rep that lists the type it asks for, in a list or anywhere in a text, and meets its condition |
| Discovery.PatternKeyIs | custom_components/localthings/registry/discovery.py:171-177 | What an href names is the segments that are no number, not `vs` and not empty, whatever slashes surround it |
| Discovery.GapIff | custom_components/localthings/registry/discovery.py:187-188 | An href is a gap exactly when its rep is a map, nothing is registered for it and no pattern takes it |
| Discovery.Flatten | custom_components/localthings/registry/adapter.py:19-50 | The memoized loop reads every entity against its own unit's view; under a key stands the value of the last entity of that key that has one |
| Discovery.ValueReads | custom_components/localthings/registry/adapter.py:36-49 | What one entity reads: a function of its rep, else of the one field it names, nothing where it says it is not there |
| Discovery.KeyIs | custom_components/localthings/registry/adapter.py:11-16 | A key is the unit's prefix, the given or own key, and the instance |
| Discovery.DiscoverPartitioned | custom_components/localthings/registry/subdevices.py:617-664 | Main plus each candidate, kept exactly when some primary entity that is no meter has a value |
| Discovery.KeptIff | custom_components/localthings/registry/subdevices.py:541-555 | A candidate is kept exactly when an entity of no category that is no meter has a value other than null among its own |
| Discovery.SkippedHrefs | custom_components/localthings/registry/subdevices.py:654-662 | A rejected candidate is reported with exactly the hrefs it would have bound |
| Discovery.PartitionHas | custom_components/localthings/registry/subdevices.py:617-664 | The partition holds what the main unit binds and what each kept candidate binds, by its own device type, else the main unit's |
| Discovery.NarrowingIsStable | custom_components/localthings/coordinator.py:1786-1806 | With no href both a kept and a rejected candidate's, discovering again without the rejected candidates and their hrefs gives the same entities, tiers, gaps and device type, keeps the same units and rejects nobody |
| Discovery.OwnedApartIsStable | custom_components/localthings/coordinator.py:1786-1806 | That holds, whatever the tables, for snapshots none of whose hrefs has two owners among the candidates |
| Discovery.AlwaysStableIff | custom_components/localthings/coordinator.py:1786-1806 | Whatever the snapshot and the tables, that holds for a set of candidates exactly when they are all of one kind; an indexed and a prefixed one have a snapshot and a table that break it |
| Discovery.NoCandidatesIsPlain | custom_components/localthings/registry/subdevices.py:617-664 | With no candidates the partition is plain discovery of the whole snapshot |
| Identity.KeyIsNormal | custom_components/localthings/registry/identity.py:94-109 | A device key read back as an id gives itself |
| Identity.SameKeyForSameText | custom_components/localthings/registry/identity.py:94-109 | Reads that differ only in case or padding give the same key, or none |
| Identity.ReadingIs | custom_components/localthings/registry/identity.py:94-148 | A poll's reading: the trimmed lower-case device id exactly where it tells units apart (something beside zeros and dashes, not beginning with "nothing", not one hexadecimal digit eight times or more), else the platform id where that does, else none; the trimmed serial where it names something, else the address |
| Identity.NoRowIsOrphaned | custom_components/localthings/coordinator.py:1808-1884 | Over any run of live polls, replays and restarts every registry row is under the key the entry uses |
| Identity.ReplayKeepsKeyIff | custom_components/localthings/coordinator.py:2297-2306 | A replay leaves the rows' key the entry's key exactly when a key or serial is stored or the replayed serial is the address |
| Identity.StrangersChangeNothing | custom_components/localthings/coordinator.py:1832-1872 | Any number of polls with neither the entry's key nor its serial leave key, serial and rows as they are |
| Identity.RightfulKeyIsAdopted | custom_components/localthings/coordinator.py:1841-1844 | After any run of strangers, a poll with the entry's key is taken up |
| Identity.RightfulSerialIsAdopted | custom_components/localthings/coordinator.py:1874-1884 | After any run of strangers, a poll with the entry's serial is followed under its new identity, every row moving with it |
| Identity.KeyChangesIff | custom_components/localthings/coordinator.py:1846-1884 | A real entry's key changes at a poll exactly when it reports another OCF identity together with the stored serial |
| Identity.RegenerationFollowedIff | custom_components/localthings/coordinator.py:1841-1844 | One adopted poll without a usable serial spends the vouching one: a regenerated identity is followed afterwards exactly when that poll reported its serial |
| Identity.Registration.ResolveIdentity | custom_components/localthings/coordinator.py:1808-1884 | The branches settle on the key and serial the protocol says, and rekey exactly when following |
| Identity.Registration.Discover | custom_components/localthings/coordinator.py:2246-2306 | One reading, live or replayed, is one step of the protocol |
| Rekey.Registry.RekeyEntry | custom_components/localthings/rekey.py:30-91 | The three id spaces end where moving all rows at once puts them, whatever order they are listed in |
| Rekey.UidIs | custom_components/localthings/rekey.py:50-57 | A unique id is under a key when it is the domain, the key and a suffix by underscores; moved, the suffix stays |
| Rekey.IdentifierIs | custom_components/localthings/rekey.py:66-73 | A device identifier is under a key when it is the key, or the key, an underscore and more, in this domain; moved, the rest stays |
| Rekey.Registry.RekeyEntities | custom_components/localthings/rekey.py:52-63 | The loop that rewrites and removes in place equals moving all entity rows at once, in any listing order, where no stale row's new id is another stale row's; no id is taken twice at any step |
| Rekey.ApartIsSettled | custom_components/localthings/rekey.py:53-58 | With keys neither of which reads as a subdevice of the other, every registry is such |
| Rekey.UnsettledDependsOnOrder | custom_components/localthings/rekey.py:54-63 | Wherever a stale row's new id is another stale row's, visiting the other first frees it: the outcome depends on the listing order |
| Rekey.Registry.RekeyDevices | custom_components/localthings/rekey.py:65-91 | The device loop, its test for the row itself included, equals moving all device rows at once; entities of a merged device hang on its twin and none is lost to the cascade |
| Rekey.Registry.FindDevice | custom_components/localthings/devices.py:27-46 | The first row, in listing order, that carries any of the identifiers, or none when no listed row does |
| Rekey.RekeyedKeeps | custom_components/localthings/rekey.py:57-68 | No row is left under the old key, a row without a twin keeps its entity id, other rows are untouched, ids stay unique, and moving again changes nothing |
| Rekey.SlotsPreservedIff | custom_components/localthings/rekey.py:57-68 | The (domain, suffix) slots under either key are those under the new one exactly when no stale row's twin belongs to another entry |
| Rekey.MovesWholeIffApart | custom_components/localthings/rekey.py:45-68 | Every registry is moved whole exactly when neither key reads as a subdevice of the other |
| Rekey.DevicesRekeyedKeeps | custom_components/localthings/rekey.py:65-91 | No device identifier is left under the old key, each still names one row, and moving again changes nothing, whatever the rows carry |
| Rekey.DeviceSlotsPreserved | custom_components/localthings/rekey.py:65-91 | Where every row has one slot, under either key or under both, no subdevice slot is lost |
| Rekey.DeviceSlotsPreservedIff | custom_components/localthings/rekey.py:65-91 | The slots under either key are those under the new one exactly when every slot on a row that goes is also on a row that stays |
| Rekey.MergedRowLosesSlot | custom_components/localthings/rekey.py:74-86 | A concrete row with two slots, merged for one of them, takes the other with it |
| Rekey.OneSlotIsValid | custom_components/localthings/rekey.py:65-91 | Rows with one slot each, a row holding it under both keys included, are moved as they stand |
| Rekey.MovingTwinIsValid | custom_components/localthings/rekey.py:65-91 | A concrete pair: a row moving onto one that moves itself and stays is merged into it whatever the order |
| Rekey.ChainDependsOnOrder | custom_components/localthings/rekey.py:74-86 | A concrete chain: a row moving onto one that goes is merged or stays as the listing order has it |
| Rekey.SurvivorsKeepADevice | custom_components/localthings/rekey.py:80-86 | An entity that survives its own move survives its device's removal and hangs on a row that is there |
| Rekey.SecondCallChangesNothing | custom_components/localthings/rekey.py:41-43 | A second call leaves what it found |
| CoapCodec.OptionRoundTrip | docs/investigations/ocf_plaintext_probe.py:88-101 | An encoded option reads back as itself before anything, and never begins with the payload marker |
| CoapCodec.OptionLayout | docs/investigations/ocf_plaintext_probe.py:88-101 | One byte of two nibbles, what extends each, and the value, by the meaning section 3.1 of RFC 7252 gives them; built exactly up to 65804 |
| CoapCodec.ExtendedReads | docs/investigations/ocf_plaintext_probe.py:156-167 | A nibble is read with as many bytes as it announces and not at all when they are cut short; 15 stands for itself |
| CoapCodec.ParseResponse | docs/investigations/ocf_plaintext_probe.py:143-172 | The offset walk computes the recursive reading, failing exactly where an extended form is cut short |
| CoapCodec.MessageRoundTrip | docs/investigations/ocf_plaintext_probe.py:143-172 | An encoded message parses to its code, token, payload and options; it encodes exactly when numbers do not descend and no distance or value exceeds 65804 |
| CoapCodec.MessageLayout | docs/investigations/ocf_plaintext_probe.py:109-140 | Where version, type, token length, code, message id, token and options lie |
| CoapCodec.OverwrittenIsLast | docs/investigations/ocf_plaintext_probe.py:168-169 | What a parsed message holds for a number is the last value the message gave it |
| CoapCodec.BuildGet | docs/investigations/ocf_plaintext_probe.py:109-140 | The accumulated bytes are the encoding of the request's option list |
| CoapCodec.GetRoundTrip | docs/investigations/ocf_plaintext_probe.py:109-140 | A request goes out exactly when its segments and query fit, and parses back to its token and, number by number, the last segment under 11, the query under 15, the format under 17, the block under 23, the version under 2049, and nothing else |
| CoapCodec.AskedNumbers | docs/investigations/ocf_plaintext_probe.py:127-139 | The formats 60 and 10000, the version 2048, and the block number above the size exponent 6 |
| CoapCodec.AskInOrder | docs/investigations/ocf_plaintext_probe.py:121-123 | Every path segment is there, in its place, before the other options |
| CoapCodec.BlockRoundTripIff | docs/investigations/ocf_plaintext_probe.py:104-106 | A block number asked for reads back as itself with nothing to come, and has a value exactly below 4096 |
| CoapCodec.BlockReads | docs/investigations/ocf_plaintext_probe.py:175-181 | A block option is its number above four bits, the highest of which says whether more is to come |
| BlockTransfer.AskFor | docs/investigations/ocf_plaintext_probe.py:442-474 | One block: the first in one way, a later one in the way that worked, or in each of the four until one is answered, which is kept |
| BlockTransfer.Unicast | docs/investigations/ocf_plaintext_probe.py:440-514 | Terminates; against any correct server a result is a prefix and a completed one the whole body; against one that answers block 0 by name and each later block by at least one of the four ways, a way working or failing throughout, exactly the first 32768 bytes, complete exactly for bodies that fit them; from one that never serves, nothing |
| JsonSafe.RankedIff | custom_components/localthings/registry/encode.py:66-111 | The measure the walk ends by exists exactly when no ring of tags is free of containers |
| JsonSafe.WalkEncodes | custom_components/localthings/registry/encode.py:66-111 | Walking a graph that unfolds to a tree encodes that tree, whatever it shares |
| JsonSafe.MarkersAre | custom_components/localthings/registry/encode.py:42-111 | What each kind of object is written as, word for word |
| JsonSafe.MapIs | custom_components/localthings/registry/encode.py:85-93 | A map off the path holds under each text what the last key of that text maps to |
| JsonSafe.ListIs | custom_components/localthings/registry/encode.py:95-96 | A list off the path is written item by item, in order |
| JsonSafe.RoundTripIff | custom_components/localthings/registry/encode.py:114-131 | Encoding and turning back gives a tree again exactly when every byte string is within the inline limit and no map poses as a marker |
| JsonSafe.GraphRoundTripIff | custom_components/localthings/registry/encode.py:55-131 | The same for graphs |
| JsonSafe.BytesRoundTripIff | custom_components/localthings/registry/encode.py:42-52 | A byte string survives exactly within the limit |
| CloudCourse.CloudCourses.Observe | custom_components/localthings/cloudcourse.py:239-308 | One report is one step of the store, and the result is true exactly when a stored payload changed |
| CloudCourse.CloudCourses.SetName | custom_components/localthings/cloudcourse.py:357-361 | Names a learned slot and keeps the store sound |
| CloudCourse.CloudCourses.SetDownloadCourse | custom_components/localthings/cloudcourse.py:353-355 | Stores the code that runs a downloaded program, none for an empty one |
| CloudCourse.RunKeeps | custom_components/localthings/cloudcourse.py:239-308 | Over any run every stored payload stays loaded and under the slot it names, and every name survives |
| CloudCourse.SlotsSettle | custom_components/localthings/cloudcourse.py:275-288 | A report learned twice is learned once, both tokens naming one slot included |
| CloudCourse.ReportStores | custom_components/localthings/cloudcourse.py:239-308 | What is stored under a slot after a report: the one-time payload if it names the slot and the slot is offered, else the default one, else what there was |
| CloudCourse.SlotOfIs | custom_components/localthings/cloudcourse.py:96-125 | A payload names the slot in its third byte unless it is too short, odd, no hexadecimal text or begins with FFFF |
| CloudCourse.AdvertisedSlotsAre | custom_components/localthings/cloudcourse.py:128-138 | The slots offered are the bytes of the CloudExtraCourse option, each once |
| CloudCourse.OptionValueIs | custom_components/localthings/registry/capabilities/common.py:162-176 | An option's value is what follows its first token's underscore |
| CloudCourse.ObserveTwice | custom_components/localthings/cloudcourse.py:239-308 | Observing the same report again changes nothing |
| CloudCourse.CandidatesCountLoads | custom_components/localthings/cloudcourse.py:290-306 | A course's count is the number of loads watched happen on it |
| CloudCourse.WithNameKeeps | custom_components/localthings/cloudcourse.py:357-361 | Naming keeps every payload and every other name |
| CloudCourse.CoercedIsSound | custom_components/localthings/cloudcourse.py:182-206 | Whatever is read back from storage, only sound records come out |
| CloudCourse.SnapshotRestores | custom_components/localthings/cloudcourse.py:328-333 | Storing and restoring is the identity on slots and download course |
| SensorTrace.EveryReadShows | custom_components/localthings/sensor.py:134-185 | Every read of every run shows the live value except within the hold of the first arming since the last bypass, where it shows what that froze |
| SensorTrace.ArmedAtIsFirst | custom_components/localthings/sensor.py:134-185 | That arming really is the first: an earlier one has a bypass after it |
| SensorTrace.WindowIsUnbroken | custom_components/localthings/sensor.py:134-185 | With a clock that never runs back the held reads between two bypasses are one stretch, shorter than the hold, on one value |
| SensorTrace.ReportsAreDeadband | custom_components/localthings/sensor.py:187-214 | Each report is absent exactly with its value, within the threshold of it, and repeats the last report or is a threshold away from it |
| SensorTrace.RereadChangesNothing | custom_components/localthings/sensor.py:187-214 | Reading the same value again reports and remembers the same |
| SensorTrace.Sensor.ApplySticky | custom_components/localthings/sensor.py:134-185 | The method is one step of the hold |
| SensorTrace.Sensor.ApplyHysteresis | custom_components/localthings/sensor.py:187-214 | The method is one step of the deadband |
| SensorTrace.Sensor.NativeValue | custom_components/localthings/sensor.py:124-132 | The hold first, then the deadband on what it shows |

## Left out

- Sockets, DTLS, TLS, HTTP framing, tokens on the wire, retransmission and the port sweeps: a request is answered, refused, raised or lost.
- Entity platforms, config and options flows, translations, Repairs, diagnostics layout and statistics migration.
- Capability tables, `cook` and the device-type resolver: they are arbitrary functions wherever discovery uses them.
- Thread races inside one `apply` call and cancellation in the middle of a close: `apply` and each piece between two awaits is one step. The refresh task is not modelled.
- Clocks are integers that each step is given; the sweep's notion of a flat board is an input of the poll step; the observe quorum 0.8 is the integer test 5k >= 4n.
- JSON numbers are reals, so an int and the float equal to it are one value, and a boolean never equals a number; equality of maps inside a held value includes their order, which the start-only fields never depend on.
- Case folding goes as far as ASCII, and digits in hrefs are ASCII digits.
- WriteWindows.WrittenValueStands: one settle time for the whole run, as the coordinator has after discovery; the optimistic body is given complete, its merging with cached options, modes and rows left out. Remembering, merging and arming are steps of their own, and a read let in between merging and arming is in the runs but outside this lemma. Writes marked write-only skip every step.
- PushProtocol.Coordinator.PollOnceBlocking: parsing the sweep and the flat read mode are reduced to the outcome a poll is given.
- ObserveManager.Manager.OnNotification: what a debug recording keeps is not modelled, only whether it takes a push for itself.
- LegacyEnvelope.TranslationRoundTrip: asks of each patch the condition PatchReadsBackIff shows exact, and of a comma-joined field that it arrive split; the device-type tables themselves, unit conversion with `clock_write`, `with_cavity_modes`, `with_panel_unit` and `model_settings` are not modelled.
- OvenStart.Appliance.Write: takes the already translated body, without the clock endpoint and the per-endpoint air-conditioner paths; an attempt that ends before its body is due (no session, unlisted sibling, unread type) is one outcome. Default settings shown for a held course are not modelled.
- OvenStart.Appliance.Read: cavity modes and the course's default settings are not shown.
- OvenStart.Appliance.Sweep: the linked resources, the listing and the typing it refreshes are left out.
- Rekey.Registry.RekeyEntry: stated for entity rows none of whose new ids is a stale row's own (UnsettledDependsOnOrder shows that otherwise the listing order decides) and device rows that each name their own identifiers and move only onto rows that stay. Where a row moves onto one that goes the order can decide (ChainDependsOnOrder), and where it holds a moved identifier itself beside another row's the registry can refuse. A registry listing is an arbitrary order of rows.
- Rekey.Registry.RekeyEntities: stated for the same entity rows.
- Rekey.Registry.RekeyDevices: stated for the same device rows.
- Identity.NoRowIsOrphaned: an entry whose host changes is a new run; the MAC and proven id recorded beside the key decide nothing here.
- Discovery.NarrowingIsStable: hrefs of skipped candidates are a set rather than a sorted tuple, and names derived for display are an arbitrary function.
- `enumerate_subdevices` (probing order, time budget and the flat fallback) and the sub-poll cadence: they only decide which candidates and reads there are, and every set of candidates is covered.
- BlockTransfer.Unicast: an exchange with its own retries is one reply, and the endpoint fallback after a plain answer is not followed.
- JsonSafe.WalkEncodes: Base64 and SHA-256 are functions, Base64 an inverse pair; a date, decimal, tag or unknown object is encoded but has no inverse to prove.
- CloudCourse.CoercedIsSound: what Python's `int(text, 16)` accepts is an arbitrary test that case does not change.
