# Verified model of the desktop backend's protocols

This project models, in Dafny, the parts of the desktop application's native backend whose
correctness is spread over several functions, tasks or launches, and proves what they promise.
`dafny verify dfyconfig.toml` checks all of it.

| component | files |
|---|---|
| Native relay session: a socket loop that keeps the relay's subscriptions in line with a declarative set | `RelayClosed`, `RelaySession`, `RelayProtocol`, `RelayPass`, `RelayCoverage`, `RelayRequests`, `RelayResults`, `RelayDiscipline`, `RelaySchedule`, `RelayFence`, `RelayAgreement`, `RelayGenerations`, `RelayOrphans`, `RelayLeases` |
| Identity resolution over whole runs of launches | `Identity`, `IdentityStarts`, `IdentityStore` |
| Civil dates and RFC 3339 text | `Calendar`, `Rfc3339`, `Decimal`, `Text` |
| Persona catalog: paging, then addressable-event heads | `CatalogPaging`, `CatalogFetch`, `CatalogHeads` |
| Webview WebSockets: batched delivery and the teardown gate | `FrameBatch`, `FrameTiming`, `TeardownGate`, `TeardownOutcomes` |
| Boot reconcile of personas and teams | `EventTable`, `EventSync` |
| Sleep assertion timers, microphone tap | `PreventSleep`, `Worklet` |

## How to read it

**The relay session.** `RelaySession` is the code in its own form: the state behind the lock and the
connection are classes, and `Connection.Reconcile` is the pass with its loops and its failing writes.
`RelayProtocol` cuts the same code at its awaits into a transition system in which writers, any number of
finite requests and the socket loop interleave freely; a run is any sequence of enabled steps. `RelayPass` ties the
two together: left undisturbed, the transition system's pass does what `Connection.Reconcile` promises.
`RelayCoverage`, `RelayRequests` and `RelayDiscipline` prove what every run keeps; `RelayResults` says what a finite
request ends with and why, and `RelaySchedule` at which instant a CLOSED subscription is asked for again. `RelayFence` and
`RelayAgreement` put a relay at the other end of the ordered socket and show that a stale CLOSED cannot
make the client hold back, for good, a subscription the relay is running; `RelayGenerations` and `RelayOrphans` say
which ids the two sides can come to disagree on.

Three places where the code does something other than a first reading of its comments suggests:

- The embargo a CLOSED puts on an id is lifted when a departure of that id is *drained*, not when it is
  written, and the departure may be older than the CLOSED. `RequestsWaitTheirTurn` is stated with the drain, and
  `DrainsAnswerDepartures` shows that every drain answers a departure since the drain before it.
- The EOSE arm repairs a disagreement only for an id that is still wanted. A caller that takes a subscription away,
  puts it back on the same socket and takes it away again can leave the relay running it with nothing left to close
  it: the CLOSED of the first generation makes the client forget the second. `OrphanNeedsReopening` shows that only an
  id that left the wanted set and was requested again on the same socket is exposed, `OrphanHappens` that every
  subscription can be, within the caller contract, `OrphanForGood` that it lasts, and `QuietMeansEqual` that for every
  other id a quiet relay runs exactly what the client has open.
- Coverage needs less than the documented contract: one filter per id *within* the wanted set is enough, because a
  changed filter under a reused id is recorded as a departure.

**Identity.** The durable state is the keyring slot, the key file and the migration marker. Each operation takes its
outcome from a script that says what it reported and, independently, what it left behind; past the end of the
script everything fails without effect, which is what a crash looks like to the disk. `IdentityStore` is the
imperative code, each procedure proved equal to its counterpart on values in `Identity`. `IdentityStarts` is the
decision table: for every disk, probe and pattern of outcomes, whether a launch or an import succeeds and as what. The safe states are
exactly those no boot, its keyring load true to its probe, can take the identity from. Four promises hold only under a condition, and each condition
is proved exact: a boot runs as the durable identity unless the keyring's probe finds an entry its load does not
(`RunsAsIdentityIffFaithful`); an import is durable if and only if no other key file is in its way; the key generated
on a first boot is durable unless the keyring's `Ok` was false, because that path does not read back
(`FirstBootDurableIff`); and an interrupted import keeps the old or the new identity unless the keyring held the only
copy, the write destroyed it and the fallback file failed too (`InterruptedImportIff`). `MixedRunKeepsIdentity` and
`LastImportWins` put boots and imports together in one run.

**The catalog.** `CatalogFetch` records every request of a fetch and the page that came back, and says exactly when
the next one is made: after a page with 500 genuine events, one of them new. The paging bound is `500 + 39 * (500 - d)`
events when at most `d < 500` share a second. It is met exactly, by every catalog whose occupied seconds hold `d`
events each, for every `d` that divides 500. A second with 500 events or more is a wall no page passes. Forged events
count against a page, because the transport drops them before the page is counted.

**WebSockets.** `TeardownGate` interleaves connects, tasks, single disconnects and teardowns. A task's last act removes
whatever stands at its id; a connection it displaces loses its only sender and ends, so a teardown misses nothing. A new
connection can be ended that way if and only if its random id is still carried by an unfinished task
(`CutShortIffIdReused`). Frames are lost in one case only, when a task that is slow to stop is aborted with frames
buffered; `RunConnection` says which. `FrameTiming` gives the reason for every delivery, and `TeardownOutcomes` says who
gets in, whom a teardown waits for, and that it can always end.

**Boot reconcile.** The second boot is silent if and only if records that share a coordinate share their content. Persona
coordinates are folded to lower case, so two records differing only in the case of their slug are enough to break it.
A comment on the folding says that leading a name with `a` keeps distinct names distinct. It does not: `_ops` becomes
`a_ops`, the tag of the name `a_ops` (`LeadCollides`). `ShareIff` says exactly which records share a coordinate.

## Model

| member | source | states |
|---|---|---|
| `RelayClosed.ClassIgnoresCaseAndPadding` | app/src-tauri/src/native_relay_client.rs:816-842 | A CLOSED is classified the same whatever its ASCII case and surrounding white space. |
| `RelayClosed.ClassByPrefix` | app/src-tauri/src/native_relay_client.rs:816-842 | Trimmed and lowered, `rate-limited:` limits the rate, eight written-out prefixes are terminal, and everything else may be retried; each if and only if. |
| `RelayClosed.HintIsTheDigits` | app/src-tauri/src/native_relay_client.rs:846-854 | The digits after the first `retry in ` are the hint, and there is none if there are no digits or they exceed 64 bits. |
| `RelayClosed.NoPhraseNoHint` | app/src-tauri/src/native_relay_client.rs:846-854 | A message without the phrase carries no hint. |
| `RelayClosed.HintReadsBack` | app/src-tauri/src/native_relay_client.rs:846-854 | Every number of seconds a relay can write after its first `retry in ` is read back exactly. |
| `RelayClosed.BackoffIsCappedPowerOfTwo` | app/src-tauri/src/native_relay_client.rs:797-801 | For every attempt count the delay is min(2^k, 30) seconds: the clamped shift never shows. |
| `RelaySession.DepartedExactly` | app/src-tauri/src/native_relay_client.rs:271-288 | An id is recorded as gone if and only if a subscription under it is not in the new set. |
| `RelaySession.ViolationsExactly` | app/src-tauri/src/native_relay_client.rs:271-288 | An id is reported as reused if and only if it is wanted again with another filter. |
| `RelaySession.SessionState.ReplaceDesired` | app/src-tauri/src/native_relay_client.rs:271-288 | The new set is installed, exactly the departures are added to `removed`, and the ids reused for another filter are returned in order. |
| `RelaySession.Connection.CloseStale` | app/src-tauri/src/native_relay_client.rs:701-713 | CLOSE goes out for exactly the open ids that are not wanted, in whatever order; a failed write leaves `open` equal to what the relay was told. |
| `RelaySession.Connection.RequestWanted` | app/src-tauri/src/native_relay_client.rs:715-738 | The REQs sent, replayed on a relay that agreed with `open`, give the new `open`; an open id is never a blocked one. |
| `RelaySession.Connection.Reconcile` | app/src-tauri/src/native_relay_client.rs:669-739 | A pass refines a set update: replaying its frames gives the new `open`, even after a failed write, and a completed pass leaves exactly the wanted set minus the blocked ids. |
| `RelaySession.SecondPassIsSilent` | app/src-tauri/src/native_relay_client.rs:669-739 | A pass at an instant when the socket is already in line sends nothing. |
| `RelayPass.UndisturbedPass` | app/src-tauri/src/native_relay_client.rs:669-739 | Whatever order the stale ids come in, the interleaved pass, when nobody interrupts it, ends with the drained retries and the open map that the stale CLOSEs and due REQs of `Reconcile` leave. |
| `RelayCoverage.EveryRunKeepsInv` | app/src-tauri/src/native_relay_client.rs:245-260 | Every state of every interleaving keeps the names apart, has every departure on record, covers what is wanted, and has only current retry entries. |
| `RelayCoverage.NoSubscriptionStranded` | app/src-tauri/src/native_relay_client.rs:362-664 | In every state of every interleaving with a live socket, a wanted subscription is open with its exact filter, still to be sent by the running pass, covered by a wake that is queued or about to be, or held by a scheduled or terminal retry. |
| `RelayCoverage.NoSubscriptionOrphaned` | app/src-tauri/src/native_relay_client.rs:669-713 | Whatever the socket has open is wanted, or about to be CLOSEd by the running pass, or recorded as gone with a pass coming. |
| `RelayCoverage.AtRestInLine` | app/src-tauri/src/native_relay_client.rs:490-664 | With the loop idle and no wake promised, the open set is exactly the wanted set short of what retries hold. |
| `RelayCoverage.DrainLeavesOnlyCurrentRetries` | app/src-tauri/src/native_relay_client.rs:466-489 | Right after the drain every retry entry belongs to a snapshot subscription wanted without a break since the entry was minted, however removes and re-adds coalesced, so a prune of absent ids is unreachable. |
| `RelayRequests.PendingHoldsArrivals` | app/src-tauri/src/native_relay_client.rs:540-565 | A pending request holds exactly the verified events the loop took in for its id, in arrival order, save one just being handed over. |
| `RelayRequests.ReturnedCallLeavesNothing` | app/src-tauri/src/native_relay_client.rs:301-343 | When `fetch_events` has returned, a success holds exactly those events, the id is in neither table, and if it is still open a pass that will CLOSE it is running or promised. |
| `RelayRequests.PendingRequestIsServed` | app/src-tauri/src/native_relay_client.rs:301-334 | No backoff ever holds a pending request back. |
| `RelayRequests.ResultIsFinal` | app/src-tauri/src/native_relay_client.rs:601-631 | A request completes at most once: its result never changes over the rest of the run. |
| `RelayResults.EoseSettles` | app/src-tauri/src/native_relay_client.rs:616-631 | In every run EOSE for a pending request settles it with exactly the verified events taken in for its id, in order. |
| `RelayResults.ClosedSettles` | app/src-tauri/src/native_relay_client.rs:588-614 | CLOSED settles it as failed, with the relay's message. |
| `RelayResults.ResultHasCause` | app/src-tauri/src/native_relay_client.rs:588-631 | Every result came from an EOSE or a CLOSED that met the request pending, and is what that frame settles. |
| `RelayResults.SuccessMeansEose` | app/src-tauri/src/native_relay_client.rs:301-343 | A call returns events only if EOSE came while its request was pending, and then exactly the arrivals before it. |
| `RelayResults.EoseLetsCallReturn` | app/src-tauri/src/native_relay_client.rs:301-343 | After that EOSE the waiting call can take every step to its return, with those events. |
| `RelayResults.DesiredIsLastSet` | app/src-tauri/src/native_relay_client.rs:362-373 | The wanted set is the one last set, whatever came in between. |
| `RelayResults.TransientIsRegistered` | app/src-tauri/src/native_relay_client.rs:301-334 | A finite request stands in the wanted set only with the filter it was registered with. |
| `RelayDiscipline.RequestsWaitTheirTurn` | app/src-tauri/src/native_relay_client.rs:588-651 | After a terminal CLOSED no REQ, and after the k-th consecutive other one no REQ before min(2^(k-1), 30) seconds, or when rate-limited the hint or else ten seconds if longer, unless an EOSE, a drained departure or a new socket came in between. |
| `RelayDiscipline.DrainsAnswerDepartures` | app/src-tauri/src/native_relay_client.rs:271-288 | A drain names only ids that left the wanted set since the drain before it. |
| `RelaySchedule.ClosedIsScheduled` | app/src-tauri/src/native_relay_client.rs:588-614 | A CLOSED that is not terminal always leaves a time to reopen, and a terminal one none. |
| `RelaySchedule.WaitIsExact` | app/src-tauri/src/native_relay_client.rs:754-801 | In every run an entry that waits, waits for exactly its id's last CLOSED plus min(2^(k-1), 30) seconds for the k-th in a row, or the hint or ten seconds if it was rate-limited and that is longer. |
| `RelaySchedule.TerminalHasCause` | app/src-tauri/src/native_relay_client.rs:760-772 | An entry is terminal only because a terminal CLOSED came for its id, which has had its entry ever since. |
| `RelaySchedule.TimerReopens` | app/src-tauri/src/native_relay_client.rs:499-527 | From the instant the wait is over the timer may fire, and the pass it starts, left undisturbed, opens the subscription with its filter. |
| `RelaySchedule.PassReopens` | app/src-tauri/src/native_relay_client.rs:669-739 | So does every pass, however it was started, for every wanted subscription that nothing holds back. |
| `RelaySchedule.TimerNeverSpins` | app/src-tauri/src/native_relay_client.rs:499-527 | In every run two timer firings lie at different instants: a firing spends what was due, and a new CLOSED always waits. |
| `RelayFence.RelayKeepsClosedFenced` | app/src-tauri/src/native_relay_client.rs:632-651 | On an ordered socket, whatever the relay runs after a CLOSED is announced by an EOSE behind that CLOSED; every relay step keeps this. |
| `RelayFence.HearingClosedKeepsInformed` | app/src-tauri/src/native_relay_client.rs:588-614 | Forgetting an id on CLOSED, and holding it back, is sound: if it runs after all, the EOSE that frees it is still to come. |
| `RelayFence.HearingEoseKeepsInformed` | app/src-tauri/src/native_relay_client.rs:616-651 | Hearing EOSE frees the id, and what the client knows of every other id stays true. |
| `RelayAgreement.EveryJointRunKeepsInv` | app/src-tauri/src/native_relay_client.rs:457-664 | Over every joint run of client and relay, what the client has open will run or its CLOSED is on the way, and what it holds back does not run or its EOSE is on the way. |
| `RelayAgreement.NoBlackhole` | app/src-tauri/src/native_relay_client.rs:632-651 | A wanted subscription the relay runs, with nothing in flight about it, is never stuck behind a retry: it is open on both sides with its filter, or the loop is on its way to it. |
| `RelayAgreement.QuietMeansAgreed` | app/src-tauri/src/native_relay_client.rs:632-651 | At rest on a quiet socket, a wanted subscription runs at the relay if and only if the client has it open, with the wanted filter on both sides, and nothing is open that the relay does not run. |
| `RelayGenerations.StaleClosedNeedsReopening` | app/src-tauri/src/native_relay_client.rs:588-610 | Every CLOSED that makes the client forget an id is about what the relay runs under it, unless the caller took the id away and it was requested again on the same socket. |
| `RelayGenerations.QuietMeansEqual` | app/src-tauri/src/native_relay_client.rs:588-651 | For every id not requested again after leaving, at rest on a quiet socket the relay runs it if and only if the client has it open, with the same filter, wanted ids and unwanted alike. |
| `RelayOrphans.OrphanNeedsReopening` | app/src-tauri/src/native_relay_client.rs:632-651 | Only an id that left the wanted set and was requested again on the same socket can be left running at the relay out of the client's reach. |
| `RelayOrphans.OrphanForGood` | app/src-tauri/src/native_relay_client.rs:701-713 | Such an orphan lasts until the caller wants the id again, the relay gives it up or the socket ends: no client step sends CLOSE for it. |
| `RelayOrphans.OrphanHappens` | app/src-tauri/src/native_relay_client.rs:588-651 | For every subscription a run within the caller contract ends at rest on a quiet socket with the relay running it, though nobody wants it and the client does not have it open. |
| `RelayLeases.NativeRelayClient.EnsureSession` | app/src-tauri/src/native_relay_client.rs:139-154 | The session of the scope is installed; only an installed session of another scope is shut down. |
| `RelayLeases.NativeRelayClient.Lend` | app/src-tauri/src/native_relay_client.rs:179-204 | A finite request gets a live session of its scope, shares the installed one if the scopes match, and never cancels or replaces anything. |
| `RelayLeases.NativeRelayClient.DropLease` | app/src-tauri/src/native_relay_client.rs:126-132 | Dropping ends a private session and no other. |
| `RelayLeases.Serve` | app/src-tauri/src/native_relay_client.rs:126-204 | Over every order of archive starts, requests and drops, the live sessions are exactly the installed one and those of undropped private leases, and no two leases share a private session. |
| `Identity.BootKeepsIdentity` | app/src-tauri/src/app_state.rs:442-635 | One boot from a safe state, its load true to its probe, keeps the identity and its safety wherever it stops; a boot that returns without recovery returns that identity and names a backend that holds it. |
| `Identity.RunsAsIdentityIffFaithful` | app/src-tauri/src/app_state.rs:552-558 | A boot without recovery from a safe state runs as the durable identity if and only if its load agreed with its probe. |
| `Identity.RunKeepsIdentity` | app/src-tauri/src/app_state.rs:442-767 | The same over every run of such boots, failure patterns and crashes. |
| `Identity.UnsafeRotates` | app/src-tauri/src/app_state.rs:691-714 | Every state that has an identity and is not safe is rotated by one boot with an unreachable keyring. |
| `Identity.SafeIffNoBootRotates` | app/src-tauri/src/app_state.rs:442-635 | Safe is exact: a state keeps its identity under every boot whose load is true to its probe if and only if it is safe. |
| `Identity.LostStaysLost` | app/src-tauri/src/app_state.rs:644-687 | A migrated key that is gone is never replaced: no run of such boots persists another or runs without recovery. |
| `Identity.FirstBootDurableIff` | app/src-tauri/src/app_state.rs:908-954 | A first boot that succeeds leaves its key durable and safe if and only if the keyring did not say `Ok` while keeping nothing, with the marker then written. |
| `Identity.UnverifiedStoreLosesKey` | app/src-tauri/src/app_state.rs:908-930 | Such a false `Ok`, which this path does not read back, ends in a lost identity. |
| `Identity.ImportIsBacked` | app/src-tauri/src/app_state.rs:847-864 | A successful import names a backend that really holds the key, whatever was on disk and whatever failed. |
| `Identity.ImportDurableIffNoRival` | app/src-tauri/src/app_state.rs:777-864 | Import is durable and safe under every failure pattern if and only if no key file with another content stands beforehand. |
| `Identity.ImportedIdentityStays` | app/src-tauri/src/app_state.rs:777-864 | After such an import every later boot without recovery, its load true to its probe, runs as the imported identity. |
| `Identity.InterruptedImportIff` | app/src-tauri/src/app_state.rs:777-864 | Stopped anywhere, an import from a safe state leaves the old or the new identity, safe, if and only if a file held the key, or the keyring write destroyed nothing, or the fallback file was written. |
| `Identity.GarbledImportLosesKey` | app/src-tauri/src/app_state.rs:777-864 | The failing case: a garbled keyring write with no file to fall back on loses the key. |
| `Identity.MixedRunKeepsIdentity` | app/src-tauri/src/app_state.rs:442-864 | Over every run of boots and imports the state stays safe and the identity is that of the last import that succeeded with no rival file, or one tried since, else the one it began with. |
| `Identity.LastImportWins` | app/src-tauri/src/app_state.rs:442-864 | If every import of the run succeeded with no rival file, the identity is the last one imported. |
| `IdentityStarts.LaunchStartsIff` | app/src-tauri/src/app_state.rs:442-635 | For every disk, probe and pattern of outcomes: a launch succeeds if and only if the operations its case needs went through. |
| `IdentityStarts.LaunchIs` | app/src-tauri/src/app_state.rs:442-635 | And then it runs as the key, the recovery and the backend the written-out table gives. |
| `IdentityStarts.SafeLaunchFailsIff` | app/src-tauri/src/app_state.rs:442-635 | From a safe disk with a true load, a launch fails if and only if the load failed or the store or read-back of a needed migration did. |
| `IdentityStarts.SafeLaunchIs` | app/src-tauri/src/app_state.rs:442-635 | Otherwise it runs as the durable identity with a backend that holds it, or under a new key reported as locked out when the keyring is unreachable and holds the only copy. |
| `IdentityStarts.WorkingLaunchSettles` | app/src-tauri/src/app_state.rs:442-635 | When the keyring answers and every operation works, a launch from a safe disk returns the identity from the keyring, with the marker set and no file left. |
| `IdentityStarts.WorkingFirstLaunch` | app/src-tauri/src/app_state.rs:908-954 | The first launch of all then keeps its new key in the keyring, marked. |
| `IdentityStarts.LaunchHealsMarker` | app/src-tauri/src/app_state.rs:520-540 | A key only the keyring holds, unmarked and so not safe, is made safe by the next launch that can write the marker. |
| `IdentityStarts.ImportIs` | app/src-tauri/src/app_state.rs:847-864 | An import ends in the keyring if and only if it was stored, read back and vouched for, else in the file if that could be written, else it fails. |
| `IdentityStarts.WorkingImportSettles` | app/src-tauri/src/app_state.rs:847-864 | When every operation works the import is in the keyring, marked, with no file left. |
| `IdentityStore.Store.Migrate` | app/src-tauri/src/app_state.rs:719-767 | With a readable file the identity is kept and safe, and success means the keyring holds it; with none nothing changes. |
| `IdentityStore.Store.Persist` | app/src-tauri/src/app_state.rs:777-841 | Success means the keyring holds the key, and with no rival file that it is durable and safe. |
| `IdentityStore.Store.Recover` | app/src-tauri/src/app_state.rs:644-687 | With a readable file the identity is kept and returned; with none and the marker set, the key is reported lost and the file left alone. |
| `IdentityStore.Store.ResolveIdentity` | app/src-tauri/src/app_state.rs:442-635 | Succeeds if and only if the operations its case needs went through, with the result of the table; from a safe store with a true load, the store still stands for the same identity, and a result without recovery is that identity with a backend that holds it. |
| `IdentityStore.Store.ImportIdentity` | app/src-tauri/src/app_state.rs:847-864 | Succeeds with the keyring or the file exactly as the outcomes decide, and the backend it names holds the key, durable and safe with no rival file; whatever happens, a spared safe store stands for the old key or the new. |
| `IdentityStore.LiveThrough` | app/src-tauri/src/app_state.rs:442-635 | Running launch after launch, each succeeds if and only if its disk and outcomes say so; from a safe disk every launch without recovery returns the same identity and the disk stays safe. |
| `Calendar.DaysToYmdCounts` | app/src-tauri/src/nostr_convert.rs:575-587 | For every day count, negative included, the result is a valid date whose independently defined day number is that count. |
| `Calendar.YmdOfDayNumber` | app/src-tauri/src/nostr_convert.rs:575-587 | It is the inverse of the day number on every valid date. |
| `Calendar.DayAfterDay` | app/src-tauri/src/nostr_convert.rs:575-587 | Day 0 is 1970-01-01 and each next day is the calendar successor, leap rules included. |
| `Calendar.DaysToYmdKeepsOrder` | app/src-tauri/src/nostr_convert.rs:575-587 | Later days are later dates. |
| `Rfc3339.PrintedInstantReadsBack` | app/src-tauri/src/nostr_convert.rs:555-571 | Every second up to the end of year 9999 is read back exactly from the printed text. |
| `Rfc3339.PrintingKeepsOrder` | app/src-tauri/src/nostr_convert.rs:555-571 | Up to the same bound, earlier seconds print lexicographically earlier text. |
| `Rfc3339.OrderStopsAtYear10000` | app/src-tauri/src/nostr_convert.rs:555-571 | The bound is sharp. |
| `CatalogHeads.ReadIffOnlyOne` | app/src-tauri/src/persona_catalog.rs:190-214 | A tag is read if and only if exactly one qualifies, and then it is that one's value. |
| `CatalogHeads.PublicationsFromVerifiedEvents` | app/src-tauri/src/persona_catalog.rs:144-188 | For events with distinct ids, an entry is shown if and only if it is that of an event of kind 30175 whose only `d` tag is the entry's non-empty source, whose only two-element `shared` tag says `true`, which can be parsed, and which is the newest its author offers under that `d`, the lowest id among equals; newest first. |
| `CatalogHeads.OneEntryPerCoordinate` | app/src-tauri/src/persona_catalog.rs:144-188 | No coordinate is shown twice. |
| `CatalogHeads.OlderNeverSurfaces` | app/src-tauri/src/persona_catalog.rs:152-175 | An older event is never shown behind a newer one, be that one unshared or malformed. |
| `CatalogHeads.OrderDoesNotMatter` | app/src-tauri/src/persona_catalog.rs:144-188 | The answer is the same for every order of the input. |
| `CatalogFetch.MergeVerifiedPage` | app/src-tauri/src/persona_catalog.rs:121-142 | The page is laid over what is in hand; paging goes on exactly after a full page that added something, from its oldest second. |
| `CatalogPaging.CursorMovesBack` | app/src-tauri/src/persona_catalog.rs:73-101 | On every full page the cursor moves strictly back, unless a whole page is tied at it. |
| `CatalogPaging.ReachIsClosed` | app/src-tauri/src/persona_catalog.rs:73-101 | The reach of n pages is 500 + (n - 1) * (500 - d). |
| `CatalogPaging.FullPageEndsWhole` | app/src-tauri/src/persona_catalog.rs:73-101 | If every occupied second holds d events and d divides 500, a full page ends with a whole second. |
| `CatalogPaging.FullPageAddsTheRest` | app/src-tauri/src/persona_catalog.rs:73-101 | A later full page then adds exactly 500 - d events. |
| `CatalogPaging.WallHolds` | app/src-tauri/src/persona_catalog.rs:73-101 | Past a second that holds 500 events no page reaches. |
| `CatalogFetch.CollectCatalog` | app/src-tauri/src/persona_catalog.rs:73-101 | The requests made are exactly those a fruitful page leads to, at most 40; against a stable newest-first relay it ends with nothing but the catalog's events, all of them within the bound, exactly the bound's worth with evenly filled seconds, and nothing behind a wall. |
| `CatalogFetch.SecondPageIffGenuine` | app/src-tauri/src/persona_catalog.rs:84-101 | A first page leads to a second one if and only if at least 500 of its events are genuine. |
| `CatalogFetch.FetchPersonaCatalog` | app/src-tauri/src/persona_catalog.rs:65-113 | The command fails if and only if a page it asked for failed, the keys were unavailable or the scope changed; a success is exactly the shared, readable heads, in terms of the tags, of the genuine events that arrived, which within the bound are those of the relay's catalog. |
| `FrameBatch.Batch.ProjectedLen` | app/src-tauri/src/native_websocket_batch.rs:41-44 | The projected length is the length of the array that would be delivered. |
| `FrameBatch.Batch.Push` | app/src-tauri/src/native_websocket_batch.rs:46-51 | The frame is last, the tracked length stays exact, and the first frame alone sets the deadline. |
| `FrameBatch.Batch.Flush` | app/src-tauri/src/native_websocket_batch.rs:61-71 | Exactly the buffered frames are delivered, none if there are none, and the batch is empty. |
| `FrameBatch.Handle` | app/src-tauri/src/native_websocket.rs:275-332 | One turn of `select!` on the batch is the turn the next rows are about. |
| `FrameBatch.TurnConserves` | app/src-tauri/src/native_websocket.rs:275-332 | A turn conserves frames and their order, keeps the ceiling, and leaves nothing buffered after an urgent or terminal frame. |
| `FrameBatch.ChallengeIff` | app/src-tauri/src/native_websocket_batch.rs:83-90 | A payload is urgent if and only if it is white space, `[`, white space, `"AUTH"` and anything after. |
| `FrameTiming.DeadlineIsOldest` | app/src-tauri/src/native_websocket_batch.rs:46-59 | After every input the buffer falls due 8 ms after its oldest frame arrived. |
| `FrameTiming.DeliveredForCause` | app/src-tauri/src/native_websocket.rs:275-332 | Every delivery before the exit goes out with an input that is its cause: its last frame presses, or the next frame does not fit behind it, or the window of its first frame has elapsed. |
| `FrameTiming.PressingEmpties` | app/src-tauri/src/native_websocket.rs:301-332 | After an end of the socket or a challenge nothing is held. |
| `FrameTiming.TimerEmpties` | app/src-tauri/src/native_websocket.rs:288-288 | Nor after the timer, once the window of the oldest held frame has elapsed. |
| `FrameTiming.LoneFrameWaits` | app/src-tauri/src/native_websocket.rs:315-330 | Any other frame that finds the buffer empty is not sent alone but opens a buffer and a window. |
| `FrameBatch.RunConnection` | app/src-tauri/src/native_websocket.rs:265-336 | For every sequence of inputs the deliveries and then the lost frames are the received frames in order, and only an abort loses any, those still buffered; any delivery of two or more frames is at most 7680 bytes; an urgent or terminal frame is out before the next input is read; the loop ends at the first cancel, abort, closed channel, failed send or terminal frame. |
| `FrameBatch.DeliveryReadsBack` | app/src-tauri/src/native_websocket_batch.rs:61-71 | Splitting a delivered array at its top-level commas gives back its frames, whatever commas, quotes and brackets they carry inside. |
| `TeardownGate.RegisteredIsCurrent` | app/src-tauri/src/native_websocket.rs:130-179 | In every interleaving, whenever the gate is free every registered connection carries the current, uncancelled token. |
| `TeardownGate.RegistersOnlyCurrent` | app/src-tauri/src/native_websocket.rs:145-164 | No connect that took its token before a teardown registers after it, and registration never overwrites an entry. |
| `TeardownGate.TeardownMissesNothing` | app/src-tauri/src/native_websocket.rs:249-263 | In every run, whenever the gate is free, every socket is over, cancelled, about to be, without its only sender, or registered under the current token; so none older than the last teardown runs on unasked. |
| `TeardownGate.CutShortIffIdReused` | app/src-tauri/src/native_websocket.rs:150-164 | A new connection can lose its sender to another task's removal if and only if its id is still carried by an unfinished task. |
| `TeardownOutcomes.ConnectsIffCurrent` | app/src-tauri/src/native_websocket.rs:130-179 | In every run a connect whose handshake is done and who finds the gate free registers under any free id if and only if no teardown came since it took its token; otherwise it is turned away and nothing else changes. |
| `TeardownOutcomes.OneSocketPerSuccess` | app/src-tauri/src/native_websocket.rs:130-179 | Over every run sockets and successful connects correspond one to one. |
| `TeardownOutcomes.FinishedIsUnregistered` | app/src-tauri/src/native_websocket.rs:335-335 | In every run a finished socket is out of the table, however it finished. |
| `TeardownOutcomes.TeardownWaitsForAll` | app/src-tauri/src/native_websocket.rs:249-263 | When a teardown lets go of the gate, every socket registered when it drained the table is over. |
| `TeardownOutcomes.TeardownCanEnd` | app/src-tauri/src/native_websocket.rs:110-121 | A teardown that waits is never stuck: it can finish, or a socket it waits for can be cancelled or aborted. |
| `EventTable.NormalizedIsSlug` | app/src-tauri/src/managed_agents/persona_events.rs:89-111 | Every name is brought into the relay's slug grammar, a name already in it is unchanged, and twice is once. |
| `EventTable.TagIsSpelled` | app/src-tauri/src/managed_agents/persona_events.rs:89-111 | A name has one tag, spelled by position: an `a` in front unless it starts with a letter or digit, capitals lowered, other characters outside the grammar replaced by `-`, cut at 64. |
| `EventTable.ShareIff` | app/src-tauri/src/managed_agents/persona_events.rs:65-111 | Two records share a coordinate if and only if they are teams of one id, or personas whose slugs, or ids where there is none, spell the same tag. |
| `EventTable.LeadCollides` | app/src-tauri/src/managed_agents/persona_events.rs:82-84 | The failing case of a comment: a name that needs the leading `a` shares its tag with the name that has it. |
| `EventTable.RunLeavesRow` | app/src-tauri/src/event_sync.rs:158-221 | Each coordinate's row after a run is what the records that claim it make of it one after another: new content is written, pending, dated exactly by the clock or one past the head if that is later, as shared as before, and the rest is untouched. |
| `EventTable.OwnRowIsExact` | app/src-tauri/src/event_sync.rs:158-221 | A record with a coordinate to itself has exactly its own turn's row there when the run is over. |
| `EventTable.TeamsKeepTheirRows` | app/src-tauri/src/event_sync.rs:298-346 | Every team whose id is its own keeps a row of its own under that id, with its content. |
| `EventTable.RetainKeepsLatest` | app/src-tauri/src/managed_agents/retention.rs:210-233 | Of two events for a coordinate the table keeps the later-dated, in whichever order they arrive, an event as old as the head replaces it, and no other row is touched. |
| `EventSync.RetentionStore.Migrate` | app/src-tauri/src/event_sync.rs:158-221 | The loop applies the records in order, counts its writes and leaves at every coordinate the row the records that claim it make; a record that cannot be built or kept stops it with everything before it in place. |
| `EventSync.RecordsLand` | app/src-tauri/src/event_sync.rs:298-346 | After a run every named coordinate holds the content last asked for it, future-dated heads included, and every other row is untouched. |
| `EventSync.RowsSupersede` | app/src-tauri/src/event_sync.rs:168-217 | A row is untouched, or replaced by one that is pending, strictly later, and as shared as the row it replaces. |
| `EventSync.CountIsRowsReplaced` | app/src-tauri/src/event_sync.rs:158-221 | With distinct d-tags the reported count is the number of rows replaced. |
| `EventSync.SecondRunSilentIffAgree` | app/src-tauri/src/event_sync.rs:191-200 | A second run reports 0 and changes nothing if and only if records sharing a coordinate share their content. |
| `EventSync.CaseFoldedSlugsDisagree` | app/src-tauri/src/managed_agents/persona_events.rs:89-111 | The failing case: personas with slugs `Ops` and `ops` and different contents are republished on every boot. |
| `EventSync.InterruptedRunRecovers` | app/src-tauri/src/event_sync.rs:158-221 | A run stopped part-way does not change the contents a later complete run arrives at. |
| `PreventSleep.PreventSleepState.ExpireIfCurrent` | app/src-tauri/src/prevent_sleep.rs:72-97 | The assertion is let go, and the renderer told, only for a timer of the current generation. |
| `PreventSleep.PreventSleepState.AcquireAssertion` | app/src-tauri/src/prevent_sleep.rs:101-166 | A held assertion gets a new timer; a new one is taken only if the system grants it; a refusal changes nothing. |
| `PreventSleep.ReleaseLeavesNothing` | app/src-tauri/src/prevent_sleep.rs:169-191 | After a release nothing is held, a held assertion has been let go, and short of a wrap no timer that may still fire is current. |
| `PreventSleep.EachReleasedOnce` | app/src-tauri/src/prevent_sleep.rs:72-191 | Over every run, wrapped generations included, each assertion is held or has been released exactly once. |
| `PreventSleep.HeldHasOneTimer` | app/src-tauri/src/prevent_sleep.rs:50-191 | Short of 2^64 generation changes, exactly one current timer is outstanding while an assertion is held, and none otherwise, though aborted timers may still fire. |
| `PreventSleep.RunsAsIntended` | app/src-tauri/src/prevent_sleep.rs:50-191 | Short of a wrap the generations carry out a model without them: every activity starts the time over, and the assertion ends with a release or with the last timer started. |
| `PreventSleep.StaleIsInertIffNoWrap` | app/src-tauri/src/prevent_sleep.rs:72-80 | A superseded timer that fires changes nothing if and only if the generation changes since it was armed are not a multiple of 2^64. |
| `Worklet.SttTapProcessor.Process` | app/public/worklet.js:34-64 | A block joins the buffered samples, a full frame is posted, the rest is kept; the call throws exactly when the rest exceeds a frame. |
| `Worklet.OnlyCut` | app/public/worklet.js:34-64 | There is only one way to cut a stream into 960-sample frames with less than a frame over. |
| `Worklet.Tap` | app/public/worklet.js:19-64 | For blocks of any size, up to the first call that throws, the messages are frames of the stretches of talking in order and the present stretch is its frames and the buffer, at most 960 samples; with blocks of at most 960 samples no call throws and the cut is exact. |

## Left out

- Cryptography and codecs: signatures, key parsing, JSON and URL handling are uninterpreted; an event is genuine or not, a record carries its serialized content.
- `parse_agent` and avatar checks of the catalog are a parameter; any parser will do.
- Real time, scheduling fairness and liveness: clocks are parameters or explicit steps, and the claims are safety, what holds at rest, and that a step is open, never that it is taken in time. Overflow of instants and of 64-bit timestamps is not modelled.
- A sender that a pending `send` still holds for up to 20 seconds keeps a displaced connection's channel open that long; the model counts the connection as stopped at once.
- The outcome of a channel send to the renderer is ignored, as in the source.
- The paging bound for tie counts that do not divide 500 is not shown to be met.
- Events of a finite request that arrive after its EOSE: they may reach the archive channel, and nothing is claimed about it.
- The archive channel's contents and backpressure, AUTH and reconnect backoff of the relay session.
- Relays that answer about subscriptions they do not run: in the joint model the relay follows NIP-01, section "Communication between clients and relays".
- Identity reads of the file and the marker are taken to be faithful, and quarantining a corrupt file is one removal; the build without a keyring, the environment override and file permissions are not modelled.
- EventSync.RetentionStore.Migrate: one loop stands for the persona and the team loop, which differ only in the coordinate and in carrying over the share flag; reading the record files and the SQLite layer below the upsert are not modelled.
- PreventSleep.PreventSleepState.AcquireAssertion: models the macOS build; elsewhere no assertion is ever created.
- Window, menu, notification, media proxy, deep link, terminal and huddle code, migrations of the data directory, and the web front end: plumbing over the operating system, or members a single branch settles.
