# Offline-capable PIN payment controller, modelled in Dafny

The payment screen of this application is one React component,
`BiometricAuth`. This project models its logic. It has four parts:

- **Connectivity classifier.** It turns the browser's `navigator.onLine` flag
  and the outcome of one network probe into `online`, `low` or `offline`.
- **PIN panel.** Its parts:
  - three input boxes that accept at most six digits;
  - a submit that compares the typed PIN with the stored one after
    `parseInt`;
  - a retry counter that locks the panel at five failures;
  - a 20-second lockout countdown;
  - PIN change, cancel and "Clear Error".
- **Transaction store and mirror.** The store stands for the IndexedDB object
  store: a map keyed by record id. The mirror stands for the
  `pendingTransactions` list that is kept in browser storage.
- **Payment lifecycle.** A successful PIN check creates a record. The record
  is completed when online and pending otherwise. It is saved
  (insert-or-merge by id) and added to the list for its status. A sync turns
  every pending record into a completed one. It puts each record back into
  the store, rewrites the matching mirror entries, empties the pending list
  and appends the batch to the completed list.

Modules:

- `Wrappers` (`wrappers.dfy`): `Option`.
- `Connectivity` (`connectivity.dfy`): the classifier, as a pure function.
- `PinPolicy` (`pin_policy.dfy`):
  - the input filter;
  - a model of `parseInt(s, 10)` and the submit comparison;
  - the retry/lockout guard as pure functions over `(retryCount, isLocked,
    lockoutTime)`, with lemmas about runs of failures and of countdown ticks.
- `KeyOrder` (`key_order.dfy`): the ascending key order in which `getAll`
  returns the store's records.
- `Transactions` (`transactions.dfy`): the record type and the pure part of
  persistence:
  - the record `saveTransaction` writes;
  - the replace-or-append of the mirror;
  - the status split of `loadTransactions`;
  - the records a sync writes and the store after the sync's put loop.
- `Controller` (`controller.dfy`): the class `BiometricAuth`, with the
  component's state as fields and one method per event handler, effect or
  timer callback.
  - Every pending timer is a field: the zero-delay auto-submit, the 500 ms
    comparison, and the 2 s dismiss after a payment. Each callback is a
    method that may run only while its timer is pending.
  - The 2 s processing delay is the precondition
    `transactionStatus == Processing` of `TransactionSuccess`.
  - The in-place list update of `updateLocalStorage` and the `put` loop of
    the sync are imperative loops and updates. Each is proved against the
    pure function that specifies it.

The class invariant `Valid()` says:

- every PIN box holds at most six digits;
- the countdown lies in 1..20;
- the store keeps every record under its own id;
- every stored record satisfies the record invariant: a completion time
  exactly on completed records, and no sync time on pending ones;
- each React list holds only records of its own status.

Behaviour the model keeps as the code has it:

- **Full-override merge.** Re-saving an existing id takes every field from
  the incoming record. Only the trace is kept, extended by an "Updated" line.
  The literal built by `handleTransactionSuccess` carries every key, with
  `undefined` for absent times, so object spread overrides all fields: an
  incoming `undefined` overwrites the stored value.
- **Auto-submit in change mode.** The new-PIN box uses the same change
  handler as payment entry. Typing the sixth digit of a new PIN in change
  mode therefore schedules the payment comparison against the stored PIN
  (`PinChange` then `AutoSubmitTimeout`). A mismatch counts a failed attempt.
- **Numeric comparison on submit.** The submit compares `parseInt` values,
  while the PIN change compares strings. For two six-digit PINs the two
  agree (`SixDigitPinsMatchExactly`). A stored PIN that did not pass the
  filter can be matched by a different entry
  (`NumericMatchIgnoresLeadingZeros`).
- **Stale pending list.** The sync reads the React pending list, not the
  store. The store is only rewritten for the records in that list.

## Model

| member | source | states |
|---|---|---|
| Connectivity.Classify | app/components/BiometricAuth.tsx:59-91 | offline when the browser reports offline; a failed probe gives low exactly when the second `navigator.onLine` read is true, offline otherwise; an answered probe gives low exactly when latency exceeds 1000 ms and is never offline; online exactly when the browser is online and the probe answered within 1000 ms |
| PinPolicy.DigitPrefix | app/components/BiometricAuth.tsx:524-525 | the digits `parseInt` reads: a prefix of the input, all digits, followed by a non-digit or the end |
| PinPolicy.ParseIntOfDigits | app/components/BiometricAuth.tsx:524-525 | a non-empty digit string parses to the decimal number it denotes |
| PinPolicy.DigitsValueInjective | app/components/BiometricAuth.tsx:524-532 | two digit strings of equal length that denote the same number are the same string |
| PinPolicy.SixDigitPinsMatchExactly | app/components/BiometricAuth.tsx:524-532 | for two six-digit PINs, the numeric submit comparison holds if and only if the strings are equal (the comparison the PIN change makes at :445) |
| PinPolicy.NumericMatchIgnoresLeadingZeros | app/components/BiometricAuth.tsx:524-532 | the entry "012345" matches the stored PIN "12345" although the strings differ |
| PinPolicy.AcceptsPinInput | app/components/BiometricAuth.tsx:557-585 | the filter of the three PIN boxes: at most six characters, all decimal digits (its use is stated by `PinChange`, `ConfirmPinChange` and `CurrentPinChange`) |
| PinPolicy.ParseInt | app/components/BiometricAuth.tsx:524-525 | `parseInt(s, 10)`: leading white space and one sign are skipped, the longest digit prefix is read, no digit gives NaN (stated by `ParseIntOfDigits` and `DigitPrefix`) |
| PinPolicy.Capture | app/components/BiometricAuth.tsx:524-525 | both PINs parsed as the submit captures them, an empty stored PIN reading as "0" |
| PinPolicy.PinsMatch | app/components/BiometricAuth.tsx:524-532 | `enteredPinInt === storedPinInt` on the captured values, NaN matching nothing (stated by `SixDigitPinsMatchExactly` and `NumericMatchIgnoresLeadingZeros`) |
| PinPolicy.AfterMismatch | app/components/BiometricAuth.tsx:543-547 | a failure adds one to the counter, keeps the countdown, and leaves the panel locked exactly when it was locked or the new count reaches 5 |
| PinPolicy.MismatchError | app/components/BiometricAuth.tsx:543-550 | the banner is the wait (with the countdown as it stands) exactly when the new count reaches 5; otherwise it reports 5 minus the new count attempts left, at least one |
| PinPolicy.AfterMatch | app/components/BiometricAuth.tsx:532-534 | a match zeroes the counter and keeps the lock and the countdown |
| PinPolicy.LockoutEffect | app/components/BiometricAuth.tsx:406-418 | at a countdown of zero the guard returns to the fresh state (unlocked, no failures, 20 seconds); with time left it is unchanged |
| PinPolicy.AfterTick | app/components/BiometricAuth.tsx:406-418 | a lock with more than one second left loses one second; a lock on its last second, or a countdown at zero, returns to the fresh state; an unlocked guard with time left is unchanged |
| PinPolicy.ConsecutiveMismatches | app/components/BiometricAuth.tsx:532-551 | from no failures and unlocked, n failed comparisons leave the count at n and lock exactly when n >= 5; the countdown is unchanged; the n-th failure reports 5 - n attempts left, or the wait once the count reaches 5 |
| PinPolicy.LockoutCountdown | app/components/BiometricAuth.tsx:406-418 | a lock with t seconds left counts down by one per tick and stays locked for t - 1 ticks; the t-th tick unlocks, zeroes the counter and restores 20 seconds |
| PinPolicy.FiveWrongPinsLockForTwentySeconds | app/components/BiometricAuth.tsx:406-551 | "000000" does not match the default PIN; five such failures lock the panel with count 5 and 20 seconds, the fifth reporting a 20-second wait; after 19 ticks the panel is still locked, after 20 it is back to the fresh state |
| KeyOrder.Below | app/components/BiometricAuth.tsx:145-147 | the key comparison behind the order of `getAll`: irreflexive, transitive and total on different keys (stated by `BelowIrreflexive`, `BelowTransitive`, `BelowTotal`) |
| KeyOrder.SortedKeys | app/components/BiometricAuth.tsx:145-147 | the key sequence `getAll` visits: every key of the store exactly once, strictly ascending |
| KeyOrder.LeastExists | app/components/BiometricAuth.tsx:145-147 | every non-empty key set has a least key, so the ascending order is defined |
| Transactions.NewTransaction | app/components/BiometricAuth.tsx:466-475 | the new record is completed, with completion and sync times both set to `now`, exactly when the network status is online; otherwise it is pending with neither set; the amount is the given one, or 100 when absent or zero; the record satisfies the record invariant |
| Transactions.SaveEffect | app/components/BiometricAuth.tsx:163-218 | a save adds at most the key `t.id`; afterwards exactly one key holds a record with that id; every other record is unchanged; the stored record equals `t` except for its trace; an existing trace is a prefix of the new one; both store invariants are kept |
| Transactions.SavedRecord | app/components/BiometricAuth.tsx:172-193 | the stored record equals the incoming one except for its trace, which is always present; an existing trace is a prefix of the new one; the record invariant is kept |
| Transactions.SaveAgainKeepsRecord | app/components/BiometricAuth.tsx:184-193 | saving the same record twice adds no key and changes nothing but the trace, which only grows |
| Transactions.FindIndex | app/components/BiometricAuth.tsx:223 | the first position holding the id, or -1 exactly when no entry has it |
| Transactions.FindById | app/components/BiometricAuth.tsx:279 | the first record with the id, present exactly when some entry has it |
| Transactions.MirrorUpdate | app/components/BiometricAuth.tsx:221-233 | with the id present the length is kept, otherwise the record is appended; every entry other than the first one with the id is unchanged; afterwards the first entry with the id is the record |
| Transactions.MirrorUpdateIdempotent | app/components/BiometricAuth.tsx:221-233 | writing the same record to the mirror twice gives the same mirror as writing it once |
| Transactions.GetAll | app/components/BiometricAuth.tsx:145-149 | `getAll` returns exactly the store's records, one per key, in ascending id order |
| Transactions.PendingOf | app/components/BiometricAuth.tsx:150 | the pending list `loadTransactions` shows (stated by `LoadSplitsByStatus`) |
| Transactions.CompletedOf | app/components/BiometricAuth.tsx:151 | the completed list `loadTransactions` shows (stated by `LoadSplitsByStatus`) |
| Transactions.FilterStatus | app/components/BiometricAuth.tsx:150-151 | a record is kept exactly when it is in the input and has the status; the result is no longer than the input |
| Transactions.FilterKeepsAscending | app/components/BiometricAuth.tsx:150-151 | filtering keeps the ascending id order |
| Transactions.LoadSplitsByStatus | app/components/BiometricAuth.tsx:145-155 | the two loaded lists are in ascending id order; a stored record is in the pending (completed) list exactly when its status is pending (completed); every listed record is the store's record under its id |
| Transactions.SyncedBatch | app/components/BiometricAuth.tsx:252-258 | the batch keeps the list's length and order; each record is the pending one completed at the sync instant with a "Synced" trace line; every record is completed and satisfies the record invariant |
| Transactions.SyncedRecord | app/components/BiometricAuth.tsx:252-258 | a synced record is completed, with sync and completion times both the sync instant, and satisfies the record invariant; its other fields are the pending record's; its old trace is a prefix of the new one |
| Transactions.FilterKeepsMatchingList | app/components/BiometricAuth.tsx:240 | the pending filter returns a list of pending records unchanged |
| Transactions.PutAll | app/components/BiometricAuth.tsx:264-274 | the store after the sync's `put` loop, as a fold of map updates (stated by `PutAllKeys`, `PutAllUntouched`, `PutAllWritten`) |
| Transactions.PutAllSnoc | app/components/BiometricAuth.tsx:264-274 | one more `put` after the loop's prefix extends the fold by one map update |
| Transactions.PutAllKeys | app/components/BiometricAuth.tsx:264-274 | the put loop's keys are the old keys plus the ids written |
| Transactions.PutAllUntouched | app/components/BiometricAuth.tsx:264-274 | a record whose id the loop does not write is unchanged |
| Transactions.PutAllWritten | app/components/BiometricAuth.tsx:264-274 | when the written ids are strictly ascending (hence pairwise different), each written id holds its record afterwards |
| Transactions.SyncMirror | app/components/BiometricAuth.tsx:278-283 | the mirror keeps its length; an entry whose id is not in the batch is unchanged; an entry whose id is in the batch becomes a batch record with that id |
| Transactions.SyncBatchIds | app/components/BiometricAuth.tsx:240-258 | for a pending list just loaded from the store, the batch ids are ascending and are exactly the ids of the store's pending records |
| Transactions.SyncStoreKeys | app/components/BiometricAuth.tsx:264-274 | a sync of the loaded pending list adds and removes no key |
| Transactions.SyncStoreCompletes | app/components/BiometricAuth.tsx:252-274 | after that sync, each pending record of the store is its completed, synced version |
| Transactions.SyncStoreUntouched | app/components/BiometricAuth.tsx:264-274 | after that sync, each non-pending record of the store is unchanged |
| Transactions.SyncCompletesPendingRecords | app/components/BiometricAuth.tsx:236-293 | the sync keeps the keys; turns every pending record into its synced version; leaves every other record unchanged; leaves no pending record; never moves a status backwards; keeps both store invariants |
| Transactions.SavedPendingIsSynced | app/components/BiometricAuth.tsx:163-274 | a pending record just saved is in the pending list of the new store, and the sync of that store puts its completed version under its id |
| Transactions.OfflinePaymentCompletesOnSync | app/components/BiometricAuth.tsx:236-293 | a payment made while not online is stored as pending and is listed as pending; the next sync makes it completed with both times set to the sync instant, and keeps its amount and creation time |
| Controller.BiometricAuth.constructor | app/components/BiometricAuth.tsx:385-404 | the mounted state: the stored PIN is the saved one, or 123456 when none or empty was saved; no failures, unlocked, 20 seconds; online; idle; with an open database the lists are the store's status split, otherwise empty |
| Controller.BiometricAuth.LoadTransactions | app/components/BiometricAuth.tsx:134-160 | with an open database the lists become the pending and completed records of the store; without one nothing changes |
| Controller.BiometricAuth.UpdateLocalStorage | app/components/BiometricAuth.tsx:221-233 | the in-place update of the mirror equals `MirrorUpdate` of the old mirror |
| Controller.BiometricAuth.SaveTransaction | app/components/BiometricAuth.tsx:163-218 | with an open database the store gains `SavedRecord` under the id (the effect `SaveEffect` describes), and the mirror gets the stored record; without one nothing changes; the invariant is kept; the reload the save requests (:197, :207) is taken in `ShowPayment` |
| Controller.BiometricAuth.SyncPendingTransactions | app/components/BiometricAuth.tsx:236-293 | nothing changes unless online with a non-empty pending list; otherwise the store is the put fold of the synced batch (with an open database), the mirror is `SyncMirror` of the batch, the pending list is empty and the batch is appended to the completed list |
| Controller.BiometricAuth.PutEach | app/components/BiometricAuth.tsx:261-275 | the put loop leaves the store equal to `PutAll` of the batch and keeps the store invariants |
| Controller.BiometricAuth.TransactionSuccess | app/components/BiometricAuth.tsx:463-507 | shows success when online and saved-offline otherwise; with an open database the store gains the saved record, the mirror gets it and the reload makes the lists the store's split; without one the store is unchanged and the new record is appended to the list of its status; the dismiss timer is armed |
| Controller.BiometricAuth.ShowPayment | app/components/BiometricAuth.tsx:478-501 | after the save: the record is appended to the list of its status, the screen switches, the dismiss timer is armed, and the reload replaces the lists when the database is open |
| Controller.BiometricAuth.DismissTimeout | app/components/BiometricAuth.tsx:486-501 | the panel closes and the PIN and banner are cleared |
| Controller.BiometricAuth.NetworkChecked | app/components/BiometricAuth.tsx:299-316 | the signal becomes the classification; when it is not online, or the pending list is empty, nothing else changes; when online with pending records the store is the put fold of the synced batch (with an open database), the mirror is `SyncMirror` of the batch, the pending list is empty and the batch is appended to the completed list |
| Controller.BiometricAuth.BrowserOffline | app/components/BiometricAuth.tsx:334-337 | the signal becomes offline |
| Controller.BiometricAuth.NetworkStatusEffect | app/components/BiometricAuth.tsx:351-378 | nothing changes unless online with an open database whose store holds a pending record and a non-empty pending list; in that case the store is the put fold of the synced batch, the mirror is `SyncMirror` of the batch, the pending list is empty and the batch is appended to the completed list |
| Controller.ReconnectCompletesPendingPayment | app/components/BiometricAuth.tsx:236-316 | with an open database, a record stored as pending and shown in the pending list is, after a connectivity check that answers within 1000 ms, completed in the store at the sync instant and listed among the completed records; the pending list is empty |
| Controller.BiometricAuth.PayNow | app/components/BiometricAuth.tsx:420-425 | no change while locked; otherwise the panel opens and the banner is cleared |
| Controller.BiometricAuth.ChangePinClicked | app/components/BiometricAuth.tsx:427-432 | the panel opens in change mode with no banner |
| Controller.BiometricAuth.PinChange | app/components/BiometricAuth.tsx:557-571 | the box takes the value exactly when it is at most six digits, otherwise it keeps its value; the auto-submit is scheduled exactly when an accepted value has six digits |
| Controller.BiometricAuth.ConfirmPinChange | app/components/BiometricAuth.tsx:573-578 | the confirmation box takes the value exactly when it is at most six digits |
| Controller.BiometricAuth.CurrentPinChange | app/components/BiometricAuth.tsx:580-585 | the current-PIN box takes the value exactly when it is at most six digits |
| Controller.BiometricAuth.AutoSubmitTimeout | app/components/BiometricAuth.tsx:565-568 | the scheduled submit runs once: a wrong length sets the length error, a six-digit PIN starts the comparison timer with the captured values |
| Controller.BiometricAuth.SubmitPin | app/components/BiometricAuth.tsx:509-531 | a PIN whose length is not 6 sets the length error and starts nothing; otherwise the banner is cleared and the comparison timer starts with both parsed PINs; the counter, the lock and the stored PIN are never written |
| Controller.BiometricAuth.PinCheckTimeout | app/components/BiometricAuth.tsx:531-554 | a match zeroes the counter and starts processing; a mismatch applies `AfterMismatch` (one more failure, locked at 5) and reports `MismatchError` (attempts left, or the wait); authentication ends either way |
| Controller.BiometricAuth.SetPin | app/components/BiometricAuth.tsx:434-461 | the stored PIN is replaced exactly when the new PIN has six characters, equals its confirmation and, in change mode, the current PIN equals the stored one; each failed check sets its own banner and changes nothing else; success clears the three boxes and closes the panel |
| Controller.BiometricAuth.ResetAuth | app/components/BiometricAuth.tsx:587-599 | the panel closes, the boxes and banner are cleared, and the counter is zeroed only when not locked |
| Controller.BiometricAuth.ClearError | app/components/BiometricAuth.tsx:844-849 | offered only with failures counted and unlocked; clears the banner and the counter |
| Controller.BiometricAuth.LockoutTick | app/components/BiometricAuth.tsx:406-418 | one second of the countdown followed by the effect equals `AfterTick` of the old guard |

## Left out

- Rendering (the JSX) and the disabled states of its buttons and boxes. The
  handlers themselves do not check the lock. Only the disabled attributes at
  BiometricAuth.tsx:785-830 keep input away from a locked panel, so the
  model does not prevent typing while locked.
- Opening the database (`initDB`) and every IndexedDB, localStorage or fetch
  request error. The database either opened at mount (`dbOpen`) or did not.
  The error branch 'Failed to save transaction' cannot be reached, because
  `saveTransaction` catches its own errors.
- The network probe itself, the 3-second polling interval and the
  `online`/`offline` listeners. A finished probe is an input to
  `NetworkChecked`; the `offline` event is `BrowserOffline`.
- Randomness and clocks. Record ids, `Date.now()` and the ISO time strings
  are parameters. The several `Date.now()` reads of one handler are one
  `now` value.
- Controller.BiometricAuth.SyncPendingTransactions: runs atomically. Its
  simulated one-second API delay, and two sync runs overlapping in that
  delay, are not modelled.
- Controller.BiometricAuth.TransactionSuccess: reads the current
  `networkStatus` rather than the value its closure captured at submit.
- Controller.BiometricAuth.NetworkChecked: reads the current pending list
  and signal rather than the ones of the mount-time closure. The mount
  effect (deps `[]`, BiometricAuth.tsx:348) calls the `syncPendingTransactions`
  of the first render at :310, whose pending list is always empty, so there
  the poll's sync returns at :242-244 and never runs.
- Controller.BiometricAuth.PinCheckTimeout: reads the current `retryCount`
  and `lockoutTime` rather than the values its closure captured.
- Controller.BiometricAuth.constructor: the stored PIN is set at mount. The
  short interval in which the component holds `null` as its stored PIN is
  not modelled, and neither is writing the default PIN back to browser
  storage.
- The user id, the storage keys and the PIN's persistence.
- `isSettingPin`, `showPin`, `isCheckingConnection`, the history tabs, the
  `onTabChange` callback and the `onError`/`onSuccess` properties. The code
  never calls `onSuccess`.
- Connectivity.Classify: the latency is an exact real number. The
  floating-point arithmetic of `performance.now()` is not modelled.
- Transactions.NewTransaction: the amount is a real number, so a NaN amount
  is not modelled.
- KeyOrder.SortedKeys: orders keys by Unicode scalar value. IndexedDB orders
  them by UTF-16 code unit; the two orders agree on the ASCII ids this
  component creates.
- PinPolicy.ParseInt: skips only the listed white-space characters. It does
  not model the rest of the Unicode space separators, or the precision loss
  of digit runs too long for a double.
- FaceRecognition, TapToAuthenticate and the other pages and components are
  not part of this model. No secondary authentication factor follows the
  PIN.
