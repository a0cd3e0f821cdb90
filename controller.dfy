/** The payment-authentication controller: the state of the `BiometricAuth`
    component and one method per event handler, effect or timer callback that
    changes it. Each timer callback is its own method, callable while its
    timer is pending. */
module Controller {
  import opened Wrappers
  import opened Connectivity
  import opened PinPolicy
  import opened Transactions

  /** The screen of the payment flow (`transactionStatus`). */
  datatype PaymentStatus = Idle | Processing | Succeeded | SavedOffline

  class BiometricAuth {
    // The PIN panel.
    var pin: string
    var confirmPin: string
    var currentPin: string
    var storedPin: string
    var retryCount: nat
    var isLocked: bool
    var lockoutTime: nat
    var showPinInput: bool
    var showChangePin: bool
    var isAuthenticating: bool
    var error: Option<AuthError>
    var transactionStatus: PaymentStatus

    // Connectivity and the transaction lists.
    var networkStatus: NetworkStatus
    var dbOpen: bool
    var store: Store
    var mirror: seq<Tx>
    var pendingTransactions: seq<Tx>
    var completedTransactions: seq<Tx>
    /** The `amount` property the component was rendered with. */
    const amount: Option<real>

    // Pending timers.
    /** The zero-delay timeout that submits a PIN once six digits are typed. */
    var autoSubmitDue: bool
    /** The 500 ms comparison timeout, with the values it captured. */
    var pinCheck: Option<PinCheck>
    /** The 2 s timeout that closes the PIN panel after a payment. */
    var dismissDue: bool

    /** The object invariant: every PIN box holds at most six digits, the
        countdown lies in 1..20, the store keeps each record under its id and
        keeps the record invariant, and each list holds records of its own
        status. */
    ghost predicate Valid()
      reads this
    {
      PinBoxesValid() && DataValid()
    }

    /** The part of the invariant about the PIN boxes and the countdown. */
    ghost predicate PinBoxesValid()
      reads this`pin, this`confirmPin, this`currentPin, this`lockoutTime
    {
      && AcceptsPinInput(pin) && AcceptsPinInput(confirmPin) && AcceptsPinInput(currentPin)
      && 0 < lockoutTime <= LOCKOUT_SECONDS
    }

    /** The part of the invariant about the store and the two lists. */
    ghost predicate DataValid()
      reads this`store, this`pendingTransactions, this`completedTransactions
    {
      && KeyedById(store) && StoreWellFormed(store)
      && (forall t :: t in pendingTransactions ==> t.status == Pending)
      && (forall t :: t in completedTransactions ==> t.status == Completed)
    }

    /** The retry counter, the lock and the countdown. */
    function Lock(): Guard
      reads this
    {
      Guard(retryCount, isLocked, lockoutTime)
    }

    /** The component as mounted: the database (if it opened) holds
        `persisted`, browser storage holds the mirror list and, possibly, a
        saved PIN; the mount effects load the lists and the PIN. */
    constructor (dbOpened: bool, persisted: Store, persistedMirror: seq<Tx>, savedPin: Option<string>, amount: Option<real>)
      requires KeyedById(persisted) && StoreWellFormed(persisted)
      ensures Valid()
      ensures storedPin == if savedPin == None || savedPin == Some("") then DEFAULT_PIN else savedPin.value
      ensures Lock() == FRESH && pin == "" && confirmPin == "" && currentPin == "" && error == None
      ensures networkStatus == Online && transactionStatus == Idle && !showPinInput && !showChangePin
      ensures dbOpen == dbOpened && store == persisted && mirror == persistedMirror && this.amount == amount
      ensures pendingTransactions == (if dbOpened then PendingOf(persisted) else [])
      ensures completedTransactions == (if dbOpened then CompletedOf(persisted) else [])
      ensures !autoSubmitDue && pinCheck == None && !dismissDue && !isAuthenticating
    {
      pin, confirmPin, currentPin := "", "", "";
      storedPin := if savedPin.Some? && savedPin.value != "" then savedPin.value else DEFAULT_PIN;
      retryCount, isLocked, lockoutTime := 0, false, LOCKOUT_SECONDS;
      showPinInput, showChangePin, isAuthenticating := false, false, false;
      error := None;
      transactionStatus := Idle;
      networkStatus := Online;
      dbOpen := dbOpened;
      store := persisted;
      mirror := persistedMirror;
      this.amount := amount;
      autoSubmitDue, pinCheck, dismissDue := false, None, false;
      if dbOpened {
        pendingTransactions := PendingOf(persisted);
        completedTransactions := CompletedOf(persisted);
      } else {
        pendingTransactions := [];
        completedTransactions := [];
      }
    }

    // -------------------------------------------------------------------------
    // Transactions
    // -------------------------------------------------------------------------

    /** `loadTransactions`: when the database is open, replace both lists by
        the status split of the store. */
    method LoadTransactions()
      requires Valid()
      modifies this`pendingTransactions, this`completedTransactions
      ensures Valid()
      ensures dbOpen ==> pendingTransactions == PendingOf(store) && completedTransactions == CompletedOf(store)
      ensures !dbOpen ==> pendingTransactions == old(pendingTransactions) && completedTransactions == old(completedTransactions)
    {
      if !dbOpen {
        return;
      }
      pendingTransactions := PendingOf(store);
      completedTransactions := CompletedOf(store);
    }

    /** `updateLocalStorage`: overwrite the first mirror entry with the same
        id in place, or append. */
    method UpdateLocalStorage(t: Tx)
      modifies this`mirror
      ensures mirror == MirrorUpdate(old(mirror), t)
    {
      var i := FindIndex(mirror, t.id);
      if i >= 0 {
        mirror := mirror[i := t];
      } else {
        mirror := mirror + [t];
      }
    }

    /** `saveTransaction`: read the record under `t.id`, then add `t` or put
        the merge, and write the stored record through to the mirror. Without
        a database nothing happens. */
    method SaveTransaction(t: Tx, iso: string)
      requires Valid() && WellFormed(t)
      modifies this`store, this`mirror
      ensures Valid()
      ensures dbOpen ==> store == old(store)[t.id := SavedRecord(old(store), t, iso)] && mirror == MirrorUpdate(old(mirror), store[t.id])
      ensures !dbOpen ==> store == old(store) && mirror == old(mirror)
    {
      if !dbOpen {
        return;
      }
      var stored := SavedRecord(store, t, iso);
      store := store[t.id := stored];
      UpdateLocalStorage(stored);
    }

    /** `syncPendingTransactions`: when online and the pending list holds a
        pending record, complete every such record, put each one back into
        the store, rewrite the mirror entries with their ids, empty the
        pending list and append the batch to the completed list. */
    method SyncPendingTransactions(now: int, iso: string)
      requires Valid()
      modifies this`store, this`mirror, this`pendingTransactions, this`completedTransactions
      ensures Valid()
      ensures old(networkStatus) != Online || old(pendingTransactions) == [] ==>
                store == old(store) && mirror == old(mirror)
                && pendingTransactions == old(pendingTransactions) && completedTransactions == old(completedTransactions)
      ensures old(networkStatus) == Online && old(pendingTransactions) != [] ==>
                var batch := SyncedBatch(old(pendingTransactions), now, iso);
                && store == (if dbOpen then PutAll(old(store), batch) else old(store))
                && mirror == SyncMirror(old(mirror), batch)
                && pendingTransactions == []
                && completedTransactions == old(completedTransactions) + batch
    {
      if networkStatus != Online {
        return;
      }
      var transactions := FilterStatus(pendingTransactions, Pending);
      FilterKeepsMatchingList(pendingTransactions, Pending);
      if |transactions| == 0 {
        return;
      }
      var updated := SyncedBatch(transactions, now, iso);
      if dbOpen {
        PutEach(updated);
      }
      mirror := SyncMirror(mirror, updated);
      pendingTransactions := [];
      completedTransactions := completedTransactions + updated;
      assert transactions == old(pendingTransactions);
    }

    /** The sync's write loop: `store.put` each record in turn, in one
        read-write transaction of the database. */
    method PutEach(updated: seq<Tx>)
      requires KeyedById(store) && StoreWellFormed(store)
      requires forall t :: t in updated ==> WellFormed(t)
      modifies this`store
      ensures store == PutAll(old(store), updated)
      ensures KeyedById(store) && StoreWellFormed(store)
    {
      var i := 0;
      while i < |updated|
        invariant 0 <= i <= |updated|
        invariant store == PutAll(old(store), updated[..i])
        invariant KeyedById(store) && StoreWellFormed(store)
      {
        PutAllSnoc(old(store), updated[..i], updated[i]);
        assert updated[..i + 1] == updated[..i] + [updated[i]];
        store := store[updated[i].id := updated[i]];
        i := i + 1;
      }
      assert updated[..i] == updated;
    }

    /** `handleTransactionSuccess`, run by the processing timer: create the
        record (completed when online, pending otherwise), save it, add it to
        the matching list, switch the screen and start the dismiss timer. The
        reload that the save requests arrives after the list append and
        replaces both lists by the store's split. */
    method TransactionSuccess(id: string, now: int, iso: string) returns (ghost t: Tx)
      requires Valid() && transactionStatus == Processing
      modifies this`store, this`mirror, this`pendingTransactions, this`completedTransactions
      modifies this`transactionStatus, this`dismissDue
      ensures Valid() && dismissDue
      ensures t == NewTransaction(id, amount, now, networkStatus, iso)
      ensures transactionStatus == (if networkStatus == Online then Succeeded else SavedOffline)
      ensures dbOpen ==> id in store && store == old(store)[id := SavedRecord(old(store), t, iso)] && mirror == MirrorUpdate(old(mirror), store[id])
      ensures dbOpen ==> pendingTransactions == PendingOf(store) && completedTransactions == CompletedOf(store)
      ensures !dbOpen ==> store == old(store) && mirror == old(mirror)
      ensures !dbOpen && networkStatus == Online ==>
                completedTransactions == old(completedTransactions) + [t] && pendingTransactions == old(pendingTransactions)
      ensures !dbOpen && networkStatus != Online ==>
                pendingTransactions == old(pendingTransactions) + [t] && completedTransactions == old(completedTransactions)
    {
      var record := NewTransaction(id, amount, now, networkStatus, iso);
      t := record;
      SaveTransaction(record, iso);
      ShowPayment(record);
    }

    /** The part of `handleTransactionSuccess` after the save resolves:
        append the record to the list of its status, switch the screen, arm
        the dismiss timer, then take the reload the save requested. */
    method ShowPayment(t: Tx)
      requires Valid() && (t.status == Completed <==> networkStatus == Online)
      requires t.status == Pending <==> networkStatus != Online
      modifies this`pendingTransactions, this`completedTransactions, this`transactionStatus, this`dismissDue
      ensures Valid() && dismissDue
      ensures transactionStatus == (if networkStatus == Online then Succeeded else SavedOffline)
      ensures dbOpen ==> pendingTransactions == PendingOf(store) && completedTransactions == CompletedOf(store)
      ensures !dbOpen && networkStatus == Online ==>
                completedTransactions == old(completedTransactions) + [t] && pendingTransactions == old(pendingTransactions)
      ensures !dbOpen && networkStatus != Online ==>
                pendingTransactions == old(pendingTransactions) + [t] && completedTransactions == old(completedTransactions)
    {
      if networkStatus == Online {
        transactionStatus := Succeeded;
        completedTransactions := completedTransactions + [t];
      } else {
        transactionStatus := SavedOffline;
        pendingTransactions := pendingTransactions + [t];
      }
      dismissDue := true;
      LoadTransactions();
    }

    /** The 2 s timeout after a payment: close the PIN panel, clear the PIN
        and the banner. */
    method DismissTimeout()
      requires Valid() && dismissDue
      modifies this`showPinInput, this`pin, this`error, this`dismissDue
      ensures Valid()
      ensures !showPinInput && pin == "" && error == None && !dismissDue
    {
      showPinInput := false;
      pin := "";
      error := None;
      dismissDue := false;
    }

    // -------------------------------------------------------------------------
    // Connectivity
    // -------------------------------------------------------------------------

    /** A finished connectivity check (on mount, every 3 s, or on the
        browser's `online` event): store the classification and, when it is
        `Online`, sync. */
    method NetworkChecked(onLine: bool, probe: Probe, now: int, iso: string)
      requires Valid()
      modifies this`networkStatus, this`store, this`mirror, this`pendingTransactions, this`completedTransactions
      ensures Valid()
      ensures networkStatus == Classify(onLine, probe)
      ensures networkStatus != Online || old(pendingTransactions) == [] ==>
                store == old(store) && mirror == old(mirror)
                && pendingTransactions == old(pendingTransactions) && completedTransactions == old(completedTransactions)
      ensures networkStatus == Online && old(pendingTransactions) != [] ==>
                var batch := SyncedBatch(old(pendingTransactions), now, iso);
                && store == (if dbOpen then PutAll(old(store), batch) else old(store))
                && mirror == SyncMirror(old(mirror), batch)
                && pendingTransactions == [] && completedTransactions == old(completedTransactions) + batch
    {
      networkStatus := Classify(onLine, probe);
      if networkStatus == Online {
        SyncPendingTransactions(now, iso);
      }
    }

    /** The browser's `offline` event: the signal drops to offline at once. */
    method BrowserOffline()
      modifies this`networkStatus
      ensures networkStatus == Offline
    {
      networkStatus := Offline;
    }

    /** The effect run when `networkStatus` changes: when online with an open
        database whose store holds a pending record, sync. */
    method NetworkStatusEffect(now: int, iso: string)
      requires Valid()
      modifies this`store, this`mirror, this`pendingTransactions, this`completedTransactions
      ensures Valid()
      ensures !(networkStatus == Online && dbOpen && PendingOf(old(store)) != [] && old(pendingTransactions) != []) ==>
                store == old(store) && mirror == old(mirror)
                && pendingTransactions == old(pendingTransactions) && completedTransactions == old(completedTransactions)
      ensures networkStatus == Online && dbOpen && PendingOf(old(store)) != [] && old(pendingTransactions) != [] ==>
                var batch := SyncedBatch(old(pendingTransactions), now, iso);
                && store == PutAll(old(store), batch) && mirror == SyncMirror(old(mirror), batch)
                && pendingTransactions == [] && completedTransactions == old(completedTransactions) + batch
    {
      if networkStatus == Online && dbOpen {
        var pending := PendingOf(store);
        if |pending| > 0 {
          SyncPendingTransactions(now, iso);
        }
      }
    }

    // -------------------------------------------------------------------------
    // The PIN panel
    // -------------------------------------------------------------------------

    /** `handlePayNow`: open the PIN panel, unless locked. */
    method PayNow()
      modifies this`showPinInput, this`error
      ensures old(isLocked) ==> showPinInput == old(showPinInput) && error == old(error)
      ensures !old(isLocked) ==> showPinInput && error == None
    {
      if isLocked {
        return;
      }
      showPinInput := true;
      error := None;
    }

    /** `handleChangePin`: open the PIN panel in change mode. */
    method ChangePinClicked()
      modifies this`showPinInput, this`showChangePin, this`error
      ensures showPinInput && showChangePin && error == None
    {
      showChangePin := true;
      showPinInput := true;
      error := None;
    }

    /** `handlePinChange`: accept the new value only if it is at most six
        digits; at exactly six, schedule the submit. */
    method PinChange(value: string)
      requires Valid()
      modifies this`pin, this`autoSubmitDue
      ensures Valid()
      ensures AcceptsPinInput(value) ==> pin == value && autoSubmitDue == (old(autoSubmitDue) || |value| == PIN_LENGTH)
      ensures !AcceptsPinInput(value) ==> pin == old(pin) && autoSubmitDue == old(autoSubmitDue)
    {
      if AcceptsPinInput(value) {
        pin := value;
        if |value| == PIN_LENGTH {
          autoSubmitDue := true;
        }
      }
    }

    /** `handleConfirmPinChange`: the same filter, no submit. */
    method ConfirmPinChange(value: string)
      requires Valid()
      modifies this`confirmPin
      ensures Valid()
      ensures confirmPin == if AcceptsPinInput(value) then value else old(confirmPin)
    {
      if AcceptsPinInput(value) {
        confirmPin := value;
      }
    }

    /** `handleCurrentPinChange`: the same filter, no submit. */
    method CurrentPinChange(value: string)
      requires Valid()
      modifies this`currentPin
      ensures Valid()
      ensures currentPin == if AcceptsPinInput(value) then value else old(currentPin)
    {
      if AcceptsPinInput(value) {
        currentPin := value;
      }
    }

    /** The zero-delay timeout scheduled by a six-digit entry. */
    method AutoSubmitTimeout()
      requires Valid() && autoSubmitDue
      modifies this`autoSubmitDue, this`error, this`isAuthenticating, this`pinCheck
      ensures Valid() && !autoSubmitDue
      ensures |pin| != PIN_LENGTH ==> error == Some(PinLengthWrong) && pinCheck == old(pinCheck)
      ensures |pin| == PIN_LENGTH ==> error == None && isAuthenticating && pinCheck == Some(Capture(pin, storedPin))
    {
      autoSubmitDue := false;
      SubmitPin();
    }

    /** `handlePinSubmit`: reject a PIN of the wrong length; otherwise parse
        both PINs and start the 500 ms comparison timer. The counter, the
        lock and the stored PIN are not touched here. */
    method SubmitPin()
      requires Valid()
      modifies this`error, this`isAuthenticating, this`pinCheck
      ensures Valid()
      ensures |pin| != PIN_LENGTH ==>
                error == Some(PinLengthWrong) && isAuthenticating == old(isAuthenticating) && pinCheck == old(pinCheck)
      ensures |pin| == PIN_LENGTH ==> error == None && isAuthenticating && pinCheck == Some(Capture(pin, storedPin))
    {
      if |pin| != PIN_LENGTH {
        error := Some(PinLengthWrong);
        return;
      }
      isAuthenticating := true;
      error := None;
      pinCheck := Some(Capture(pin, storedPin));
    }

    /** The 500 ms comparison timeout: on a match clear the counter and start
        processing the payment; on a mismatch count the failure, locking at
        the maximum, and report it. */
    method PinCheckTimeout()
      requires Valid() && pinCheck.Some?
      modifies this`retryCount, this`isLocked, this`error, this`transactionStatus, this`isAuthenticating, this`pinCheck
      ensures Valid() && !isAuthenticating && pinCheck == None
      ensures Matches(old(pinCheck).value) ==>
                Lock() == AfterMatch(old(Lock())) && transactionStatus == Processing && error == old(error)
      ensures !Matches(old(pinCheck).value) ==>
                Lock() == AfterMismatch(old(Lock())) && error == Some(MismatchError(old(Lock())))
                && transactionStatus == old(transactionStatus)
    {
      if Matches(pinCheck.value) {
        retryCount := 0;
        transactionStatus := Processing;
      } else {
        var newRetryCount := retryCount + 1;
        retryCount := newRetryCount;
        if newRetryCount >= MAX_RETRIES {
          isLocked := true;
          error := Some(TooManyAttempts(lockoutTime));
        } else {
          error := Some(InvalidPin(MAX_RETRIES - newRetryCount));
        }
      }
      isAuthenticating := false;
      pinCheck := None;
    }

    /** `handleSetPin`: replace the stored PIN only when the new PIN has six
        digits, equals its confirmation and, in change mode, the current PIN
        equals the stored one (as strings); each failed check sets its own
        banner and changes nothing else. */
    method SetPin()
      requires Valid()
      modifies this`storedPin, this`showChangePin, this`pin, this`confirmPin, this`currentPin
      modifies this`error, this`showPinInput
      ensures Valid()
      ensures |old(pin)| != PIN_LENGTH ==> error == Some(PinLengthWrong)
      ensures |old(pin)| == PIN_LENGTH && old(pin) != old(confirmPin) ==> error == Some(PinsDiffer)
      ensures (|old(pin)| == PIN_LENGTH && old(pin) == old(confirmPin) && old(showChangePin)
               && old(currentPin) != old(storedPin)) ==> error == Some(CurrentPinIncorrect)
      ensures var accepted := |old(pin)| == PIN_LENGTH && old(pin) == old(confirmPin)
                              && (old(showChangePin) ==> old(currentPin) == old(storedPin));
              && (accepted ==>
                    storedPin == old(pin) && pin == "" && confirmPin == "" && currentPin == ""
                    && error == None && !showPinInput && !showChangePin)
              && (!accepted ==>
                    storedPin == old(storedPin) && pin == old(pin) && confirmPin == old(confirmPin)
                    && currentPin == old(currentPin) && error.Some?
                    && showPinInput == old(showPinInput) && showChangePin == old(showChangePin))
    {
      if |pin| != PIN_LENGTH {
        error := Some(PinLengthWrong);
        return;
      }
      if pin != confirmPin {
        error := Some(PinsDiffer);
        return;
      }
      if showChangePin && currentPin != storedPin {
        error := Some(CurrentPinIncorrect);
        return;
      }
      storedPin := pin;
      showChangePin := false;
      pin, confirmPin, currentPin := "", "", "";
      error := None;
      showPinInput := false;
    }

    /** `resetAuth` (Cancel): close the panel and clear the boxes and the
        banner; the counter is cleared only when not locked. */
    method ResetAuth()
      requires Valid()
      modifies this`showPinInput, this`pin, this`confirmPin, this`currentPin, this`error
      modifies this`showChangePin, this`retryCount
      ensures Valid()
      ensures !showPinInput && !showChangePin && pin == "" && confirmPin == "" && currentPin == "" && error == None
      ensures retryCount == if isLocked then old(retryCount) else 0
    {
      showPinInput := false;
      pin, confirmPin, currentPin := "", "", "";
      error := None;
      showChangePin := false;
      if !isLocked {
        retryCount := 0;
      }
    }

    /** The "Clear Error" button, offered only while failures are counted and
        the panel is not locked. */
    method ClearError()
      requires retryCount > 0 && !isLocked
      modifies this`error, this`retryCount
      ensures error == None && retryCount == 0
    {
      error := None;
      retryCount := 0;
    }

    /** One second of the lockout countdown and the effect it triggers. */
    method LockoutTick()
      requires Valid()
      modifies this`lockoutTime, this`isLocked, this`retryCount
      ensures Valid()
      ensures Lock() == AfterTick(old(Lock()))
    {
      if isLocked && lockoutTime > 0 {
        lockoutTime := lockoutTime - 1;
      }
      if !(isLocked && lockoutTime > 0) && lockoutTime == 0 {
        isLocked := false;
        lockoutTime := LOCKOUT_SECONDS;
        retryCount := 0;
      }
    }
  }

  /** After a payment taken offline with the database open (see
      `SavedPendingIsSynced`), the store holds it as pending and the pending
      list shows it; the next connectivity check that answers fast completes
      it in the store, with both times set to the sync instant, and moves it
      from the pending list to the completed list. */
  method ReconnectCompletesPendingPayment(c: BiometricAuth, id: string, syncedAt: int, syncedIso: string)
    requires c.Valid() && c.dbOpen && id in c.store && c.store[id].status == Pending
    requires c.pendingTransactions == PendingOf(c.store)
    modifies c
    ensures c.Valid() && c.networkStatus == Online && c.pendingTransactions == []
    ensures id in c.store && c.store[id].status == Completed && c.store[id].completedAt == Some(syncedAt)
    ensures c.store[id] in c.completedTransactions
  {
    ghost var saved := c.store;
    ghost var pending := c.pendingTransactions;
    ghost var completed := c.completedTransactions;
    LoadSplitsByStatus(saved);
    SyncStoreCompletes(saved, syncedAt, syncedIso, id);
    ghost var i :| 0 <= i < |pending| && pending[i] == saved[id];
    c.NetworkChecked(true, Answered(10.0), syncedAt, syncedIso);
    assert c.store == SyncStore(saved, syncedAt, syncedIso);
    assert c.completedTransactions[|completed| + i] == c.store[id];
  }
}
