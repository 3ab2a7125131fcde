/**
 * The backup lifecycle (src/hooks/useCloudBackup.ts): a once-only restore
 * when the app mounts, and a debounced automatic backup of every store
 * change. The closure variables of the two effects become the fields of two
 * classes, and the events that drive them (effect run, store notification,
 * timer expiry, request settled, teardown) become methods. Time is a
 * parameter: the single timer is the instant it is due, or none.
 */
module BackupLifecycle {
  import opened Wrappers
  import opened Types
  import opened Store
  import opened BoardActions
  import opened JsString
  import opened ColumnView

  /** `AUTO_BACKUP_DELAY_MS`: ninety seconds. */
  const AutoBackupDelay: int := 90000

  /** `useInitialRestore`: the restore is attempted at most once, and only when backup is configured. */
  class InitialRestore {
    /** `attemptedRef.current`. */
    var attempted: bool
    /** The fetch has started and has not settled. */
    var inFlight: bool
    /** The effect run that started the fetch has been cleaned up. */
    var cancelled: bool
    /** How many fetches have been started. */
    ghost var fetches: nat

    ghost predicate Valid()
      reads this
    {
      && fetches == (if attempted then 1 else 0)
      && (inFlight ==> attempted)
      && (cancelled ==> attempted)
    }

    constructor ()
      ensures Valid() && !attempted && !inFlight && !cancelled && fetches == 0
    {
      attempted, inFlight, cancelled := false, false, false;
      fetches := 0;
    }

    /** One run of the effect; `configured` is `isCloudBackupConfigured()`. */
    method Activate(configured: bool) returns (started: bool)
      requires Valid()
      modifies this
      ensures Valid()
      ensures started <==> !old(attempted) && configured
      ensures started ==> attempted && inFlight && !cancelled && fetches == 1
      ensures !started ==>
        attempted == old(attempted) && inFlight == old(inFlight) && cancelled == old(cancelled) && fetches == old(fetches)
      ensures fetches <= 1
    {
      if attempted || !configured {
        started := false;
        return;
      }
      attempted := true;
      cancelled := false;
      inFlight := true;
      fetches := fetches + 1;
      started := true;
    }

    /** The cleanup of the run that started the fetch; a run that returned early left no cleanup. */
    method Teardown()
      requires Valid()
      modifies this
      ensures Valid()
      ensures cancelled == (old(cancelled) || attempted)
      ensures attempted == old(attempted) && inFlight == old(inFlight) && fetches == old(fetches)
    {
      if attempted {
        cancelled := true;
      }
    }

    /**
     * The fetch settles with `outcome`. A payload replaces the board, unless
     * the effect has been cleaned up; `null` and errors leave the board alone.
     */
    method FetchSettled(outcome: Result<Option<BoardState>, string>, store: BoardStore) returns (replaced: bool)
      requires Valid() && inFlight && store.Valid()
      modifies this, store
      ensures Valid() && store.Valid() && !inFlight
      ensures attempted && cancelled == old(cancelled) && fetches == old(fetches)
      ensures replaced <==> !cancelled && outcome.Ok? && outcome.value.Some?
      ensures replaced ==> store.state == outcome.value.value
      ensures !replaced ==> store.Snapshot() == old(store.Snapshot()) && store.nextRef == old(store.nextRef)
    {
      inFlight := false;
      if cancelled || outcome.Err? || outcome.value.None? {
        replaced := false;
        return;
      }
      var _ := store.ReplaceBoardState(outcome.value.value);
      replaced := true;
    }
  }

  /**
   * `useAutoBackup`: every store change that replaces `columns` or `tasks`
   * becomes the pending snapshot and restarts the one timer; when the timer
   * fires, the pending snapshot is sent unless a send is in flight or the
   * effect has been torn down.
   */
  class AutoBackup {
    /** `isCloudBackupConfigured()` when the effect ran; without it nothing is subscribed. */
    const configured: bool
    /** When the pending timer fires, if one is pending. */
    var timerDue: Option<int>
    var pendingState: Option<BoardState>
    var busy: bool
    var cancelled: bool
    var subscribed: bool
    /** Every snapshot handed to `createBackup`, in order. */
    ghost var sent: seq<BoardState>
    /** How many of those sends have settled. */
    ghost var settled: nat
    /** The snapshot of the last notification the subscriber accepted. */
    ghost var latest: Option<BoardState>

    /**
     * At most one send is in flight, a pending timer always has a snapshot to
     * send, the pending snapshot is the most recent one, and teardown leaves
     * no subscription and no timer.
     */
    ghost predicate Valid()
      reads this
    {
      && |sent| == settled + (if busy then 1 else 0)
      && (timerDue.Some? ==> pendingState.Some?)
      && (pendingState.Some? ==> latest == pendingState)
      && (cancelled ==> !subscribed && timerDue.None?)
      && (!configured ==> !subscribed && pendingState.None? && timerDue.None? && sent == [])
    }

    /** The effect's body: subscribe to the store when configured, otherwise do nothing. */
    constructor (configured: bool)
      ensures Valid() && this.configured == configured
      ensures subscribed == configured
      ensures timerDue.None? && pendingState.None? && !busy && !cancelled && sent == [] && settled == 0
    {
      this.configured := configured;
      timerDue, pendingState := None, None;
      busy, cancelled := false, false;
      subscribed := configured;
      sent, settled, latest := [], 0, None;
    }

    /**
     * The store notifies its subscriber at time `now` with the new state and
     * the previous one. A notification in which both `columns` and `tasks`
     * are the same values as before is ignored; any other one becomes the
     * pending snapshot and restarts the timer.
     */
    method OnStoreChange(now: int, cur: StoreSnapshot, prev: Option<StoreSnapshot>) returns (accepted: bool)
      requires Valid()
      modifies this
      ensures Valid()
      ensures accepted <==>
        old(subscribed) && !(prev.Some? && cur.columnsRef == prev.value.columnsRef && cur.tasksRef == prev.value.tasksRef)
      ensures accepted ==> pendingState == Some(cur.board) && timerDue == Some(now + AutoBackupDelay)
      ensures accepted ==> latest == Some(cur.board)
      ensures !accepted ==> pendingState == old(pendingState) && timerDue == old(timerDue) && latest == old(latest)
      ensures busy == old(busy) && cancelled == old(cancelled) && subscribed == old(subscribed)
      ensures sent == old(sent) && settled == old(settled)
    {
      if !subscribed {
        accepted := false;
        return;
      }
      if prev.Some? && cur.columnsRef == prev.value.columnsRef && cur.tasksRef == prev.value.tasksRef {
        accepted := false;
        return;
      }
      pendingState := Some(cur.board);
      latest := pendingState;
      Schedule(now);
      accepted := true;
    }

    /** `schedule()`: clears any pending timer and starts one that fires `AutoBackupDelay` from now. */
    method Schedule(now: int)
      requires Valid() && pendingState.Some? && subscribed
      modifies this
      ensures Valid()
      ensures timerDue == Some(now + AutoBackupDelay)
      ensures pendingState == old(pendingState) && latest == old(latest)
      ensures busy == old(busy) && cancelled == old(cancelled) && subscribed == old(subscribed)
      ensures sent == old(sent) && settled == old(settled)
    {
      timerDue := Some(now + AutoBackupDelay);
    }

    /** The timer fires at its due time: it is cleared, then `flush` runs. */
    method TimerFire(now: int) returns (sending: Option<BoardState>)
      requires Valid() && timerDue == Some(now)
      modifies this
      ensures Valid() && timerDue.None?
      ensures sending.Some? <==> !old(busy) && !old(cancelled)
      ensures sending.Some? ==> sending == old(latest) && sent == old(sent) + [sending.value] && busy && pendingState.None?
      ensures sending.None? ==> sent == old(sent) && pendingState == old(pendingState) && busy == old(busy)
      ensures settled == old(settled) && cancelled == old(cancelled) && subscribed == old(subscribed)
    {
      timerDue := None;
      sending := Flush();
    }

    /**
     * `flush()`: nothing when no snapshot is pending, a send is in flight, or
     * the effect is torn down (the pending snapshot is kept); otherwise takes
     * the snapshot, clears it and starts the send.
     */
    method Flush() returns (sending: Option<BoardState>)
      requires Valid() && timerDue.None?
      modifies this
      ensures Valid()
      ensures sending.Some? <==> old(pendingState).Some? && !old(busy) && !old(cancelled)
      ensures sending.Some? ==> sending == old(latest) && sent == old(sent) + [sending.value] && busy && pendingState.None?
      ensures sending.None? ==> sent == old(sent) && pendingState == old(pendingState) && busy == old(busy)
      ensures timerDue == old(timerDue)
      ensures settled == old(settled) && cancelled == old(cancelled) && subscribed == old(subscribed)
      ensures latest == old(latest)
    {
      if pendingState.None? || busy || cancelled {
        sending := None;
        return;
      }
      busy := true;
      sending := pendingState;
      pendingState := None;
      sent := sent + [sending.value];
    }

    /** The send settles; the `finally` clears `busy` whether it succeeded or failed. */
    method SendSettled()
      requires Valid() && busy
      modifies this
      ensures Valid() && !busy
      ensures settled == old(settled) + 1 && |sent| == settled
      ensures sent == old(sent) && pendingState == old(pendingState) && timerDue == old(timerDue)
      ensures cancelled == old(cancelled) && subscribed == old(subscribed) && latest == old(latest)
    {
      busy := false;
      settled := settled + 1;
    }

    /** The effect's cleanup: cancel, unsubscribe, clear the timer. */
    method Teardown()
      requires Valid()
      modifies this
      ensures Valid()
      ensures cancelled && !subscribed && timerDue.None?
      ensures pendingState == old(pendingState) && busy == old(busy)
      ensures sent == old(sent) && settled == old(settled) && latest == old(latest)
    {
      cancelled := true;
      subscribed := false;
      timerDue := None;
    }
  }

  /**
   * Debounce: three changes 10 s apart, then silence. Each change restarts
   * the timer, which fires 90 s after the last one and sends exactly one
   * backup, of the latest board.
   */
  method DebounceScenario(b1: BoardState, b2: BoardState, b3: BoardState) returns (sending: Option<BoardState>)
    ensures sending == Some(b3)
  {
    var auto := new AutoBackup(true);
    var a1 := auto.OnStoreChange(0, StoreSnapshot(b1, 2, 3), Some(StoreSnapshot(Initial(), 0, 1)));
    var a2 := auto.OnStoreChange(10000, StoreSnapshot(b2, 4, 3), Some(StoreSnapshot(b1, 2, 3)));
    var a3 := auto.OnStoreChange(20000, StoreSnapshot(b3, 4, 5), Some(StoreSnapshot(b2, 4, 3)));
    sending := auto.TimerFire(110000);
    assert auto.sent == [b3];
  }

  /**
   * A change whose timer fires while the previous send is still in flight is
   * not sent, and nothing reschedules it: once that send settles, the change
   * stays pending with no timer until the store changes again.
   */
  method BusyTimerStrandsChange(b1: BoardState, b2: BoardState) returns (pending: Option<BoardState>, timerPending: bool)
    ensures pending == Some(b2) && !timerPending
  {
    var auto := new AutoBackup(true);
    var a1 := auto.OnStoreChange(0, StoreSnapshot(b1, 2, 1), Some(StoreSnapshot(Initial(), 0, 1)));
    var s1 := auto.TimerFire(90000);
    var a2 := auto.OnStoreChange(95000, StoreSnapshot(b2, 3, 1), Some(StoreSnapshot(b1, 2, 1)));
    var s2 := auto.TimerFire(185000);
    auto.SendSettled();
    assert auto.sent == [b1] && !auto.busy;
    pending, timerPending := auto.pendingState, auto.timerDue.Some?;
  }

  /** After teardown no timer is left and no flush sends anything. */
  method TeardownStopsSending(b: BoardState) returns (sending: Option<BoardState>)
    ensures sending.None?
  {
    var auto := new AutoBackup(true);
    var a := auto.OnStoreChange(0, StoreSnapshot(b, 2, 1), Some(StoreSnapshot(Initial(), 0, 1)));
    auto.Teardown();
    sending := auto.Flush();
    assert auto.sent == [];
  }

  /**
   * The store and the subscriber together: typing a trailing space into a
   * column title calls `renameColumn`, which changes no content, yet
   * `columns` is a new array, so the change is accepted and a backup of the
   * same board is scheduled.
   */
  method TrailingSpaceSchedulesBackup(store: BoardStore, auto: AutoBackup, now: int, i: nat)
    requires store.Valid() && auto.Valid() && auto.subscribed
    requires UniqueColumnIds(store.state.columns) && i < |store.state.columns|
    requires IsTrimmed(store.state.columns[i].title)
    modifies store, auto
    ensures store.Valid() && auto.Valid()
    ensures store.state == old(store.state)
    ensures auto.pendingState == Some(old(store.state)) && auto.timerDue == Some(now + AutoBackupDelay)
  {
    var shown := store.state.columns[i].title;
    var id := store.state.columns[i].id;
    var prev := store.Snapshot();
    TrailingSpaceKeepsColumns(store.state, i);
    var next := OnTitleChange(shown, shown + " ");
    var _ := store.RenameColumn(id, next.value);
    var accepted := auto.OnStoreChange(now, store.Snapshot(), Some(prev));
  }
}
