/**
 * The parallel transaction thread (js/ydn/db/tr/parallel.js): a request is
 * served inside the open transaction when the subclass's reuse policy
 * accepts it, otherwise a new transaction is asked of the storage. The
 * reuse policy (`reusedTx`) is abstract in this class; its verdict is an
 * input of `Exec`. The storage's callbacks are the methods `Process` and
 * `Complete`, identified by the request they belong to.
 */
module ParallelThread {
  import opened Wrappers
  import opened Base

  /** May a request for `stores` in `mode` run in a transaction opened for `scope` in `txMode`? */
  predicate ModeCovers(txMode: TransactionMode, mode: TransactionMode) {
    mode == txMode || (txMode == ReadWrite && mode == ReadOnly)
  }

  /**
   * `subScope`: false when no scope or mode is recorded; otherwise the
   * modes must agree (a read-write transaction also covers a read-only
   * request), the request may list no more stores than the scope, and every
   * store it lists must be in the scope.
   */
  function SubScope(scope: Option<seq<string>>, txMode: Option<TransactionMode>, stores: seq<string>, mode: TransactionMode): (b: bool)
    ensures b <==> scope.Some? && txMode.Some? && ModeCovers(txMode.value, mode)
                   && |stores| <= |scope.value| && forall s :: s in stores ==> s in scope.value
  {
    if scope.None? || txMode.None? then false
    else if mode != txMode.value && (txMode.value != ReadWrite || mode != ReadOnly) then false
    else if |stores| > |scope.value| then false
    else AllIn(stores, scope.value)
  }

  /** The membership loop: every element of `xs` occurs in `ys`. */
  function AllIn(xs: seq<string>, ys: seq<string>): (b: bool)
    ensures b <==> forall s :: s in xs ==> s in ys
  {
    if |xs| == 0 then true else xs[0] in ys && AllIn(xs[1..], ys)
  }

  /**
   * `sameScope` as written: its first guard tests a field (`store_names`)
   * where the recorded scope was meant; the thread never assigns that field,
   * so it is always absent.
   */
  function SameScopeAsWritten(storeNamesField: Option<seq<string>>, scope: Option<seq<string>>, txMode: Option<TransactionMode>,
                              stores: seq<string>, mode: TransactionMode): (b: bool)
    ensures b ==> storeNamesField.Some?
    ensures b ==> SameScope(scope, txMode, stores, mode)
  {
    if storeNamesField.None? || txMode.None? then false
    else if mode != txMode.value then false
    else if scope.None? || |scope.value| != |stores| then false
    else AllIn(stores, scope.value)
  }

  /**
   * `sameScope` as evidently intended, reading the recorded scope: the same
   * mode, as many stores, and every requested store in the scope.
   */
  function SameScope(scope: Option<seq<string>>, txMode: Option<TransactionMode>, stores: seq<string>, mode: TransactionMode): (b: bool)
    ensures b <==> scope.Some? && txMode.Some? && mode == txMode.value
                   && |stores| == |scope.value| && forall s :: s in stores ==> s in scope.value
  {
    if scope.None? || txMode.None? then false
    else if mode != txMode.value then false
    else if |scope.value| != |stores| then false
    else AllIn(stores, scope.value)
  }

  /** The same scope is in particular a sub-scope; a recorded scope is the same scope as itself. */
  lemma SameScopeIsSubScope(scope: Option<seq<string>>, txMode: Option<TransactionMode>, stores: seq<string>, mode: TransactionMode)
    ensures SameScope(scope, txMode, stores, mode) ==> SubScope(scope, txMode, stores, mode)
    ensures scope.Some? && txMode.Some? ==> SameScope(scope, txMode, scope.value, txMode.value)
  {
  }

  /** The as-written `sameScope` rejects even the recorded scope itself, which the intended one accepts. */
  lemma SameScopeAsWrittenRejectsOwnScope(scope: seq<string>, txMode: TransactionMode)
    ensures !SameScopeAsWritten(None, Some(scope), Some(txMode), scope, txMode)
    ensures SameScope(Some(scope), Some(txMode), scope, txMode)
  {
  }

  /** A read-write scope covers every read-only request over a subset of its stores that is no longer than it. */
  lemma ReadWriteCoversReadOnly(scope: seq<string>, stores: seq<string>)
    requires |stores| <= |scope| && forall s :: s in stores ==> s in scope
    ensures SubScope(Some(scope), Some(ReadWrite), stores, ReadOnly)
    ensures !SubScope(Some(scope), Some(ReadOnly), stores, ReadWrite)
  {
  }

  /** Which handler a transaction request was opened with. */
  datatype Kind = ByExec | ByProcessTx

  /** A transaction asked of the storage, for callback `callback`, with completion handler `handler`. */
  datatype Request = Request(callback: nat, stores: seq<string>, mode: TransactionMode, handler: Option<nat>, kind: Kind)

  class Parallel {
    var tx: Option<Tx>
    var scope: Option<seq<string>>
    var mode: Option<TransactionMode>
    var requested: seq<Request>
    /**
     * Callbacks called, in order, with what they were handed: `exec`'s
     * callbacks get the transaction, `processTx`'s get the thread.
     */
    var served: seq<(nat, Handed)>
    /** The requests whose completion handler was called, with the event type. */
    var notified: seq<(nat, TxEventType)>
    /** The requests whose completion handler has been released. */
    var released: set<nat>
    var aborted: seq<Tx>

    ghost predicate Valid()
      reads this
    {
      && (forall k :: k in released ==> k < |requested|)
      && (forall i :: 0 <= i < |notified| ==> notified[i].0 in released)
      && (forall i, j :: 0 <= i < j < |notified| ==> notified[i].0 != notified[j].0)
    }

    constructor ()
      ensures Valid() && tx.None? && scope.None? && mode.None?
      ensures requested == [] && served == [] && notified == [] && released == {} && aborted == []
    {
      tx := None;
      scope := None;
      mode := None;
      requested := [];
      served := [];
      notified := [];
      released := {};
      aborted := [];
    }

    /** `isActive`: a transaction is held. */
    function IsActive(): (b: bool)
      reads this
      ensures b <==> tx.Some?
    {
      tx.Some?
    }

    /**
     * `exec`: with an active transaction the policy accepts, the callback
     * runs at once with it; otherwise the scope and mode are recorded and a
     * transaction is asked of the storage.
     */
    method Exec(callback: nat, stores: seq<string>, reqMode: TransactionMode, handler: Option<nat>, reused: bool)
      requires Valid()
      modifies this
      ensures Valid()
      ensures old(tx).Some? && reused ==>
                && served == old(served) + [(callback, HandedTx(old(tx).value))]
                && requested == old(requested) && scope == old(scope) && mode == old(mode)
      ensures !(old(tx).Some? && reused) ==>
                && served == old(served)
                && requested == old(requested) + [Request(callback, stores, reqMode, handler, ByExec)]
                && scope == Some(stores) && mode == Some(reqMode)
      ensures tx == old(tx) && notified == old(notified) && released == old(released)
    {
      if tx.Some? && reused {
        served := served + [(callback, HandedTx(tx.value))];
      } else {
        scope := Some(stores);
        mode := Some(reqMode);
        requested := requested + [Request(callback, stores, reqMode, handler, ByExec)];
      }
    }

    /** `processTx`: ask the storage for a transaction without recording its scope. */
    method ProcessTx(callback: nat, stores: seq<string>, reqMode: TransactionMode, handler: Option<nat>)
      requires Valid()
      modifies this
      ensures Valid()
      ensures requested == old(requested) + [Request(callback, stores, reqMode, handler, ByProcessTx)]
      ensures tx == old(tx) && scope == old(scope) && mode == old(mode) && served == old(served)
      ensures notified == old(notified) && released == old(released)
    {
      requested := requested + [Request(callback, stores, reqMode, handler, ByProcessTx)];
    }

    /**
     * The storage runs request `k`'s transaction: it is held, then the
     * callback runs, handed the transaction for `exec` and the thread for
     * `processTx`.
     */
    method Process(k: nat, t: Tx)
      requires Valid() && k < |requested|
      modifies this
      ensures Valid() && tx == Some(t)
      ensures served == old(served) + [(old(requested)[k].callback, if old(requested)[k].kind.ByExec? then HandedTx(t) else HandedThread)]
      ensures requested == old(requested) && scope == old(scope) && mode == old(mode)
      ensures notified == old(notified) && released == old(released)
    {
      tx := Some(t);
      served := served + [(requested[k].callback, if requested[k].kind.ByExec? then HandedTx(t) else HandedThread)];
    }

    /**
     * The storage reports request `k`'s transaction over: the transaction
     * (and, for `exec`, the scope and mode) is cleared before the handler
     * runs, and the handler runs at most once.
     */
    method Complete(k: nat, kind: TxEventType)
      requires Valid() && k < |requested|
      modifies this
      ensures Valid() && tx.None?
      ensures old(requested)[k].kind.ByExec? ==> scope.None? && mode.None?
      ensures old(requested)[k].kind.ByProcessTx? ==> scope == old(scope) && mode == old(mode)
      ensures notified == old(notified) + (if old(requested)[k].handler.Some? && k !in old(released) then [(k, kind)] else [])
      ensures released == old(released) + (if old(requested)[k].handler.Some? then {k} else {})
      ensures requested == old(requested) && served == old(served)
    {
      tx := None;
      if requested[k].kind.ByExec? {
        scope := None;
        mode := None;
      }
      var h := requested[k].handler;
      if h.Some? && k !in released {
        notified := notified + [(k, kind)];
      }
      if h.Some? {
        released := released + {k};
      }
    }

    /** `abort`: abort the held transaction, or refuse when there is none. */
    method Abort() returns (r: Result<(), Error>)
      requires Valid()
      modifies this
      ensures Valid()
      ensures r.Success? <==> old(tx).Some?
      ensures r.Success? ==> aborted == old(aborted) + [old(tx).value]
      ensures r.Failure? ==> r.error == InvalidOperationException && aborted == old(aborted)
      ensures tx == old(tx) && requested == old(requested) && served == old(served)
    {
      if tx.Some? {
        aborted := aborted + [tx.value];
        r := Success(());
      } else {
        r := Failure(InvalidOperationException);
      }
    }
  }
}
