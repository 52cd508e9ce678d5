/**
 * The single-transaction thread (js/ydn/db/tr/single.js): one physical
 * transaction over the thread's whole life. Requests made while it is live
 * run in it; once it has ended, further requests are refused. The inherited
 * `processTx` behaviour (the transaction is held while it runs and cleared
 * when it completes) is restated here for this class.
 */
module SingleThread {
  import opened Wrappers
  import opened Base

  /** The transaction asked of the storage: the callback, its deferred result, the scope and the handler. */
  datatype Request = Request(callback: nat, df: nat, stores: seq<string>, mode: TransactionMode, handler: Option<nat>)

  class Single {
    var tx: Option<Tx>
    var done: bool
    var requested: seq<Request>
    /**
     * Callbacks called, with their deferred result and what they were handed:
     * the transaction itself, or the thread for the first request, whose
     * callback is called by the inherited `processTx` with the thread.
     */
    var served: seq<(nat, nat, Handed)>
    /** The event types the completion handler was called with. */
    var notified: seq<TxEventType>
    /** The inherited completion handler has dropped the request's handler after calling it. */
    var released: bool

    /**
     * At most one transaction is ever asked for, and exactly one once `done`
     * is set; the request's handler is called at most once.
     */
    ghost predicate Valid()
      reads this
    {
      && |requested| <= 1
      && (done <==> |requested| == 1)
      && (tx.Some? ==> done)
      && (released <==> |notified| == 1)
      && |notified| <= 1
      && (released ==> |requested| == 1 && requested[0].handler.Some?)
    }

    constructor ()
      ensures Valid() && tx.None? && !done && requested == [] && served == []
      ensures notified == [] && !released
    {
      tx := None;
      done := false;
      requested := [];
      served := [];
      notified := [];
      released := false;
    }

    /**
     * `exec(df, callback, stores, mode, scope, onCompleted)`: with a live
     * transaction the callback runs at once; with none after the first, the
     * request is refused; the first request marks the thread done before it
     * asks for the transaction.
     */
    method Exec(df: nat, callback: nat, stores: seq<string>, mode: TransactionMode, handler: Option<nat>)
      returns (r: Result<(), Error>)
      requires Valid()
      modifies this
      ensures Valid() && done
      ensures r.Failure? <==> old(tx).None? && old(done)
      ensures r.Failure? ==> r.error == InvalidStateError
      ensures old(tx).Some? ==> served == old(served) + [(callback, df, HandedTx(old(tx).value))] && requested == old(requested)
      ensures old(tx).None? && !old(done) ==>
                requested == [Request(callback, df, stores, mode, handler)] && served == old(served)
      ensures r.Failure? ==> requested == old(requested) && served == old(served)
      ensures tx == old(tx) && notified == old(notified) && released == old(released)
    {
      if tx.Some? {
        served := served + [(callback, df, HandedTx(tx.value))];
        r := Success(());
      } else if done {
        r := Failure(InvalidStateError);
      } else {
        done := true;
        requested := requested + [Request(callback, df, stores, mode, handler)];
        r := Success(());
      }
    }

    /**
     * The storage runs the transaction: it is held while the first callback
     * runs, and that callback is handed the thread, not the transaction.
     */
    method Process(t: Tx)
      requires Valid() && |requested| == 1
      modifies this
      ensures Valid() && tx == Some(t)
      ensures served == old(served) + [(requested[0].callback, requested[0].df, HandedThread)]
      ensures requested == old(requested) && done == old(done)
      ensures notified == old(notified) && released == old(released)
    {
      tx := Some(t);
      served := served + [(requested[0].callback, requested[0].df, HandedThread)];
    }

    /**
     * The storage reports the transaction over with `kind`: it is no longer
     * held, the thread stays done, and the request's handler, if it has one,
     * is called with `kind` unless it has been called already.
     */
    method Complete(kind: TxEventType)
      requires Valid() && |requested| == 1
      modifies this
      ensures Valid() && tx.None? && done == old(done) && requested == old(requested) && served == old(served)
      ensures notified == old(notified) + (if requested[0].handler.Some? && !old(released) then [kind] else [])
      ensures released == (old(released) || requested[0].handler.Some?)
    {
      tx := None;
      if requested[0].handler.Some? && !released {
        notified := notified + [kind];
      }
      if requested[0].handler.Some? {
        released := true;
      }
    }
  }
}
