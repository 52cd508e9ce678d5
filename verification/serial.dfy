/**
 * The serial transaction thread (js/ydn/db/tr/serial.js): requests that
 * arrive while a transaction is active wait in a first-in first-out queue;
 * a completed transaction releases the mutex and starts the next queued
 * request. The storage's `transaction` call, the mutex and the user's
 * transaction function are outside the model: a backend transaction request
 * is recorded, and the storage's later callbacks are the methods `Process`
 * and `Completed`.
 */
module SerialThread {
  import opened Wrappers
  import opened Base

  /** The store-name argument of `run`, by shape. */
  datatype NameElem = NameStr(s: string) | NameOther
  datatype StoreNamesArg = NamesString(name: string) | NamesArray(elems: seq<NameElem>) | NamesOther

  /**
   * Normalising the store names: a string becomes a one-element list; an
   * array is taken as it is unless its first element is not a string;
   * anything else is refused.
   */
  function NormalizeStores(arg: StoreNamesArg): (r: Result<seq<NameElem>, Error>)
    ensures arg.NamesString? ==> r == Success([NameStr(arg.name)])
    ensures arg.NamesArray? ==> (r.Success? <==> |arg.elems| == 0 || arg.elems[0].NameStr?)
    ensures arg.NamesArray? && r.Success? ==> r.value == arg.elems
    ensures arg.NamesOther? ==> r.Failure?
    ensures r.Failure? ==> r.error == ArgumentException
  {
    match arg
    case NamesString(s) => Success([NameStr(s)])
    case NamesArray(elems) => if |elems| > 0 && !elems[0].NameStr? then Failure(ArgumentException) else Success(elems)
    case NamesOther => Failure(ArgumentException)
  }

  /** A transaction function: its name (the scope name) and the arguments bound after the thread. */
  datatype TxFn = TxFn(name: string, bound: seq<int>)

  /** What a transaction function receives: the thread, then its bound arguments. */
  datatype CallArg = ThreadArg | UserArg(v: int)

  function CallArgs(fn: TxFn): (args: seq<CallArg>)
    ensures |args| == 1 + |fn.bound| && args[0] == ThreadArg
    ensures forall k :: 0 <= k < |fn.bound| ==> args[k + 1] == UserArg(fn.bound[k])
  {
    [ThreadArg] + seq(|fn.bound|, k requires 0 <= k < |fn.bound| => UserArg(fn.bound[k]))
  }

  /**
   * The name an engine gives the anonymous wrapper assigned to the variable
   * `outFn`: ES2015 names it after the variable, and a function's `name` is
   * read-only, so the assignment of the scope name to it has no effect.
   */
  const WRAPPER_NAME: string := "outFn"

  /**
   * `run` with extra arguments wraps the function so that they follow its
   * own arguments; the wrapper carries its own name, not the original's.
   */
  function Wrap(fn: TxFn, extra: seq<int>): (w: TxFn)
    ensures |extra| == 0 ==> w == fn
    ensures |extra| > 0 ==> w.name == WRAPPER_NAME && |w.bound| == |fn.bound| + |extra|
  {
    if |extra| == 0 then fn else TxFn(WRAPPER_NAME, fn.bound + extra)
  }

  /** The wrapped function is called with the thread, the function's arguments, then the extra ones. */
  lemma WrapAppendsArguments(fn: TxFn, extra: seq<int>)
    ensures CallArgs(Wrap(fn, extra)) == CallArgs(fn) + seq(|extra|, k requires 0 <= k < |extra| => UserArg(extra[k]))
  {
    var lhs := CallArgs(Wrap(fn, extra));
    var rhs := CallArgs(fn) + seq(|extra|, k requires 0 <= k < |extra| => UserArg(extra[k]));
    assert |lhs| == |rhs|;
    forall k | 0 <= k < |lhs|
      ensures lhs[k] == rhs[k]
    {
      if k > 0 && k - 1 >= |fn.bound| {
        assert lhs[k] == UserArg(Wrap(fn, extra).bound[k - 1]);
      }
    }
  }

  /**
   * The transaction mutex, reduced to what the thread observes: the
   * transaction it holds, whether the transaction function's synchronous
   * scope is over, the lock flag and the number of transactions so far.
   */
  datatype Mutex = Mutex(tx: Option<Tx>, outOfScope: bool, locked: bool, txCount: nat, scopeName: string) {
    predicate IsActive() { tx.Some? }
    predicate IsActiveAndAvailable() { IsActive() && !outOfScope }

    /** A transaction starts: it is held and numbered. */
    function Up(t: Tx, scope: string): (m: Mutex)
      ensures m.IsActiveAndAvailable() && m.tx == Some(t) && m.txCount == txCount + 1 && m.locked == locked
    {
      Mutex(Some(t), false, locked, txCount + 1, scope)
    }

    /** The transaction function has returned; the transaction stays active for later requests. */
    function Out(): (m: Mutex)
      ensures m.IsActive() == IsActive() && !m.IsActiveAndAvailable() && m.txCount == txCount
    {
      this.(outOfScope := true)
    }

    /** The transaction has ended. */
    function Down(): (m: Mutex)
      ensures !m.IsActive() && m.txCount == txCount && m.locked == locked
    {
      Mutex(None, false, locked, txCount, scopeName)
    }
  }

  const INITIAL_MUTEX: Mutex := Mutex(None, false, false, 0, "")

  /** A queued request, as `pushTxQueue` stores it. */
  datatype Task = Task(fn: TxFn, storeNames: StoreNamesArg, mode: TransactionMode, handler: Option<nat>)

  /**
   * A transaction asked of the storage: the function to call, and the scope
   * name the mutex takes up, which is the name of the function given to `run`.
   */
  datatype Request = Request(fn: TxFn, scope: string, names: seq<NameElem>, mode: TransactionMode, handler: Option<nat>)

  class Serial {
    var queue: seq<Task>
    var mu: Mutex
    var running: bool
    /** The transactions asked of the storage, in order. */
    var requested: seq<Request>
    /** The transaction functions called, in order. */
    var invoked: seq<TxFn>
    /** The completion handlers called, with the event type. */
    var notified: seq<(nat, TxEventType)>
    var aborted: seq<Tx>
    /** Every task ever queued, and those taken off the head. */
    ghost var enqueued: seq<Task>
    ghost var dequeued: seq<Task>

    /** The queue is first-in first-out, and only requests that passed `run`'s checks wait in it. */
    ghost predicate Valid()
      reads this
    {
      && dequeued + queue == enqueued
      && forall t :: t in queue ==> NormalizeStores(t.storeNames).Success?
    }

    constructor ()
      ensures Valid() && queue == [] && mu == INITIAL_MUTEX && !running
      ensures requested == [] && invoked == [] && notified == [] && aborted == []
    {
      queue := [];
      mu := INITIAL_MUTEX;
      running := false;
      requested := [];
      invoked := [];
      notified := [];
      aborted := [];
      enqueued := [];
      dequeued := [];
    }

    /** `getTx`: the transaction, only while the mutex is active and available. */
    function GetTx(): (t: Option<Tx>)
      reads this
      ensures t.Some? <==> mu.IsActiveAndAvailable()
      ensures t.Some? ==> t == mu.tx
    {
      if mu.IsActiveAndAvailable() then mu.tx else None
    }

    /** `getActiveTx`: the mutex itself, on the same condition. */
    function GetActiveTx(): (m: Option<Mutex>)
      reads this
      ensures m.Some? <==> GetTx().Some?
      ensures m.Some? ==> m.value == mu
    {
      if mu.IsActiveAndAvailable() then Some(mu) else None
    }

    /** `getTxNo`: the number of transactions the mutex has seen. */
    function GetTxNo(): (n: nat)
      reads this
      ensures n == mu.txCount
    {
      mu.txCount
    }

    /**
     * `run`: check the store names, default the mode to read-only and bind
     * any extra arguments; while a transaction is active the request is
     * queued, otherwise a transaction is asked of the storage.
     */
    method Run(fn: TxFn, storeNames: StoreNamesArg, mode: Option<TransactionMode>, handler: Option<nat>, extra: seq<int>)
      returns (r: Result<(), Error>)
      requires Valid()
      modifies this
      ensures Valid()
      ensures r.Success? <==> NormalizeStores(storeNames).Success?
      ensures r.Failure? ==> r.error == ArgumentException && unchanged(this)
      ensures r.Success? && old(mu).IsActive() ==>
                && queue == old(queue) + [Task(Wrap(fn, extra), storeNames, mode.GetOr(ReadOnly), handler)]
                && requested == old(requested)
      ensures r.Success? && !old(mu).IsActive() ==>
                && queue == old(queue)
                && requested == old(requested) + [Request(Wrap(fn, extra), fn.name, NormalizeStores(storeNames).value, mode.GetOr(ReadOnly), handler)]
      ensures mu == old(mu) && running == old(running) && invoked == old(invoked)
      ensures notified == old(notified) && aborted == old(aborted) && dequeued == old(dequeued)
    {
      var names := NormalizeStores(storeNames);
      if names.Failure? {
        return Failure(names.error);
      }
      var m := mode.GetOr(ReadOnly);
      var outFn := Wrap(fn, extra);
      if mu.IsActive() {
        PushTxQueue(outFn, storeNames, m, handler);
      } else {
        requested := requested + [Request(outFn, fn.name, names.value, m, handler)];
      }
      r := Success(());
    }

    /** `pushTxQueue`: append at the tail. */
    method PushTxQueue(fn: TxFn, storeNames: StoreNamesArg, mode: TransactionMode, handler: Option<nat>)
      requires Valid() && NormalizeStores(storeNames).Success?
      modifies this
      ensures Valid()
      ensures queue == old(queue) + [Task(fn, storeNames, mode, handler)]
      ensures enqueued == old(enqueued) + [Task(fn, storeNames, mode, handler)] && dequeued == old(dequeued)
      ensures mu == old(mu) && running == old(running) && requested == old(requested)
      ensures invoked == old(invoked) && notified == old(notified) && aborted == old(aborted)
    {
      var t := Task(fn, storeNames, mode, handler);
      queue := queue + [t];
      enqueued := enqueued + [t];
    }

    /** `popTxQueue_`: take the head, if any, and run it again. */
    method PopTxQueue()
      requires Valid() && !mu.IsActive()
      modifies this
      ensures Valid()
      ensures old(queue) == [] ==> queue == [] && requested == old(requested) && dequeued == old(dequeued)
      ensures old(queue) != [] ==>
                var t := old(queue)[0];
                && queue == old(queue)[1..]
                && dequeued == old(dequeued) + [t]
                && requested == old(requested) + [Request(t.fn, t.fn.name, NormalizeStores(t.storeNames).value, t.mode, t.handler)]
      ensures mu == old(mu) && running == old(running) && invoked == old(invoked)
      ensures notified == old(notified) && aborted == old(aborted) && enqueued == old(enqueued)
    {
      if |queue| > 0 {
        var t := queue[0];
        assert t in queue;
        queue := queue[1..];
        dequeued := dequeued + [t];
        assert dequeued + queue == old(dequeued) + old(queue);
        var ok := Run(t.fn, t.storeNames, Some(t.mode), t.handler, []);
      }
    }

    /**
     * The storage runs request `k`'s transaction: the mutex goes up with the
     * transaction, the function runs, and the mutex marks its scope over.
     */
    method Process(k: nat, t: Tx)
      requires Valid() && k < |requested|
      modifies this
      ensures Valid() && running
      ensures mu == old(mu).Up(t, old(requested)[k].scope).Out()
      ensures invoked == old(invoked) + [old(requested)[k].fn]
      ensures queue == old(queue) && requested == old(requested) && notified == old(notified) && aborted == old(aborted)
    {
      running := true;
      mu := mu.Up(t, requested[k].scope);
      invoked := invoked + [requested[k].fn];
      mu := mu.Out();
    }

    /**
     * The storage reports request `k`'s transaction over: the handler is
     * called, then the mutex goes down and, when the storage has no
     * transaction of its own waiting, the next queued request runs. A
     * throwing handler is passed on only in debug builds, after all of that.
     */
    method Completed(k: nat, kind: TxEventType, handlerThrows: bool, debug: bool, baseQueueCount: nat)
      returns (r: Result<(), Error>)
      requires Valid() && k < |requested|
      modifies this
      ensures Valid() && !running && !mu.IsActive() && mu.txCount == old(mu).txCount
      ensures notified == old(notified) + (if old(requested)[k].handler.Some? then [(old(requested)[k].handler.value, kind)] else [])
      ensures r.Failure? <==> old(requested)[k].handler.Some? && handlerThrows && debug
      ensures r.Failure? ==> r.error == CallbackException
      ensures baseQueueCount != 0 || old(queue) == [] ==> queue == old(queue) && requested == old(requested)
      ensures baseQueueCount == 0 && old(queue) != [] ==>
                var t := old(queue)[0];
                && queue == old(queue)[1..]
                && requested == old(requested) + [Request(t.fn, t.fn.name, NormalizeStores(t.storeNames).value, t.mode, t.handler)]
    {
      var h := requested[k].handler;
      if h.Some? {
        notified := notified + [(h.value, kind)];
      }
      mu := mu.Down();
      running := false;
      if baseQueueCount == 0 {
        PopTxQueue();
      }
      if h.Some? && handlerThrows && debug {
        r := Failure(CallbackException);
      } else {
        r := Success(());
      }
    }

    /** `abort`: abort the mutex's transaction, or refuse when there is none. */
    method Abort() returns (r: Result<(), Error>)
      requires Valid()
      modifies this
      ensures Valid()
      ensures r.Success? <==> old(mu).IsActive()
      ensures r.Success? ==> aborted == old(aborted) + [old(mu).tx.value]
      ensures r.Failure? ==> r.error == InvalidStateError && aborted == old(aborted)
      ensures queue == old(queue) && mu == old(mu) && requested == old(requested)
    {
      if mu.IsActive() {
        aborted := aborted + [mu.tx.value];
        r := Success(());
      } else {
        r := Failure(InvalidStateError);
      }
    }
  }
}
