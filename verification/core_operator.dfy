/**
 * The iterator-driven operations of the database operator
 * (src/ydn/db/core/operator.js): argument checks for `get`/`keys`/`count`/
 * `values` on an iterator, the multi-cursor `scan` with its solver protocol,
 * `open`'s callback protocol, and `map`/`reduce`. The solver and the user
 * callbacks are function parameters; the cursors a scan drives are reduced
 * to the calls made on them.
 */
module CoreOperator {
  import opened Wrappers
  import opened Base
  import opened Keys
  import opened Collections
  import opened CoreIterator

  // ---------------------------------------------------------------------
  // Argument checks of the iterator forms of get, keys, count and values

  /** An optional argument as the checks see it: absent, a number, or anything else. */
  datatype Arg = Absent | NumArg(x: int) | OtherArg

  /** The request kinds the operator queues on its thread. */
  datatype RequestMethod = GetIter | KeysIter | Count

  /** A queued request: its kind, its store scope, and the result limit where one applies. */
  datatype IterRequest = IterRequest(kind: RequestMethod, scope: seq<string>, limit: nat)

  /** What `values(iterator, ...)` does once its arguments pass: hand over to the plain `values`. */
  datatype ValuesOutcome = Delegated(limit: Option<nat>)

  /** The limit argument of `keys`/`values`: a number of at least 1, or absent. */
  function LimitArg(arg: Arg, default: Option<nat>): (r: Result<Option<nat>, Error>)
    ensures r.Success? <==> arg.Absent? || (arg.NumArg? && arg.x >= 1)
    ensures r.Success? && arg.NumArg? ==> r.value == Some(arg.x as nat)
    ensures r.Success? && arg.Absent? ==> r.value == default
    ensures r.Failure? ==> r.error == ArgumentException
  {
    match arg
    case Absent => Success(default)
    case NumArg(x) => if x < 1 then Failure(ArgumentException) else Success(Some(x as nat))
    case OtherArg => Failure(ArgumentException)
  }

  /**
   * `get(iterator)`: the store must exist in the schema and, when the
   * iterator names an index, the store must have it; the request covers the
   * iterator's own store only.
   */
  function GetByIterator(it: IterSpec, schema: map<string, set<string>>): (r: Result<IterRequest, Error>)
    ensures r.Success? <==> it.store in schema && (it.index.None? || it.index.value in schema[it.store])
    ensures r.Success? ==> r.value.kind == GetIter && r.value.scope == [it.store]
    ensures r.Failure? ==> r.error == ArgumentException
  {
    if it.store !in schema then Failure(ArgumentException)
    else if it.index.Some? && it.index.value !in schema[it.store] then Failure(ArgumentException)
    else Success(IterRequest(GetIter, [it.store], 1))
  }

  /** `keys(iterator, limit)`: limit defaults to 100; an offset is refused. */
  function KeysByIterator(it: IterSpec, limit: Arg, offset: Arg): (r: Result<IterRequest, Error>)
    ensures r.Success? <==> LimitArg(limit, None).Success? && offset.Absent?
    ensures r.Success? ==> r.value.kind == KeysIter && r.value.scope == Stores(it)
    ensures r.Success? && limit.Absent? ==> r.value.limit == DEFAULT_RESULT_LIMIT
    ensures r.Success? && limit.NumArg? ==> r.value.limit == limit.x && r.value.limit >= 1
    ensures r.Failure? ==> r.error == ArgumentException
  {
    var l := LimitArg(limit, Some(DEFAULT_RESULT_LIMIT));
    if l.Failure? then Failure(l.error)
    else if !offset.Absent? then Failure(ArgumentException)
    else Success(IterRequest(KeysIter, Stores(it), l.value.GetOr(DEFAULT_RESULT_LIMIT)))
  }

  /** `count(iterator)`: any further argument is refused. */
  function CountByIterator(it: IterSpec, arg2: Arg, arg3: Arg): (r: Result<IterRequest, Error>)
    ensures r.Success? <==> arg2.Absent? && arg3.Absent?
    ensures r.Success? ==> r.value.kind == Count && r.value.scope == Stores(it)
    ensures r.Failure? ==> r.error == ArgumentException
  {
    if !arg2.Absent? || !arg3.Absent? then Failure(ArgumentException)
    else Success(IterRequest(Count, Stores(it), 0))
  }

  /** `values(iterator, limit)`: the same checks as `keys`, then the plain `values` takes over. */
  function ValuesByIterator(it: IterSpec, limit: Arg, offset: Arg): (r: Result<ValuesOutcome, Error>)
    ensures r.Success? <==> LimitArg(limit, None).Success? && offset.Absent?
    ensures r.Success? ==> r.value.limit == (if limit.NumArg? then Some(limit.x as nat) else None)
    ensures r.Failure? ==> r.error == ArgumentException
  {
    var l := LimitArg(limit, None);
    if l.Failure? then Failure(l.error)
    else if !offset.Absent? then Failure(ArgumentException)
    else Success(Delegated(l.value))
  }

  // ---------------------------------------------------------------------
  // Scan: transaction scope

  /** The stores of all iterators, in order, with repetitions. */
  function AllStores(its: seq<IterSpec>): seq<string> {
    if |its| == 0 then [] else AllStores(its[..|its| - 1]) + Stores(its[|its| - 1])
  }

  /**
   * The scope loop of `scan`: every store of every iterator, each listed
   * once, in order of first appearance; the transaction is read-only.
   */
  method ScanScope(its: seq<IterSpec>) returns (scopes: seq<string>, mode: TransactionMode)
    ensures scopes == Dedup(AllStores(its)) && mode == ReadOnly
    ensures Distinct(scopes)
    ensures forall s :: s in scopes <==> exists i :: 0 <= i < |its| && s in Stores(its[i])
  {
    mode := ReadOnly;
    scopes := [];
    var i := 0;
    while i < |its|
      invariant 0 <= i <= |its|
      invariant scopes == Dedup(AllStores(its[..i]))
    {
      var stores := Stores(its[i]);
      scopes := AddScopes(scopes, AllStores(its[..i]), stores);
      assert its[..i + 1][..i] == its[..i];
      assert AllStores(its[..i + 1]) == AllStores(its[..i]) + stores;
      i := i + 1;
    }
    assert its[..i] == its;
    DedupSpec(AllStores(its));
    AllStoresMembers(its);
  }

  /** The inner loop of the scope computation: add each store not yet listed. */
  method AddScopes(scopes: seq<string>, ghost seen: seq<string>, stores: seq<string>) returns (r: seq<string>)
    requires scopes == Dedup(seen)
    ensures r == Dedup(seen + stores)
  {
    r := scopes;
    var j := 0;
    assert seen + stores[..0] == seen;
    while j < |stores|
      invariant 0 <= j <= |stores|
      invariant r == Dedup(seen + stores[..j])
    {
      DedupAppend(seen + stores[..j], stores[j]);
      assert seen + stores[..j + 1] == (seen + stores[..j]) + [stores[j]];
      if stores[j] !in r {
        r := r + [stores[j]];
      }
      j := j + 1;
    }
    assert stores[..j] == stores;
  }

  lemma {:induction false} AllStoresMembers(its: seq<IterSpec>)
    ensures forall s :: s in AllStores(its) <==> exists i :: 0 <= i < |its| && s in Stores(its[i])
  {
    if |its| > 0 {
      var init := its[..|its| - 1];
      AllStoresMembers(init);
      forall s | s in AllStores(its)
        ensures exists i :: 0 <= i < |its| && s in Stores(its[i])
      {
        if s in AllStores(init) {
          var i :| 0 <= i < |init| && s in Stores(init[i]);
          assert its[i] == init[i];
        } else {
          assert s in Stores(its[|its| - 1]);
        }
      }
      forall s, i | 0 <= i < |its| && s in Stores(its[i])
        ensures s in AllStores(its)
      {
        if i < |its| - 1 {
          assert its[i] == init[i];
        }
      }
    }
  }

  // ---------------------------------------------------------------------
  // Scan: the solver's output

  /** One slot of an array output: `true`, `false`, or any other value (`undefined` moves nothing). */
  datatype Slot = SlotTrue | SlotFalse | SlotKey(key: MaybeKey)

  /** The solver's output, by shape. An object lists its attribute names and its four vectors. */
  datatype Output =
    | ArrayOut(slots: seq<Slot>)
    | NullOut
    | UndefinedOut
    | ObjectOut(attributes: set<string>, continuePrimary: seq<MaybeKey>, continueKeys: seq<MaybeKey>,
                advance: seq<Option<int>>, restart: seq<Option<bool>>)
    | OtherOut

  const VALID_ATTRIBUTES: set<string> := {"advance", "continue", "continuePrimary", "restart"}

  /** The four advancement vectors the scan builds from the output (missing entries are undefined). */
  datatype Plan = Plan(primary: seq<MaybeKey>, effective: seq<MaybeKey>, advance: seq<Option<int>>, restart: seq<Option<bool>>)

  function KeyAt(s: seq<MaybeKey>, i: nat): MaybeKey {
    if i < |s| then s[i] else Undefined
  }

  function OptAt<T>(s: seq<Option<T>>, i: nat): Option<T> {
    if i < |s| then s[i] else None
  }

  /** Iterator `i` moves when any of its four entries is set (a null `continue` counts). */
  predicate Moves(p: Plan, i: nat) {
    KeyAt(p.primary, i).Defined? || !KeyAt(p.effective, i).Undefined?
    || OptAt(p.restart, i).Some? || OptAt(p.advance, i).Some?
  }

  /** The call a moving iterator gets, restart first, then continue, continuePrimary, advance. */
  datatype Action = RestartCursor(flag: bool) | ContinueKey(key: MaybeKey) | ContinuePrimary(primaryKey: Key) | AdvanceBy(step: int) | Stay

  function ActionOf(p: Plan, i: nat): (a: Action)
    ensures a.Stay? <==> !Moves(p, i)
    ensures OptAt(p.restart, i).Some? ==> a.RestartCursor?
    ensures a.ContinueKey? ==> OptAt(p.restart, i).None? && a.key == KeyAt(p.effective, i)
    ensures a.ContinuePrimary? ==> OptAt(p.restart, i).None? && KeyAt(p.effective, i).Undefined?
    ensures a.AdvanceBy? ==> OptAt(p.restart, i).None? && KeyAt(p.effective, i).Undefined? && !KeyAt(p.primary, i).Defined?
  {
    if OptAt(p.restart, i).Some? then RestartCursor(OptAt(p.restart, i).value)
    else if !KeyAt(p.effective, i).Undefined? then ContinueKey(KeyAt(p.effective, i))
    else if KeyAt(p.primary, i).Defined? then ContinuePrimary(KeyAt(p.primary, i).k)
    else if OptAt(p.advance, i).Some? then AdvanceBy(OptAt(p.advance, i).value)
    else Stay
  }

  /** What an array slot asks of its iterator. */
  function SlotAction(slots: seq<Slot>, i: nat): Action {
    if i >= |slots| then Stay
    else match slots[i]
      case SlotTrue => AdvanceBy(1)
      case SlotFalse => RestartCursor(true)
      case SlotKey(k) => if k.Undefined? then Stay else ContinueKey(k)
  }

  /**
   * Decoding the solver's output for `n` iterators: an array is read slot by
   * slot; `undefined` advances every iterator by one; `null` moves none; an
   * object gives the four vectors, and in debug builds any other attribute
   * is refused; anything else is refused.
   */
  function Decode(out: Output, n: nat): (r: Result<Plan, Error>)
    ensures r.Failure? ==> r.error == InvalidOperationException
    ensures out.ArrayOut? ==> r.Success? && forall i :: ActionOf(r.value, i) == SlotAction(out.slots, i)
    ensures out.UndefinedOut? ==> r.Success? && forall i :: 0 <= i < n ==> ActionOf(r.value, i) == AdvanceBy(1)
    ensures out.UndefinedOut? ==> r.Success? && forall i :: i >= n ==> !Moves(r.value, i)
    ensures out.NullOut? ==> r.Success? && forall i :: !Moves(r.value, i)
    ensures out.ObjectOut? ==> (r.Success? <==> out.attributes <= VALID_ATTRIBUTES)
    ensures out.ObjectOut? && r.Success? ==>
              r.value == Plan(out.continuePrimary, out.continueKeys, out.advance, out.restart)
    ensures out.OtherOut? ==> r.Failure?
  {
    match out
    case ArrayOut(slots) =>
      var p := Plan([],
                    seq(|slots|, i requires 0 <= i < |slots| => if slots[i].SlotKey? then slots[i].key else Undefined),
                    seq(|slots|, i requires 0 <= i < |slots| => if slots[i].SlotTrue? then Some(1) else None),
                    seq(|slots|, i requires 0 <= i < |slots| => if slots[i].SlotFalse? then Some(true) else None));
      assert forall i :: ActionOf(p, i) == SlotAction(slots, i);
      Success(p)
    case NullOut => Success(Plan([], [], [], []))
    case UndefinedOut => Success(Plan([], [], seq(n, _ => Some(1)), []))
    case ObjectOut(attrs, cp, c, adv, rs) =>
      if attrs <= VALID_ATTRIBUTES then Success(Plan(cp, c, adv, rs)) else Failure(InvalidOperationException)
    case OtherOut => Failure(InvalidOperationException)
  }

  /** The iterators among the first `n` that move, in order. */
  function Moving(p: Plan, n: nat): (ms: seq<nat>)
    ensures |ms| <= n
  {
    if n == 0 then [] else Moving(p, n - 1) + (if Moves(p, n - 1) then [n - 1] else [])
  }

  /** `Moving` lists exactly the moving iterators below `n`, in increasing order. */
  lemma {:induction false} MovingSpec(p: Plan, n: nat)
    ensures forall k :: 0 <= k < |Moving(p, n)| ==> Moving(p, n)[k] < n && Moves(p, Moving(p, n)[k])
    ensures forall i :: 0 <= i < n && Moves(p, i) ==> i in Moving(p, n)
    ensures forall k, l :: 0 <= k < l < |Moving(p, n)| ==> Moving(p, n)[k] < Moving(p, n)[l]
  {
    if n > 0 {
      MovingSpec(p, n - 1);
    }
  }

  /**
   * In debug builds, an iterator without a current key may only be
   * restarted: a set advance, continue or continuePrimary entry is refused,
   * whichever of them the action actually uses.
   */
  predicate DebugRefuses(p: Plan, key: MaybeKey, i: nat) {
    !key.Defined?
    && (OptAt(p.advance, i).Some? || !KeyAt(p.effective, i).Undefined? || KeyAt(p.primary, i).Defined?)
  }

  /** The assertions on the chosen action: a restart entry must be `true` and an advance must be 1. */
  predicate AssertRefuses(a: Action) {
    (a.RestartCursor? && !a.flag) || (a.AdvanceBy? && a.step != 1)
  }

  /** Iterator `i`, whose current key is `key`, passes both the debug check and the assertions. */
  predicate Passes(p: Plan, key: MaybeKey, i: nat) {
    !DebugRefuses(p, key, i) && !AssertRefuses(ActionOf(p, i))
  }

  /** `values[i]` in a scan: the primary key for an index key iterator, the effective key for a primary key iterator, the record value otherwise. */
  function ScanValue(it: IterSpec, key: MaybeKey, primary: MaybeKey, value: Option<Value>): (v: Item)
    ensures it.IsKeyIterator() && it.IsIndexIterator() ==> v == AsItem(primary)
    ensures it.IsKeyIterator() && !it.IsIndexIterator() ==> v == AsItem(key)
    ensures it.IsValueIterator() ==> v == (if value.Some? then ValueItem(value.value) else NoItem)
  {
    if it.IsIndexIterator() then
      (if it.IsKeyIterator() then AsItem(primary) else ValueAsItem(value))
    else
      (if it.IsKeyIterator() then AsItem(key) else ValueAsItem(value))
  }

  function AsItem(k: MaybeKey): Item {
    if k.Defined? then KeyItem(k.k) else NoItem
  }

  function ValueAsItem(v: Option<Value>): Item {
    if v.Some? then ValueItem(v.value) else NoItem
  }

  /** A call the scan makes on cursor `i`. */
  datatype CursorCall = Move(i: nat, action: Action) | Exit(i: nat)

  /** How the scan's completion callback was called. */
  datatype Completion = Finished | Failed(error: Error)

  function ExitAll(n: nat): (cs: seq<CursorCall>)
    ensures |cs| == n && forall k :: 0 <= k < n ==> cs[k] == Exit(k)
  {
    if n == 0 then [] else ExitAll(n - 1) + [Exit(n - 1)]
  }

  /** One scan inside its transaction, after `open_iterators`. */
  class ScanRun {
    const iterators: seq<IterSpec>
    var keys: seq<MaybeKey>
    var values: seq<Item>
    var resultCount: nat
    var done: bool
    /** The `cursors` list is still populated. */
    var live: bool
    var calls: seq<CursorCall>
    var completions: seq<Completion>

    ghost predicate Valid()
      reads this
    {
      |keys| == |iterators| && |values| == |iterators|
    }

    constructor (iterators: seq<IterSpec>)
      ensures Valid() && this.iterators == iterators
      ensures keys == seq(|iterators|, _ => Undefined) && values == seq(|iterators|, _ => NoItem)
      ensures resultCount == 0 && !done && live && calls == [] && completions == []
    {
      this.iterators := iterators;
      keys := seq(|iterators|, _ => Undefined);
      values := seq(|iterators|, _ => NoItem);
      resultCount := 0;
      done := false;
      live := true;
      calls := [];
      completions := [];
    }

    /** `do_exit`: exit every cursor, mark the scan done and complete it. */
    method DoExit()
      requires Valid()
      modifies this
      ensures Valid() && done && !live
      ensures calls == old(calls) + (if old(live) then ExitAll(|iterators|) else [])
      ensures completions == old(completions) + [Finished]
      ensures keys == old(keys) && values == old(values) && resultCount == old(resultCount)
    {
      if live {
        calls := calls + ExitAll(|iterators|);
      }
      done := true;
      live := false;
      completions := completions + [Finished];
    }

    /** `on_error`: exit every cursor and complete with the error. */
    method OnError(e: Error)
      requires Valid()
      modifies this
      ensures Valid() && !live && done == old(done)
      ensures calls == old(calls) + (if old(live) then ExitAll(|iterators|) else [])
      ensures completions == old(completions) + [Failed(e)]
      ensures keys == old(keys) && values == old(values) && resultCount == old(resultCount)
    {
      if live {
        calls := calls + ExitAll(|iterators|);
      }
      live := false;
      completions := completions + [Failed(e)];
    }

    /**
     * `on_result_ready`: decode the solver's output, pre-count the iterators
     * that stay, then clear and move each moving iterator in order; with no
     * iterator moved the scan exits.
     */
    method OnResultReady(out: Output) returns (r: Result<(), Error>)
      requires Valid()
      modifies this
      ensures Valid()
      ensures Decode(out, |iterators|).Failure? ==> r == Failure(InvalidOperationException) && unchanged(this)
      ensures Decode(out, |iterators|).Success? ==> RoundDone(Decode(out, |iterators|).value, r, old(keys), old(calls), old(completions), old(done), old(live))
    {
      var d := Decode(out, |iterators|);
      if d.Failure? {
        return Failure(d.error);
      }
      r := MoveRound(d.value);
    }

    /** The state after a round of plan `p` that started from the given state. */
    ghost predicate RoundDone(p: Plan, r: Result<(), Error>, keys0: seq<MaybeKey>, calls0: seq<CursorCall>,
                              completions0: seq<Completion>, done0: bool, live0: bool)
      reads this
      requires Valid() && |keys0| == |iterators|
    {
      var ms := Moving(p, |iterators|);
      && resultCount == |iterators| - |ms|
      && (r.Success? ==>
            && (forall i :: 0 <= i < |iterators| ==> Passes(p, keys0[i], i))
            && calls == calls0 + MoveCalls(p, ms) + (if |ms| == 0 && live0 then ExitAll(|iterators|) else [])
            && (forall i :: 0 <= i < |iterators| ==> keys[i] == if Moves(p, i) then Undefined else keys0[i])
            && (|ms| == 0 <==> done && completions == completions0 + [Finished])
            && (|ms| > 0 ==> done == done0 && completions == completions0))
      && (r.Failure? ==>
            exists i :: 0 <= i < |iterators| && Moves(p, i) && !Passes(p, keys0[i], i))
    }

    /** Clear iterator `i`'s position and make its call, after the debug check and the assertions. */
    method MoveOne(p: Plan, i: nat) returns (r: Result<(), Error>)
      requires Valid() && i < |iterators|
      modifies this
      ensures Valid()
      ensures r.Success? <==> Passes(p, old(keys)[i], i)
      ensures r.Success? ==> keys == old(keys)[i := Undefined] && calls == old(calls) + [Move(i, ActionOf(p, i))]
      ensures done == old(done) && live == old(live) && completions == old(completions) && resultCount == old(resultCount)
    {
      if DebugRefuses(p, keys[i], i) {
        return Failure(InvalidOperationError);
      }
      keys := keys[i := Undefined];
      values := values[i := NoItem];
      var a := ActionOf(p, i);
      if AssertRefuses(a) {
        return Failure(AssertionError);
      }
      calls := calls + [Move(i, a)];
      r := Success(());
    }

    /** The advancement loop of `on_result_ready` for a decoded plan. */
    method MoveRound(p: Plan) returns (r: Result<(), Error>)
      requires Valid()
      modifies this
      ensures Valid()
      ensures resultCount == |iterators| - |Moving(p, |iterators|)|
      ensures r.Success? ==> forall i :: 0 <= i < |iterators| ==> Passes(p, old(keys)[i], i)
      ensures r.Success? ==> calls == old(calls) + MoveCalls(p, Moving(p, |iterators|))
                                      + (if |Moving(p, |iterators|)| == 0 && old(live) then ExitAll(|iterators|) else [])
      ensures r.Success? ==> forall i :: 0 <= i < |iterators| ==> keys[i] == if Moves(p, i) then Undefined else old(keys)[i]
      ensures r.Success? ==> (|Moving(p, |iterators|)| == 0 <==> done && completions == old(completions) + [Finished])
      ensures r.Success? && |Moving(p, |iterators|)| > 0 ==> done == old(done) && completions == old(completions)
      ensures r.Failure? ==> exists i :: 0 <= i < |iterators| && Moves(p, i) && !Passes(p, old(keys)[i], i)
    {
      var ms := Moving(p, |iterators|);
      resultCount := |iterators| - |ms|;
      var moveCount;
      ghost var keys0 := keys;
      r, moveCount := MoveAll(p);
      if r.Success? {
        AllPassSpec(p, keys0, |iterators|);
        ClearedSpec(p, keys0, |iterators|);
      }
      if r.Success? && moveCount == 0 {
        DoExit();
      }
    }

    /** The second loop of `on_result_ready`: move every moving iterator in order, counting the moves. */
    method MoveAll(p: Plan) returns (r: Result<(), Error>, moveCount: nat)
      requires Valid()
      modifies this
      ensures Valid()
      ensures done == old(done) && live == old(live) && completions == old(completions) && resultCount == old(resultCount)
      ensures r.Success? ==> moveCount == |Moving(p, |iterators|)|
      ensures r.Success? ==> AllPass(p, old(keys), |iterators|)
      ensures r.Success? ==> calls == old(calls) + MoveCalls(p, Moving(p, |iterators|))
      ensures r.Success? ==> keys == Cleared(p, old(keys), |iterators|)
      ensures r.Failure? ==> exists i :: 0 <= i < |iterators| && Moves(p, i) && !Passes(p, old(keys)[i], i)
    {
      var n := |iterators|;
      moveCount := 0;
      var i := 0;
      ghost var keys0 := keys;
      while i < n
        invariant 0 <= i <= n && Valid()
        invariant moveCount == |Moving(p, i)|
        invariant calls == old(calls) + MoveCalls(p, Moving(p, i))
        invariant AllPass(p, keys0, i)
        invariant keys == Cleared(p, keys0, i)
        invariant done == old(done) && live == old(live) && completions == old(completions) && resultCount == old(resultCount)
      {
        MovingStep(p, i);
        var ok := Visit(p, i, keys0, old(calls));
        if ok.Failure? {
          return ok, moveCount;
        }
        if Moves(p, i) {
          moveCount := moveCount + 1;
        }
        i := i + 1;
      }
      r := Success(());
    }

    /**
     * One turn of the second loop: move iterator `i` if it moves. It takes
     * the loop's state after the first `i` turns from the keys `keys0` and
     * the calls `calls0` to the state after `i + 1` turns, or fails on a
     * moving iterator that does not pass the checks.
     */
    method Visit(p: Plan, i: nat, ghost keys0: seq<MaybeKey>, ghost calls0: seq<CursorCall>) returns (r: Result<(), Error>)
      requires Valid() && i < |iterators| == |keys0|
      requires keys == Cleared(p, keys0, i) && AllPass(p, keys0, i) && calls == calls0 + MoveCalls(p, Moving(p, i))
      modifies this
      ensures Valid()
      ensures r.Failure? ==> Moves(p, i) && !Passes(p, keys0[i], i)
      ensures r.Success? ==> keys == Cleared(p, keys0, i + 1) && AllPass(p, keys0, i + 1)
      ensures r.Success? ==> calls == calls0 + MoveCalls(p, Moving(p, i + 1))
      ensures done == old(done) && live == old(live) && completions == old(completions) && resultCount == old(resultCount)
    {
      MovingStep(p, i);
      ClearedStep(p, keys0, i);
      if Moves(p, i) {
        r := MoveOne(p, i);
      } else {
        StayPasses(p, keys[i], i);
        r := Success(());
      }
    }

    /** An iterator that does not move passes both checks, whatever its key. */
    static lemma StayPasses(p: Plan, key: MaybeKey, i: nat)
      requires !Moves(p, i)
      ensures Passes(p, key, i)
    {
      assert ActionOf(p, i) == Stay;
    }

    /** The first `i` iterators, at the given keys, all pass the checks. */
    static predicate AllPass(p: Plan, keys0: seq<MaybeKey>, i: nat)
      requires i <= |keys0|
    {
      i == 0 || (AllPass(p, keys0, i - 1) && Passes(p, keys0[i - 1], i - 1))
    }

    static lemma {:induction false} AllPassSpec(p: Plan, keys0: seq<MaybeKey>, i: nat)
      requires i <= |keys0| && AllPass(p, keys0, i)
      ensures forall j :: 0 <= j < i ==> Passes(p, keys0[j], j)
    {
      if i > 0 {
        AllPassSpec(p, keys0, i - 1);
      }
    }

    /** The keys of the first `i` iterators cleared where they move. */
    static function Cleared(p: Plan, keys0: seq<MaybeKey>, i: nat): (ks: seq<MaybeKey>)
      ensures |ks| == |keys0|
    {
      seq(|keys0|, j requires 0 <= j < |keys0| => if j < i && Moves(p, j) then Undefined else keys0[j])
    }

    static lemma ClearedSpec(p: Plan, keys0: seq<MaybeKey>, i: nat)
      ensures forall j :: 0 <= j < |keys0| ==> Cleared(p, keys0, i)[j] == if j < i && Moves(p, j) then Undefined else keys0[j]
    {
    }

    static lemma ClearedStep(p: Plan, keys0: seq<MaybeKey>, i: nat)
      requires i < |keys0|
      ensures Cleared(p, keys0, 0) == keys0
      ensures Cleared(p, keys0, i + 1) == if Moves(p, i) then Cleared(p, keys0, i)[i := Undefined] else Cleared(p, keys0, i)
      ensures Cleared(p, keys0, i)[i] == keys0[i]
    {
    }

    /**
     * `on_iterator_next(i, key)`: a report after the scan is done is an
     * internal error; otherwise record the position, and once every
     * iterator counted in this round has reported, run the solver.
     */
    method OnIteratorNext(i: nat, key: MaybeKey, primary: MaybeKey, value: Option<Value>,
                          solve: (seq<MaybeKey>, seq<Item>) -> Output) returns (r: Result<(), Error>)
      requires Valid() && i < |iterators|
      modifies this
      ensures Valid()
      ensures old(done) ==> r == Failure(InternalError) && unchanged(this)
      ensures !old(done) && old(resultCount) + 1 != |iterators| ==>
                && r.Success? && resultCount == old(resultCount) + 1
                && keys == old(keys)[i := key]
                && values == old(values)[i := ScanValue(iterators[i], key, primary, value)]
                && calls == old(calls) && completions == old(completions) && done == old(done)
      ensures !old(done) && old(resultCount) + 1 == |iterators| ==>
                var d := Decode(solve(old(keys)[i := key], old(values)[i := ScanValue(iterators[i], key, primary, value)]), |iterators|);
                && (d.Failure? ==> r == Failure(InvalidOperationException))
                && (d.Success? ==> RoundDone(d.value, r, old(keys)[i := key], old(calls), old(completions), old(done), old(live)))
    {
      if done {
        return Failure(InternalError);
      }
      resultCount := resultCount + 1;
      keys := keys[i := key];
      values := values[i := ScanValue(iterators[i], key, primary, value)];
      if resultCount == |iterators| {
        r := OnResultReady(solve(keys, values));
      } else {
        r := Success(());
      }
    }
  }

  /** The calls made on the moving iterators, in order. */
  function MoveCalls(p: Plan, ms: seq<nat>): (cs: seq<CursorCall>)
    ensures |cs| == |ms|
  {
    if |ms| == 0 then [] else MoveCalls(p, ms[..|ms| - 1]) + [Move(ms[|ms| - 1], ActionOf(p, ms[|ms| - 1]))]
  }

  lemma MovingStep(p: Plan, i: nat)
    ensures Moving(p, i + 1) == Moving(p, i) + (if Moves(p, i) then [i] else [])
    ensures MoveCalls(p, Moving(p, i + 1)) == MoveCalls(p, Moving(p, i)) + (if Moves(p, i) then [Move(i, ActionOf(p, i))] else [])
  {
    var a := Moving(p, i);
    if Moves(p, i) {
      assert (a + [i])[..|a + [i]| - 1] == a;
      assert MoveCalls(p, a + [i]) == MoveCalls(p, a) + [Move(i, ActionOf(p, i))];
    } else {
      assert Moving(p, i + 1) == a + [] == a;
      assert MoveCalls(p, a) + [] == MoveCalls(p, a);
    }
  }

  /** Output `null` moves nothing, so the round that produced it ends the scan. */
  lemma {:induction false} NullOutputMovesNothing(n: nat)
    ensures Decode(NullOut, n).Success? && Moving(Decode(NullOut, n).value, n) == []
  {
    if n > 0 {
      NullOutputMovesNothing(n - 1);
    }
  }

  /** Output `undefined` moves every iterator, so the next round needs every iterator to report. */
  lemma {:induction false} UndefinedOutputMovesAll(n: nat, m: nat)
    requires m <= n
    ensures Decode(UndefinedOut, n).Success? && Moving(Decode(UndefinedOut, n).value, m) == Iota(m)
  {
    var p := Decode(UndefinedOut, n).value;
    if m > 0 {
      UndefinedOutputMovesAll(n, m - 1);
      assert ActionOf(p, m - 1) == AdvanceBy(1);
    }
  }

  function Iota(m: nat): (s: seq<nat>)
    ensures |s| == m && forall k :: 0 <= k < m ==> s[k] == k
  {
    if m == 0 then [] else Iota(m - 1) + [m - 1]
  }

  // ---------------------------------------------------------------------
  // open

  /** What `open`'s callback returned, by shape: `true`, an object, or anything else. */
  datatype Advice = AdviceTrue | AdviceObject(restart: bool, continueKey: MaybeKey, continuePrimary: MaybeKey) | AdviceOther

  /** The cursor call `open` makes after a report. */
  datatype Reaction = Restart(effective: MaybeKey, primary: MaybeKey) | Continue(to: Key) | ContinuePrimaryTo(primaryTo: Key)
                    | AdvanceOne | ExitFinish

  /**
   * `open`'s `onNext`: no key exits and finishes; `true` restarts in place; an
   * object restarts at its position when `restart` is `true`, else continues
   * to its key, else to its primary key, else exits; anything else advances
   * by one.
   */
  function OpenReaction(key: MaybeKey, advice: Advice): (re: Reaction)
    ensures re.ExitFinish? <==>
              !key.Defined? || (advice.AdviceObject? && !advice.restart && !advice.continueKey.Defined? && !advice.continuePrimary.Defined?)
    ensures re.AdvanceOne? <==> key.Defined? && advice.AdviceOther?
    ensures re.Restart? <==> key.Defined? && (advice.AdviceTrue? || (advice.AdviceObject? && advice.restart))
    ensures key.Defined? && advice.AdviceTrue? ==> re == Restart(Undefined, Undefined)
    ensures key.Defined? && advice.AdviceObject? && advice.restart ==> re == Restart(advice.continueKey, advice.continuePrimary)
    ensures re.Continue? ==> advice.AdviceObject? && !advice.restart && advice.continueKey == Defined(re.to)
    ensures re.ContinuePrimaryTo? ==>
              advice.AdviceObject? && !advice.restart && !advice.continueKey.Defined? && advice.continuePrimary == Defined(re.primaryTo)
  {
    if !key.Defined? then ExitFinish
    else match advice
      case AdviceTrue => Restart(Undefined, Undefined)
      case AdviceObject(rs, c, cp) =>
        if rs then Restart(c, cp)
        else if c.Defined? then Continue(c.k)
        else if cp.Defined? then ContinuePrimaryTo(cp.k)
        else ExitFinish
      case AdviceOther => AdvanceOne
  }

  /** A cursor event `open` handles: `onNext` with the reported key and the callback's advice, or `onFail`. */
  datatype CursorEvent = Next(key: MaybeKey, advice: Advice) | Fail(error: Error)

  /**
   * What an event ends in for `open`'s request: `onFail` rejects it with the
   * cursor's error (`cb(e, true)`); `onNext` makes the cursor call
   * `OpenReaction` gives, and the request resolves only on an exit.
   */
  function OpenSettle(ev: CursorEvent): (s: Option<Result<(), Error>>)
    ensures s == Some(Success(())) <==> ev.Next? && OpenReaction(ev.key, ev.advice).ExitFinish?
    ensures (s.Some? && s.value.Failure?) <==> ev.Fail?
    ensures ev.Fail? ==> s.value.error == ev.error
  {
    match ev
      case Fail(e) => Some(Failure(e))
      case Next(key, advice) => if OpenReaction(key, advice).ExitFinish? then Some(Success(())) else None
  }

  /** `open`'s checks: the iterator's store must exist; the mode defaults to read-only; the scope is the iterator's stores. */
  function OpenRequest(it: IterSpec, schema: set<string>, mode: Option<TransactionMode>): (r: Result<(seq<string>, TransactionMode), Error>)
    ensures r.Success? <==> it.store in schema
    ensures r.Failure? ==> r.error == ArgumentException
    ensures r.Success? ==> r.value.0 == Stores(it) && r.value.1 == mode.GetOr(ReadOnly)
  {
    if it.store !in schema then Failure(ArgumentException) else Success((Stores(it), mode.GetOr(ReadOnly)))
  }

  // ---------------------------------------------------------------------
  // map and reduce

  /** A record as a cursor reports it: effective key, primary key, value. */
  datatype Report = Report(key: Key, primary: Key, value: Value)

  /**
   * What `map` and `reduce` pass on: the effective key for key iterators,
   * the primary key for index value iterators, the record value for primary
   * value iterators.
   */
  function MapRef(it: IterSpec, r: Report): (v: Item)
    ensures it.IsKeyIterator() ==> v == KeyItem(r.key)
    ensures it.IsValueIterator() && it.IsIndexIterator() ==> v == KeyItem(r.primary)
    ensures it.IsValueIterator() && !it.IsIndexIterator() ==> v == ValueItem(r.value)
  {
    if it.IsIndexIterator() then
      (if it.IsKeyIterator() then KeyItem(r.key) else KeyItem(r.primary))
    else
      (if it.IsKeyIterator() then KeyItem(r.key) else ValueItem(r.value))
  }

  /**
   * `map`/`reduce` and `scan` see the same item except for index iterators:
   * for an index value iterator they pass the primary key where `scan` passes
   * the value, and for an index key iterator the index key where `scan`
   * passes the primary key.
   */
  lemma MapRefVersusScanValue(it: IterSpec, r: Report)
    ensures !it.IsIndexIterator() ==> MapRef(it, r) == ScanValue(it, Defined(r.key), Defined(r.primary), Some(r.value))
    ensures it.IsIndexIterator() && it.IsValueIterator() ==>
              MapRef(it, r) == KeyItem(r.primary) && ScanValue(it, Defined(r.key), Defined(r.primary), Some(r.value)) == ValueItem(r.value)
    ensures it.IsIndexIterator() && it.IsKeyIterator() ==>
              MapRef(it, r) == KeyItem(r.key) && ScanValue(it, Defined(r.key), Defined(r.primary), Some(r.value)) == KeyItem(r.primary)
  {
  }

  /**
   * The store check of `map`/`reduce` as written: its loop runs only while
   * the store name is truthy, so its "not found" test never fires.
   */
  method StoreCheckAsWritten(stores: seq<string>) returns (r: Result<(), Error>)
    ensures r == Success(())
  {
    var i := 0;
    while i < |stores| && stores[i] != ""
      invariant 0 <= i <= |stores|
    {
      if stores[i] == "" {
        return Failure(ArgumentException);
      }
      i := i + 1;
    }
    r := Success(());
  }

  /** The store check as evidently intended: every store must be in the schema. */
  method StoreCheck(stores: seq<string>, schema: set<string>) returns (r: Result<(), Error>)
    ensures r.Success? <==> forall s :: s in stores ==> s in schema
    ensures r.Failure? ==> r.error == ArgumentException
  {
    var i := 0;
    while i < |stores|
      invariant 0 <= i <= |stores|
      invariant forall j :: 0 <= j < i ==> stores[j] in schema
    {
      if stores[i] !in schema {
        return Failure(ArgumentException);
      }
      i := i + 1;
    }
    r := Success(());
  }

  /**
   * `map(iterator, callback)`, over the records reported before the walk
   * ends or, when `failure` is given, before the cursor fails with it: the
   * items passed to the callback, one per record, each followed by
   * `advance(1)`, and the value the request resolves with. The end resolves
   * it with `undefined` (`None`); `onFail` calls `cb(e, false)`, so a cursor
   * error resolves it too, with the error as its value.
   */
  method Map(it: IterSpec, schema: set<string>, reports: seq<Report>, failure: Option<Error>)
    returns (r: Result<(seq<Item>, Option<Error>), Error>)
    ensures r.Failure? <==> exists s :: s in Stores(it) && s !in schema
    ensures r.Failure? ==> r.error == ArgumentException
    ensures r.Success? ==> |r.value.0| == |reports| && forall k :: 0 <= k < |reports| ==> r.value.0[k] == MapRef(it, reports[k])
    ensures r.Success? ==> r.value.1 == failure
  {
    var ok := StoreCheck(Stores(it), schema);
    if ok.Failure? {
      return Failure(ok.error);
    }
    var refs := [];
    var k := 0;
    while k < |reports|
      invariant 0 <= k <= |reports| && |refs| == k
      invariant forall j :: 0 <= j < k ==> refs[j] == MapRef(it, reports[j])
    {
      refs := refs + [MapRef(it, reports[k])];
      k := k + 1;
    }
    r := Success((refs, failure));
  }

  /** Left fold of the callback over the items, passing each item's index. */
  function Fold<A>(f: (A, Item, nat) -> A, init: A, items: seq<Item>): A {
    if |items| == 0 then init else f(Fold(f, init, items[..|items| - 1]), items[|items| - 1], |items| - 1)
  }

  /**
   * `reduce(iterator, callback, initial)`: the callback folded over the
   * items in report order with a running index; the result completes the
   * request at the end. When the cursor fails with `failure` after the
   * reported records, `onFail` calls `cb(e, true)` and the request is
   * rejected with that error.
   */
  method Reduce<A>(it: IterSpec, schema: set<string>, reports: seq<Report>, failure: Option<Error>, f: (A, Item, nat) -> A, init: A)
    returns (r: Result<A, Error>)
    ensures r.Failure? <==> (exists s :: s in Stores(it) && s !in schema) || failure.Some?
    ensures (exists s :: s in Stores(it) && s !in schema) ==> r == Failure(ArgumentException)
    ensures (forall s :: s in Stores(it) ==> s in schema) && failure.Some? ==> r == Failure(failure.value)
    ensures r.Success? ==> r.value == Fold(f, init, seq(|reports|, k requires 0 <= k < |reports| => MapRef(it, reports[k])))
  {
    var ok := StoreCheck(Stores(it), schema);
    if ok.Failure? {
      return Failure(ok.error);
    }
    ghost var items := seq(|reports|, k requires 0 <= k < |reports| => MapRef(it, reports[k]));
    var previous := init;
    var index := 0;
    while index < |reports|
      invariant 0 <= index <= |reports|
      invariant previous == Fold(f, init, items[..index])
    {
      assert items[..index + 1][..index] == items[..index];
      previous := f(previous, MapRef(it, reports[index]), index);
      index := index + 1;
    }
    assert items[..index] == items;
    if failure.Some? {
      return Failure(failure.value);
    }
    r := Success(previous);
  }

}
