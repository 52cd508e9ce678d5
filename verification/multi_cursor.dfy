/**
 * The front-end cursor of the older generation (js/ydn/db/index/cursor.js),
 * which drives n underlying cursors in rounds: a round ends when every
 * cursor has reported once, and the consumer's `onNext` then sees the first
 * cursor's key. The underlying cursors are not modelled here beyond the
 * calls made on them, which are logged in `issued`. The handler's arguments
 * are positional (effective key, primary key, value), whatever order an
 * underlying adapter passes them in.
 */
module MultiCursor {
  import opened Wrappers
  import opened Base
  import opened Keys

  /** A call made on underlying cursor `i`. */
  datatype Command =
    | Open(i: nat, key: MaybeKey, primary: MaybeKey)
    | ContinueEffectiveKey(i: nat, key: MaybeKey)
    | ContinuePrimaryKey(i: nat, key: MaybeKey)
    | Advance(i: nat, step: nat)
    | Restart(i: nat, effective: MaybeKey, primary: MaybeKey)
    | Dispose(i: nat)

  /** What the consumer's `onNext` receives at the end of a round. */
  datatype Signal = RoundKey(key: MaybeKey) | RoundEnd

  /** How a cursor not yet past its saved position reacts to a report. */
  datatype Decision = Cue | SeekKey(key: Key) | SeekPrimary(key: Key) | StepOne

  /**
   * Resume skipping, by the undirected key order: a report past the saved
   * position cues the cursor; one before it seeks the saved key or primary
   * key; one at it steps once. A report at the saved key whose primary key
   * is falsy (undefined, null, 0 or the empty string) while a primary key is
   * saved fails the handler's truthiness assertion.
   */
  function Decide(key: Key, primary: MaybeKey, saved: Key, savedPrimary: MaybeKey): (d: Result<Decision, Error>)
    ensures d.Failure? <==> Cmp(key, saved) == 0 && savedPrimary.Defined? && !primary.Truthy()
    ensures d.Failure? ==> d.error == AssertionError
    ensures d == Success(Cue) <==>
              Cmp(key, saved) == 1
              || (Cmp(key, saved) == 0 && savedPrimary.Defined? && primary.Truthy() && Cmp(primary.k, savedPrimary.k) == 1)
    ensures d == Success(SeekKey(saved)) <==> Cmp(key, saved) == -1
    ensures d.Success? && d.value.SeekPrimary? ==>
              Cmp(key, saved) == 0 && primary.Truthy() && savedPrimary == Defined(d.value.key) && Cmp(primary.k, d.value.key) == -1
    ensures d == Success(StepOne) <==>
              Cmp(key, saved) == 0 && (!savedPrimary.Defined? || (primary.Truthy() && Cmp(primary.k, savedPrimary.k) == 0))
  {
    var c := Cmp(key, saved);
    if c == 1 then Success(Cue)
    else if c == -1 then Success(SeekKey(saved))
    else if savedPrimary.Defined? then
      if !primary.Truthy() then Failure(AssertionError)
      else
        var c2 := Cmp(primary.k, savedPrimary.k);
        if c2 == 1 then Success(Cue) else if c2 == -1 then Success(SeekPrimary(savedPrimary.k)) else Success(StepOne)
    else Success(StepOne)
  }

  /**
   * A cue means the report lies beyond the saved position, in forward order;
   * for a report with a truthy primary key the converse holds too.
   */
  lemma CueIsBeyond(r: Record, saved: Key, savedPrimary: MaybeKey)
    ensures Decide(r.key, Defined(r.primary), saved, savedPrimary) == Success(Cue) ==> Beyond(r, saved, savedPrimary, false)
    ensures Defined(r.primary).Truthy() ==>
              (Decide(r.key, Defined(r.primary), saved, savedPrimary) == Success(Cue) <==> Beyond(r, saved, savedPrimary, false))
  {
  }

  /** A report at the saved key with primary key 0 fails the assertion, though it lies beyond a saved primary key -1. */
  lemma ZeroPrimaryFailsAssertion()
    ensures Decide(Str("a"), Defined(Num(0)), Str("a"), Defined(Num(-1))) == Failure(AssertionError)
    ensures Beyond(Record(Str("a"), Num(0), Value(0)), Str("a"), Defined(Num(-1)), false)
  {
  }

  /** The saved keys as `finalize_` keeps them: every key kept, null made undefined. */
  function Saved(ks: seq<MaybeKey>): (r: seq<MaybeKey>)
    ensures |r| == |ks|
    ensures forall i :: 0 <= i < |ks| ==> (ks[i].Defined? ==> r[i] == ks[i]) && (!ks[i].Defined? ==> r[i] == Undefined)
  {
    seq(|ks|, i requires 0 <= i < |ks| => if ks[i].Defined? then ks[i] else Undefined)
  }

  /** `init_`'s calls: every cursor opened at an undefined position. */
  function OpenAll(n: nat): (cs: seq<Command>)
    ensures |cs| == n && forall i :: 0 <= i < n ==> cs[i] == Open(i, Undefined, Undefined)
  {
    if n == 0 then [] else OpenAll(n - 1) + [Open(n - 1, Undefined, Undefined)]
  }

  /** `finalize_`'s calls: every cursor disposed, in order. */
  function DisposeAll(n: nat): (cs: seq<Command>)
    ensures |cs| == n && forall i :: 0 <= i < n ==> cs[i] == Dispose(i)
  {
    if n == 0 then [] else DisposeAll(n - 1) + [Dispose(n - 1)]
  }

  class FrontCursor {
    const n: nat
    var keys: seq<MaybeKey>
    var primaries: seq<MaybeKey>
    var values: seq<Option<Value>>
    /** Per cursor: past its saved position. */
    var cued: seq<bool>
    /** Reports received in the current round. */
    var resultCount: nat
    /** Completed rounds. */
    var count: nat
    var done: bool
    var exited: bool
    /** Length of `cursors_`: n until finalized, then 0. */
    var live: nat
    var issued: seq<Command>

    ghost predicate Valid()
      reads this
    {
      && |keys| == n && |primaries| == n && |values| == n && |cued| == n && (live == 0 || live == n)
    }

    /**
     * The constructor and `init_`: nothing is saved yet, so every cursor
     * starts cued and is opened at an undefined position.
     */
    constructor (n: nat)
      ensures Valid() && this.n == n && live == n
      ensures keys == seq(n, _ => Undefined) && primaries == keys && values == seq(n, _ => None)
      ensures cued == seq(n, _ => true)
      ensures resultCount == 0 && count == 0 && !done && !exited
      ensures issued == OpenAll(n)
    {
      this.n := n;
      keys := seq(n, _ => Undefined);
      primaries := seq(n, _ => Undefined);
      values := seq(n, _ => None);
      cued := seq(n, i => true);
      resultCount := 0;
      count := 0;
      done := false;
      exited := false;
      live := n;
      issued := OpenAll(n);
    }

    /**
     * `finalize_`: keep the saved keys for resuming, dispose every cursor
     * and drop the values and the cursors.
     */
    method Finalize()
      requires Valid()
      modifies this
      ensures Valid() && live == 0
      ensures keys == Saved(old(keys)) && primaries == Saved(old(primaries)) && values == seq(n, _ => None)
      ensures issued == old(issued) + DisposeAll(old(live))
      ensures cued == old(cued) && resultCount == old(resultCount) && count == old(count)
      ensures done == old(done) && exited == old(exited)
    {
      keys := Saved(keys);
      primaries := Saved(primaries);
      issued := issued + DisposeAll(live);
      values := seq(n, _ => None);
      live := 0;
    }

    /** `exit()`. */
    method Exit()
      requires Valid()
      modifies this
      ensures Valid() && exited && live == 0 && done == old(done)
      ensures keys == Saved(old(keys)) && issued == old(issued) + DisposeAll(old(live))
    {
      exited := true;
      Finalize();
    }

    /**
     * The resume-skip branch for a cursor not yet cued: cue it, or log the
     * call it makes. A missing saved key cannot be compared (DataError).
     */
    method Skip(i: nat, key: Key, primary: MaybeKey) returns (r: Result<(), Error>)
      requires Valid() && i < n && !cued[i]
      modifies this
      ensures Valid()
      ensures !old(keys)[i].Defined? ==> r == Failure(DataError) && cued == old(cued) && issued == old(issued)
      ensures old(keys)[i].Defined? ==>
              var d := Decide(key, primary, old(keys)[i].k, old(primaries)[i]);
              && (r.Failure? <==> d.Failure?) && (r.Failure? ==> r.error == d.error)
              && (d.Success? && d.value.Cue? ==> cued == old(cued)[i := true] && issued == old(issued))
              && (d.Success? && !d.value.Cue? ==> cued == old(cued) && issued == old(issued) + [Reaction(i, d.value)])
              && (d.Failure? ==> cued == old(cued) && issued == old(issued))
      ensures keys == old(keys) && primaries == old(primaries) && values == old(values) && live == old(live)
      ensures resultCount == old(resultCount) && count == old(count) && done == old(done) && exited == old(exited)
    {
      if !keys[i].Defined? {
        return Failure(DataError);
      }
      var d := Decide(key, primary, keys[i].k, primaries[i]);
      if d.Failure? {
        return Failure(d.error);
      }
      if d.value.Cue? {
        cued := cued[i := true];
      } else {
        issued := issued + [Reaction(i, d.value)];
      }
      r := Success(());
    }

    /** The end of a report: a full round is counted and signalled, and finalized once done. */
    method CloseRound() returns (s: Option<Signal>)
      requires Valid() && 0 < resultCount
      modifies this
      ensures Valid() && done == old(done) && cued == old(cued)
      ensures old(resultCount) != n ==> s.None? && unchanged(this)
      ensures old(resultCount) == n ==> resultCount == 0 && count == old(count) + 1
      ensures old(resultCount) == n && !done ==> s == Some(RoundKey(keys[0])) && keys == old(keys) && live == old(live) && issued == old(issued)
      ensures old(resultCount) == n && done ==>
                s == Some(RoundEnd) && live == 0 && keys == Saved(old(keys)) && issued == old(issued) + DisposeAll(old(live))
    {
      s := None;
      if resultCount == n {
        count := count + 1;
        if done {
          s := Some(RoundEnd);
          Finalize();
        } else {
          s := Some(RoundKey(keys[0]));
        }
        resultCount := 0;
      }
    }

    /**
     * The `onSuccess` handler installed on cursor `i`. It returns what the
     * consumer's `onNext` receives when this report completes the round.
     */
    method OnSuccess(i: nat, key: MaybeKey, primary: MaybeKey, value: Option<Value>) returns (r: Result<Option<Signal>, Error>)
      requires Valid() && i < n
      modifies this
      ensures Valid()
      ensures done == (old(done) || !key.Defined?)
      ensures r.Failure? ==> (r.error == AssertionError || r.error == DataError) && key.Defined? && !old(cued)[i]
      ensures r.Success? && old(resultCount) + 1 != n ==>
                r.value.None? && resultCount == old(resultCount) + 1 && count == old(count)
                && keys == old(keys)[i := key] && primaries == old(primaries)[i := primary] && live == old(live)
      ensures r.Success? && old(resultCount) + 1 == n ==> resultCount == 0 && count == old(count) + 1
      ensures r.Success? && old(resultCount) + 1 == n && !done ==>
                r.value == Some(RoundKey(key0(old(keys), i, key))) && keys == old(keys)[i := key] && live == old(live)
      ensures r.Success? && old(resultCount) + 1 == n && done ==>
                r.value == Some(RoundEnd) && live == 0 && keys == Saved(old(keys)[i := key])
      ensures key.Defined? && !old(cued)[i] && !old(keys)[i].Defined? ==> r == Failure(DataError)
      ensures key.Defined? && !old(cued)[i] && old(keys)[i].Defined? ==>
                var d := Decide(key.k, primary, old(keys)[i].k, old(primaries)[i]);
                && (r.Failure? <==> d.Failure?)
                && (d.Success? ==> cued[i] == d.value.Cue?)
                && (d.Success? && !d.value.Cue? ==> old(issued) + [Reaction(i, d.value)] <= issued)
    {
      resultCount := resultCount + 1;
      if !key.Defined? {
        done := true;
      } else if !cued[i] {
        var ok := Skip(i, key.k, primary);
        if ok.Failure? {
          return Failure(ok.error);
        }
      }
      keys := keys[i := key];
      primaries := primaries[i := primary];
      values := values[i := value];
      var s := CloseRound();
      r := Success(s);
    }

    /** The `onError` handler: report, finalize, and end the iteration. */
    method OnError()
      requires Valid()
      modifies this
      ensures Valid() && done && resultCount == 0 && live == 0
      ensures keys == Saved(old(keys)) && issued == old(issued) + DisposeAll(old(live))
    {
      Finalize();
      done := true;
      resultCount := 0;
    }

    /** `restart(key, primaryKey)`: cursor 0 is restarted with (primaryKey, key). */
    method RestartFirst(key: MaybeKey, primary: MaybeKey) returns (r: Result<(), Error>)
      requires Valid()
      modifies this
      ensures live == 0 ==> r == Failure(TypeError) && issued == old(issued)
      ensures live > 0 ==> r.Success? && issued == old(issued) + [Restart(0, primary, key)]
    {
      if live == 0 {
        return Failure(TypeError);
      }
      issued := issued + [Restart(0, primary, key)];
      r := Success(());
    }

    /** `continuePrimaryKey(key)` on cursor 0. */
    method ContinuePrimaryKeyFirst(key: MaybeKey) returns (r: Result<(), Error>)
      requires Valid()
      modifies this
      ensures live == 0 ==> r == Failure(TypeError) && issued == old(issued)
      ensures live > 0 ==> r.Success? && issued == old(issued) + [ContinuePrimaryKey(0, key)]
    {
      if live == 0 {
        return Failure(TypeError);
      }
      issued := issued + [ContinuePrimaryKey(0, key)];
      r := Success(());
    }

    /** `continueEffectiveKey(key)` on cursor 0. */
    method ContinueEffectiveKeyFirst(key: MaybeKey) returns (r: Result<(), Error>)
      requires Valid()
      modifies this
      ensures live == 0 ==> r == Failure(TypeError) && issued == old(issued)
      ensures live > 0 ==> r.Success? && issued == old(issued) + [ContinueEffectiveKey(0, key)]
    {
      if live == 0 {
        return Failure(TypeError);
      }
      issued := issued + [ContinueEffectiveKey(0, key)];
      r := Success(());
    }

    /** `advance(step)` on cursor 0. */
    method AdvanceFirst(step: nat) returns (r: Result<(), Error>)
      requires Valid()
      modifies this
      ensures live == 0 ==> r == Failure(TypeError) && issued == old(issued)
      ensures live > 0 ==> r.Success? && issued == old(issued) + [Advance(0, step)]
    {
      if live == 0 {
        return Failure(TypeError);
      }
      issued := issued + [Advance(0, step)];
      r := Success(());
    }
  }

  /** The key `onNext` receives: cursor 0's, after cursor `i` recorded `key`. */
  function key0(ks: seq<MaybeKey>, i: nat, key: MaybeKey): MaybeKey
    requires i < |ks|
  {
    ks[i := key][0]
  }

  /** The call a decision makes on cursor `i` (a cue makes none). */
  function Reaction(i: nat, d: Decision): (c: Command)
    requires !d.Cue?
    ensures c.i == i
  {
    match d
    case SeekKey(k) => ContinueEffectiveKey(i, Defined(k))
    case SeekPrimary(k) => ContinuePrimaryKey(i, Defined(k))
    case StepOne => Advance(i, 1)
  }
}
