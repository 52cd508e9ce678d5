# ydn-db cursor and transaction core, modelled in Dafny

This project models the core of ydn-db, a JavaScript database library that
offers one API over IndexedDB, WebSQL and an in-memory key-value storage.
The model covers these parts:

- **Keys and iteration.** Keys follow the order of section 3.1.3 of the W3C
  Indexed Database API. Cursor directions come from section 3.1.10. The
  `Iterator` describes what to walk: a store or an index, a key range, a
  direction and a key-only flag.
- **Cursor adapters.** These are the IndexedDB adapters of both generations,
  the in-memory adapter, and the older front-end cursor that drives several
  underlying cursors in rounds. Each backend request is a position in the
  records it walks, taken in iteration order. Each adapter is proved to hand
  its user the records the backend delivers, with the filtering and resuming
  the adapter promises.
- **Transaction threads.** The serial thread queues requests first-in
  first-out behind a mutex. The parallel thread reuses the open transaction
  when its policy allows. The single thread keeps one transaction for its
  whole life and refuses requests once that transaction has ended.
- **Operators.** The iterator operator covers argument checks, the
  multi-cursor `scan` and its solver protocol, and `open`, `map` and
  `reduce`. The CRUD operator validates the loosely typed arguments of
  `count`, `get`, `keys`, `values`, `add`, `put`, `clear`, `remove` and
  their `*Internal` variants, then dispatches each call to a request on a
  thread.
- **Executors.** The executors of the in-memory, IndexedDB and WebSQL
  backends share one offset/limit paging routine. `Collect` drives that
  routine over a record sequence and is proved equal to `Page`, the page
  the options ask for. The WebSQL executor builds SQL statements and fans
  requests out over a bounded window or a chain of statements.
- **Index schema.** This covers constructor defaults, data-type names,
  comparing two index definitions, and encoding array keys for SQL columns
  together with their decoding.
- **Connection.** The in-memory connection negotiates the schema version
  against its storage and caches one store object per store.

Imperative parts of the source are modelled as classes. These are the
paging handlers, the threads, the cursors, the iterator's cursor slot, the
WebSQL request windows and the connection. Their methods are proved against
specification functions. Argument checking and dispatch are modelled as
functions that return a `Result`. Each function has its own error cases.

The model is that of a debug build: the `goog.DEBUG` checks are on, and
`goog.asserts` failures are the `AssertionError` outcome.

## Model

| member | source | states |
|---|---|---|
| Base.GetDirection | js/ydn/db/base/base.js:221-229 | the direction is a `prev*` one iff the reverse flag is set, and a `*unique` one iff the unique flag is set |
| Base.GetDirectionInverse | js/ydn/db/base/base.js:221-229 | the two flags determine the direction and the direction determines the flags |
| Base.DirectionsExact | js/ydn/db/base/base.js:207-212 | `DIRECTIONS` lists each of the four directions exactly once |
| Base.ToDirection | js/ydn/db/base/schema/index.js:515-517 | `toDir`: the index lookup in the list of directions gives the direction of that name, and nothing (undefined) for a string that names no direction |
| Base.DirectionNameRoundTrip | js/ydn/db/base/base.js:195-200 | every direction's name reads back as that direction |
| Base.TxEventTypesExact | js/ydn/db/base/base.js:109-113 | there are exactly three terminal transaction events, with distinct names |
| AbstractCursor.Flags | js/ydn/db/core/req/abstract_cursor.js:39-99 | an index cursor iff an index name is given; the range is kept; the reverse and unique flags give back the direction |
| AbstractCursor.FlagsMatchDirection | js/ydn/db/core/req/abstract_cursor.js:72-82 | reverse iff the direction is `prev` or `prevunique`; unique iff it is `nextunique` or `prevunique` |
| AbstractCursor.Cursor.constructor | js/ydn/db/core/req/abstract_cursor.js:39-99 | the cursor holds the transaction, names, query method and derived flags it was given |
| AbstractCursor.Cursor.Dispose | js/ydn/db/core/req/abstract_cursor.js:231-233 | after disposal the cursor is not active |
| AbstractCursor.Cursor.OnSuccess | js/ydn/db/core/req/abstract_cursor.js:222-225 | the callback not overridden raises InternalError |
| AbstractCursor.Cursor.OnError | js/ydn/db/core/req/abstract_cursor.js:198-200 | the error callback not overridden raises InternalError |
| Keys.CmpAntisym | js/ydn/db/index/cursor.js:129-137 | the key order behind `ydn.db.cmp` is antisymmetric and gives 0 exactly for equal keys |
| Keys.CmpTrans | js/ydn/db/index/cursor.js:129-137 | the key order is transitive, strictly when either step is strict |
| Keys.KeysMonotone | js/ydn/db/core/req/idb_cursor.js:188-213 | along a walk in cursor order the effective keys never go backwards in the direction of travel |
| Keys.Select | js/ydn/db/core/req/idb_cursor.js:109-159 | the records a cursor opened on a range walks are exactly the records whose key lies in the range |
| Keys.SelectInCursorOrder | js/ydn/db/core/req/idb_cursor.js:109-159 | restricting a cursor-ordered walk to a range keeps it in cursor order |
| Keys.SeekKey | js/ydn/db/core/req/idb_cursor.js:338-347 | backend `continue(key)` stops at the first record not before the key in the direction of travel, or at the end, and skips only records before it |
| Collections.DedupSpec | src/ydn/db/core/iterator.js:697-707 | a list built by pushing each element not already contained has no repeats and holds exactly the elements of the input |
| Collections.DedupAppend | src/ydn/db/core/iterator.js:700-704 | one more step of that loop appends the element only when it is new |
| Collections.DedupDistinct | src/ydn/db/core/iterator.js:697-707 | a list without repeats passes through the loop unchanged |
| CoreIterator.NewIterator | src/ydn/db/core/iterator.js:57-137 | an index iterator iff the index name is non-empty; a key iterator as asked, by default iff an index name is given; reversed and unique as asked; no joins |
| CoreIterator.NewIteratorDirection | src/ydn/db/core/iterator.js:103-116 | the direction is the one `getDirection` gives for the reverse and unique flags |
| CoreIterator.KeyIterator | src/ydn/db/core/iterator.js:210-216 | ArgumentException iff more than three arguments are passed; otherwise a primary key iterator, not unique, reversed as asked |
| CoreIterator.ValueIterator | src/ydn/db/core/iterator.js:282-288 | ArgumentException iff more than three arguments are passed; otherwise a primary value iterator, not unique, reversed as asked |
| CoreIterator.IndexIterator | src/ydn/db/core/iterator.js:246-252 | ArgumentException iff the index name is not a string; otherwise a key iterator on that index with the given flags |
| CoreIterator.IndexValueIterator | src/ydn/db/core/iterator.js:319-325 | ArgumentException iff the index name is not a string; otherwise a value iterator on that index with the given flags |
| CoreIterator.Clone | src/ydn/db/core/iterator.js:509-513 | the same iterator without its joins and without a cursor |
| CoreIterator.Reverse | src/ydn/db/core/iterator.js:581-590 | the opposite direction with the same uniqueness, store, index, range and key-only flag, and no joins |
| CoreIterator.ReverseReverse | src/ydn/db/core/iterator.js:581-590 | reversing twice gives the iterator back, without its joins |
| CoreIterator.Join | src/ydn/db/core/iterator.js:740-756 | the joins gain the new equi-join at the end; nothing else changes |
| CoreIterator.Restrict | src/ydn/db/core/iterator.js:716-722 | a restriction is a join on the iterator's own store, so the store list is unchanged |
| CoreIterator.StoresSpec | src/ydn/db/core/iterator.js:697-707 | the store list starts with the iterator's store, has no repeats and holds exactly that store and the joined stores |
| CoreIterator.StoresOfJoin | src/ydn/db/core/iterator.js:697-707 | joining a store adds it at the end of the store list unless it is already there |
| CoreIterator.GetLowerAsWrittenLosesBound | src/ydn/db/core/iterator.js:417-446 | as written, the bound getters return undefined for a range that has the bound |
| CoreIterator.GetLower | src/ydn/db/core/iterator.js:417-419 | the corrected getter: the lower bound of the range, or undefined without a range |
| CoreIterator.GetUpper | src/ydn/db/core/iterator.js:435-437 | the corrected getter: the upper bound of the range, or undefined without a range |
| CoreIterator.GetKeyRange | src/ydn/db/core/iterator.js:452-464 | a range iff the iterator has one, with the iterator's bounds |
| CoreIterator.IterCursor.constructor | src/ydn/db/core/iterator.js:655-658 | a newly opened cursor is neither done nor exited and belongs to the transaction it was opened in |
| CoreIterator.Iterator.constructor | src/ydn/db/core/iterator.js:57-137 | a new iterator has its description and no cursor |
| CoreIterator.IterCursor.Resume | src/ydn/db/core/iterator.js:652-653 | resuming a cursor records the new transaction and keeps its done and exited flags |
| CoreIterator.Iterator.GetState | src/ydn/db/core/iterator.js:626-638 | initial without a cursor; completed when the cursor is done; resting when it has exited; working otherwise |
| CoreIterator.Iterator.Reset | src/ydn/db/core/iterator.js:685-690 | InvalidOperationError while working, with the cursor kept; otherwise the cursor is dropped and the state is initial |
| CoreIterator.Iterator.Iterate | src/ydn/db/core/iterator.js:648-661 | an existing cursor is resumed on the new transaction; otherwise a fresh cursor is requested on the key path or index, range, direction and query method (values by default) |
| CoreIterator.Iterator.StoreNames | src/ydn/db/core/iterator.js:697-707 | the push loop computes the store list the specification function defines |
| CoreIterator.Iterator.ReverseIterator | src/ydn/db/core/iterator.js:581-590 | a fresh iterator with the reversed description and no cursor |
| CoreIterator.Iterator.JoinIterator | src/ydn/db/core/iterator.js:740-756 | a fresh iterator with the join added and no cursor |
| CoreIterator.Iterator.ResumeIterator | src/ydn/db/core/iterator.js:565-571 | a fresh iterator with the same description and a fresh copy of the cursor, in the same state; an iterator without a cursor fails with TypeError, as reading `clone` of null does |
| CoreIdbCursor.IdbCursor.constructor | js/ydn/db/core/req/idb_cursor.js:40-48 | a cursor over the walk, with no request open, at the first position |
| CoreIdbCursor.IdbCursor.DeliveryAt | js/ydn/db/core/req/idb_cursor.js:70-83 | at the end, the callback gets no arguments; otherwise it gets the key, and the primary key only for an index cursor |
| CoreIdbCursor.IdbCursor.OpenCursor | js/ydn/db/core/req/idb_cursor.js:96-218 | without a start key the cursor delivers the first record; with one it delivers the first record beyond (key, primary key) and skips only records not beyond it |
| CoreIdbCursor.IdbCursor.Restart | js/ydn/db/core/req/idb_cursor.js:275-279 | restart reopens with its two arguments swapped: the primary key is the start key and the effective key the start primary key |
| CoreIdbCursor.IdbCursor.Advance | js/ydn/db/core/req/idb_cursor.js:285-294 | without a live cursor, or with a step of 0, TypeError; otherwise the position moves by the step, stopping at the end |
| CoreIdbCursor.IdbCursor.ContinueEffectiveKey | js/ydn/db/core/req/idb_cursor.js:338-347 | without a key, one step; with a key not beyond the current one, DataError; otherwise the first record not before the key |
| CoreIdbCursor.IdbCursor.ContinuePrimaryKey | js/ydn/db/core/req/idb_cursor.js:300-332 | InternalError unless the key is above the current primary key; otherwise it steps at least once, to the first record whose primary key reaches the key, or to the end |
| CoreIdbCursor.IdbCursor.Update | js/ydn/db/core/req/idb_cursor.js:232-247 | InvalidAccessError when the cursor is gone; TypeError without a request; success otherwise |
| CoreIdbCursor.IdbCursor.Clear | js/ydn/db/core/req/idb_cursor.js:253-269 | InvalidAccessError when the cursor is gone; TypeError without a request; otherwise one record deleted |
| CoreIdbCursor.IdbCursor.Dispose | js/ydn/db/core/req/idb_cursor.js:353-356 | after disposal there is no request |
| CoreIdbCursor.ResumeWithoutPrimarySkipsKey | js/ydn/db/core/req/idb_cursor.js:198-208 | with no primary key, a record at the start key is never delivered: only keys past it are beyond |
| CoreIdbCursor.BeyondIsUpwardClosed | js/ydn/db/core/req/idb_cursor.js:188-213 | once a record in cursor order is beyond the start point, every later record is too, so the first one found is the right one |
| IndexIdbCursor.Filter | js/ydn/db/index/req/idb_cursor.js:72-114 | a record is delivered only at or past the target index key and, unless past it, only at or past the target primary key (strictly past when exclusive); with no targets every record is delivered; a delivery clears the primary target |
| IndexIdbCursor.Settle | js/ydn/db/index/req/idb_cursor.js:64-127 | the handler stops at or after where it starts; at the end all targets are cleared; with no targets it delivers the current record |
| IndexIdbCursor.PrimaryTargetSeek | js/ydn/db/index/req/idb_cursor.js:91-110 | with only a primary target the handler delivers the first record whose primary key is at or above the target, or the end |
| IndexIdbCursor.SeekingStep | js/ydn/db/index/req/idb_cursor.js:72-114 | while seeking an exclusive resume point, a record is delivered exactly when it lies beyond the point |
| IndexIdbCursor.PastResumeStep | js/ydn/db/index/req/idb_cursor.js:72-114 | the record after the resume record lies beyond it and is delivered |
| IndexIdbCursor.ResumeFrom | js/ydn/db/index/req/idb_cursor.js:64-127 | with the corrected handler, which keeps the index target (see Findings): from either resume state it delivers exactly the first record beyond the resume point |
| IndexIdbCursor.ResumeDeliversFirstBeyond | js/ydn/db/index/req/idb_cursor.js:171-176 | the corrected handler: an exclusive resume at (key, primary key) on a forward walk delivers the first record beyond that point, or the end |
| IndexIdbCursor.ResumeAsWrittenSkipsLaterKey | js/ydn/db/index/req/idb_cursor.js:84-104 | as written, resuming at (0, 5) over the entries (0, 1) and (1, 2) skips the entry at index key 1, which lies beyond the resume point |
| IndexIdbCursor.ClipRange | js/ydn/db/index/req/idb_cursor.js:180-200 | without a start key the range is kept; a forward start below the lower bound, or a reverse start above it, exhausts the cursor; otherwise a range without a lower or an upper bound, a start above the upper bound, or a start on an open upper bound is a DataError of the range constructor; an opened range keeps every key at or above the start and within the upper bound |
| IndexIdbCursor.ClipOpensOnStart | js/ydn/db/index/req/idb_cursor.js:195-196 | the range the backend is opened on always holds the start key, so it is never empty |
| IndexIdbCursor.ClipForwardKeepsRange | js/ydn/db/index/req/idb_cursor.js:181-196 | a forward start inside a bounded range opens on exactly the keys of the range at or above the start |
| IndexIdbCursor.IdxCursor.constructor | js/ydn/db/index/req/idb_cursor.js:22-32 | a cursor over the ordered records, with no backend cursor and no targets |
| IndexIdbCursor.IdxCursor.DeliveryAt | js/ydn/db/index/req/idb_cursor.js:82-124 | the callback gets (primary key, index key, value) of the record, no value for a key-only index cursor, and nothing at the end |
| IndexIdbCursor.IdxCursor.RunHandler | js/ydn/db/index/req/idb_cursor.js:64-127 | the success handler, corrected to keep the index target (see Findings), moves the cursor to where that filter stops and delivers that record |
| IndexIdbCursor.IdxCursor.OpenCursor | js/ydn/db/index/req/idb_cursor.js:171-265 | a clipping error, such as a start past the upper bound, is passed on; an exhausted start reports the end; otherwise the backend walks the records of the clipped range and the corrected handler (see Findings) stops as its filter decides |
| IndexIdbCursor.IdxCursor.Restart | js/ydn/db/index/req/idb_cursor.js:473-476 | a clipping error is passed on; with the corrected handler (see Findings), a forward restart at (effective key, primary key) delivers the first record beyond that point, and reports the end only when no record of the new walk is beyond it or the start lies below the range; the source's handler can skip a record beyond the point |
| IndexIdbCursor.IdxCursor.Advance | js/ydn/db/index/req/idb_cursor.js:482-495 | InvalidOperationError when the cursor is gone; TypeError for a step of 0; otherwise the position moves by the step, stopping at the end |
| IndexIdbCursor.IdxCursor.ContinuePrimaryKey | js/ydn/db/index/req/idb_cursor.js:501-517 | InvalidOperationError when the cursor is gone; on an index cursor, at least one step, to the first record whose primary key reaches the key; on a primary cursor, a backend `continue(key)` |
| IndexIdbCursor.IdxCursor.ContinueEffectiveKey | js/ydn/db/index/req/idb_cursor.js:523-536 | InvalidOperationError when the cursor is gone; one step without a key; DataError for a key not ahead; otherwise the first record not before the key |
| IndexIdbCursor.IdxCursor.Update | js/ydn/db/index/req/idb_cursor.js:431-446 | success iff there is a backend cursor, InvalidAccessError otherwise |
| IndexIdbCursor.IdxCursor.Clear | js/ydn/db/index/req/idb_cursor.js:452-467 | one record deleted if there is a backend cursor, InvalidAccessError otherwise |
| IndexIdbCursor.IdxCursor.Dispose | js/ydn/db/index/req/idb_cursor.js:541-544 | after disposal there is no backend cursor |
| SimpleCursor.AdvanceTarget | js/ydn/db/core/req/simple_cursor.js:154-176 | the node a counted advance stops at lies inside the buffer, and from a current node it exists exactly when current + step is inside the buffer |
| SimpleCursor.AdvanceAdds | js/ydn/db/core/req/simple_cursor.js:154-176 | advancing by a and then by b from a node reaches the node that advancing by a + b reaches |
| SimpleCursor.StartOf | js/ydn/db/core/req/simple_cursor.js:286-302 | the traversal from the start node begins at the first node not before the start in the direction of travel, skipping only nodes before it |
| SimpleCursor.SimpleCursor.constructor | js/ydn/db/core/req/simple_cursor.js:28-45 | an active cursor with the given flags, no current node and nothing ready to report |
| SimpleCursor.SimpleCursor.PositionAt | js/ydn/db/core/req/simple_cursor.js:248-273 | at a node: its key, its primary key on an index cursor and the key otherwise, and the value is kept for a key query, the primary key when key-only, else the stored record; at a null node everything is undefined |
| SimpleCursor.SimpleCursor.DefaultOnSuccess | js/ydn/db/core/req/simple_cursor.js:248-273 | the node becomes current and its position is ready to report |
| SimpleCursor.SimpleCursor.AdvanceStop | js/ydn/db/core/req/simple_cursor.js:154-176 | the traversal loop counting visited nodes stops at the advance target |
| SimpleCursor.SimpleCursor.Advance | js/ydn/db/core/req/simple_cursor.js:154-176 | the current node becomes the advance target and its position is ready |
| SimpleCursor.SimpleCursor.SeekStop | js/ydn/db/core/req/simple_cursor.js:182-218 | the traversal loop stops at the first node whose key is not before the key in the direction of travel, or at the end |
| SimpleCursor.SimpleCursor.ContinueEffectiveKey | js/ydn/db/core/req/simple_cursor.js:182-222 | with a key, the cursor moves to the first node not before it; without one, it advances by one |
| SimpleCursor.SimpleCursor.OpenCursor | js/ydn/db/core/req/simple_cursor.js:286-313 | an index cursor with a start key begins at the start node, any other at the first node; the first position is ready and completion is pending |
| SimpleCursor.SimpleCursor.DispatchTick | js/ydn/db/core/req/simple_cursor.js:228-239 | as written: a ready position is delivered, the handler's synchronous advance or continue moves the cursor and readies its position, and the flag is cleared only afterwards, so that position is never delivered; with nothing ready the completion callback runs once, and a second run finds it null (TypeError) |
| SimpleCursor.SimpleCursor.ReactionTarget | js/ydn/db/core/req/simple_cursor.js:154-222 | the node the handler's call leaves current: unchanged without a call, the advance target for `advance`, the seek target for `continueEffectiveKey` |
| SimpleCursor.SimpleCursor.React | js/ydn/db/core/req/simple_cursor.js:154-222 | the handler's synchronous call moves the cursor to that node and readies its position; without a call nothing changes |
| SimpleCursor.SimpleCursor.DispatchTickClearedFirst | js/ydn/db/core/req/simple_cursor.js:228-239 | with the flag cleared before `onSuccess`, a position the handler readies stays ready for the next tick |
| SimpleCursor.SimpleCursor.Update | js/ydn/db/core/req/simple_cursor.js:146-148 | the in-memory cursor always throws 'no update' |
| SimpleCursor.SimpleCursor.Clear | js/ydn/db/core/req/simple_cursor.js:319-322 | always throws 'no clear' |
| SimpleCursor.SimpleCursor.Restart | js/ydn/db/core/req/simple_cursor.js:328-331 | always throws 'no restart' |
| SimpleCursor.SimpleCursor.ContinuePrimaryKey | js/ydn/db/core/req/simple_cursor.js:337-340 | always throws 'no p cont' |
| SimpleCursor.SimpleCursor.Dispose | js/ydn/db/core/req/abstract_cursor.js:231-233 | after disposal `hasCursor` is false and the position is kept |
| MultiCursor.Decide | js/ydn/db/index/cursor.js:128-148 | (every cursor starts cued, so the source reaches this branch only through a cursor state the constructor never sets) a cursor that has not passed its saved position is cued exactly when it reports beyond it; a lower key seeks the saved key; the saved key with a lower primary key seeks the saved primary key; the saved position itself steps once; a falsy primary key (undefined, null, 0 or the empty string) at the saved key, where a primary key is saved, fails the truthiness assertion |
| MultiCursor.CueIsBeyond | js/ydn/db/index/cursor.js:128-141 | (for the same branch, unreachable from the constructor) for a reported record, a cue means being strictly beyond the saved position in forward key order, and for a truthy primary key the converse holds too |
| MultiCursor.ZeroPrimaryFailsAssertion | js/ydn/db/index/cursor.js:128-136 | a report at the saved key with primary key 0 fails the assertion although it lies beyond the saved primary key -1 |
| MultiCursor.Saved | js/ydn/db/index/cursor.js:324-340 | finalisation keeps every defined key and turns every other entry into undefined |
| MultiCursor.OpenAll | js/ydn/db/index/cursor.js:177-180 | the initial calls open each of the n cursors once, in order, with no start position |
| MultiCursor.DisposeAll | js/ydn/db/index/cursor.js:342-344 | finalisation disposes each live cursor once, in order |
| MultiCursor.FrontCursor.constructor | js/ydn/db/index/cursor.js:108-181 | every cursor is opened without a position, every cursor is cued, and no round has started or completed |
| MultiCursor.FrontCursor.Finalize | js/ydn/db/index/cursor.js:324-347 | the keys and primary keys are kept (undefined where not defined), the values are cleared and every live cursor is disposed |
| MultiCursor.FrontCursor.Exit | js/ydn/db/index/cursor.js:312-316 | the iteration is marked exited and the cursors are finalised |
| MultiCursor.FrontCursor.Skip | js/ydn/db/index/cursor.js:127-148 | (every cursor starts cued, so this branch is unreachable from the constructor) a cursor still seeking its saved position reacts as Decide says: cued, or one continue/advance call on that cursor, or the failure of the truthiness assertion on the primary key; an undefined saved key is a DataError in the comparison |
| MultiCursor.FrontCursor.CloseRound | js/ydn/db/index/cursor.js:152-161 | when every cursor has reported, the round count grows by one and onNext gets cursor 0's key, or nothing and the cursors are finalised when one is done |
| MultiCursor.FrontCursor.OnSuccess | js/ydn/db/index/cursor.js:124-163 | a missing key marks the cursor done; the report is recorded for cursor i; the cue reaction follows Decide; the round closes after the n-th report |
| MultiCursor.FrontCursor.OnError | js/ydn/db/index/cursor.js:169-174 | an error finalises the cursors, marks them done and resets the round |
| MultiCursor.FrontCursor.RestartFirst | js/ydn/db/index/cursor.js:220-222 | restart is forwarded to cursor 0 with its two arguments swapped; with no live cursor it fails |
| MultiCursor.FrontCursor.ContinuePrimaryKeyFirst | js/ydn/db/index/cursor.js:229-231 | forwarded to cursor 0; with no live cursor it fails |
| MultiCursor.FrontCursor.ContinueEffectiveKeyFirst | js/ydn/db/index/cursor.js:238-240 | forwarded to cursor 0; with no live cursor it fails |
| MultiCursor.FrontCursor.AdvanceFirst | js/ydn/db/index/cursor.js:247-249 | forwarded to cursor 0; with no live cursor it fails |
| CoreOperator.LimitArg | src/ydn/db/core/operator.js:125-135 | an absent limit takes the default; a number below 1 and a non-number are ArgumentException; a number at least 1 is the limit |
| CoreOperator.GetByIterator | src/ydn/db/core/operator.js:84-106 | accepted exactly when the store exists and the index, if named, belongs to it; the request is a GET_ITER on that one store; otherwise ArgumentException |
| CoreOperator.KeysByIterator | src/ydn/db/core/operator.js:117-154 | accepted exactly when the limit passes and no offset is given; a KEYS_ITER request over the iterator's stores with the default or the given limit |
| CoreOperator.CountByIterator | src/ydn/db/core/operator.js:165-185 | accepted exactly when no further argument is given; a COUNT request over the iterator's stores |
| CoreOperator.ValuesByIterator | src/ydn/db/core/operator.js:196-227 | accepted exactly when the limit passes and no offset is given; the limit is passed on, or none |
| CoreOperator.ScanScope | src/ydn/db/core/operator.js:279-289 | the scan's scope holds each store of every iterator exactly once, in first-seen order, in read-only mode |
| CoreOperator.AddScopes | src/ydn/db/core/operator.js:284-288 | the inner scope loop appends each store not yet listed, so the list stays the first-seen listing of all stores met so far |
| CoreOperator.AllStoresMembers | src/ydn/db/core/operator.js:281-289 | the concatenated store lists contain exactly the stores of the iterators |
| CoreOperator.ActionOf | src/ydn/db/core/operator.js:433-464 | a cursor moves exactly when the plan has an entry for it; restart takes precedence over continue, continue over continuePrimary, and continuePrimary over advance |
| CoreOperator.Decode | src/ydn/db/core/operator.js:336-389 | an array output maps true to advance, false to restart and anything else to continue; undefined advances every cursor once; null moves none; an object is taken as the plan when its attributes are the four valid ones, and refused otherwise; any other output is InvalidOperationException |
| CoreOperator.MovingSpec | src/ydn/db/core/operator.js:390-403 | the moving cursors, in increasing order, are exactly those the plan moves; the others count as already reported |
| CoreOperator.MovingStep | src/ydn/db/core/operator.js:404-467 | one more cursor adds itself and its call to the round exactly when it moves |
| CoreOperator.NullOutputMovesNothing | src/ydn/db/core/operator.js:361-363 | a null solver output moves no cursor, so the scan ends |
| CoreOperator.UndefinedOutputMovesAll | src/ydn/db/core/operator.js:364-371 | an undefined solver output moves every cursor, in order |
| CoreOperator.ScanValue | src/ydn/db/core/operator.js:509-522 | the value recorded for an iterator: the primary key for an index key iterator, the key for a store key iterator, the record value otherwise |
| CoreOperator.ScanRun.constructor | src/ydn/db/core/operator.js:300-327 | every key and value starts undefined, no report has arrived, the scan is live and no call or completion has happened |
| CoreOperator.ScanRun.DoExit | src/ydn/db/core/operator.js:313-323 | every live cursor is exited once, the scan is done and completes without a result |
| CoreOperator.ScanRun.OnError | src/ydn/db/core/operator.js:530-537 | every live cursor is exited once and the scan completes with the error |
| CoreOperator.ScanRun.OnResultReady | src/ydn/db/core/operator.js:332-473 | a refused solver output is InvalidOperationException and changes nothing; otherwise the round moves exactly the planned cursors and exits when none moves |
| CoreOperator.ScanRun.MoveOne | src/ydn/db/core/operator.js:409-465 | a moving cursor passes the debug and assertion checks or fails; on success its key is cleared and its action is called on it |
| CoreOperator.ScanRun.MoveRound | src/ydn/db/core/operator.js:390-471 | the non-moving cursors are counted first; every moving cursor gets its call in index order; with no moving cursor the scan exits; a failing check names a moving cursor that does not pass |
| CoreOperator.ScanRun.MoveAll | src/ydn/db/core/operator.js:404-467 | the second loop calls the moving cursors in index order and clears their keys, or stops at the first that fails its checks |
| CoreOperator.ScanRun.Visit | src/ydn/db/core/operator.js:404-467 | one turn of the second loop: a cursor that does not move passes untouched; a moving one that passes its checks has its key cleared and its call made; a failure names a moving cursor that does not pass |
| CoreOperator.ScanRun.OnIteratorNext | src/ydn/db/core/operator.js:481-528 | a report after the scan is done is InternalError; otherwise the key and value are recorded and, with the last report of the round, the solver's output is acted on |
| CoreOperator.ExitAll | src/ydn/db/core/operator.js:315-317 | every cursor is exited once, in order |
| CoreOperator.OpenSettle | src/ydn/db/core/operator.js:606-636 | a cursor failure rejects `open`'s request with the cursor's error; a report resolves it exactly when the reaction is to exit; any other report leaves it pending |
| CoreOperator.OpenReaction | src/ydn/db/core/operator.js:613-636 | at the end, or for an advice object with no restart and no target, the cursor exits and the transaction completes; true restarts; an object with restart restarts at its keys; a continue key takes precedence over a primary key; any other advice advances once |
| CoreOperator.OpenRequest | src/ydn/db/core/operator.js:586-601 | accepted exactly when the store exists, over the iterator's stores in the given mode or read-only; otherwise ArgumentException |
| CoreOperator.MapRef | src/ydn/db/core/operator.js:675-689 | the reference map passes on: the key for a key iterator, the primary key for an index value iterator, the value for a store value iterator |
| CoreOperator.MapRefVersusScanValue | src/ydn/db/core/operator.js:675-689 | map and scan agree on store iterators and disagree on index iterators: on an index key iterator map passes the effective key and scan the primary key; on an index value iterator map passes the primary key and scan the value |
| CoreOperator.StoreCheckAsWritten | src/ydn/db/core/operator.js:651-657 | as written, the store check of map and reduce never throws, whatever the stores |
| CoreOperator.StoreCheck | src/ydn/db/core/operator.js:651-657 | the intended check: fails with ArgumentException exactly when a store of the iterator is not in the schema |
| CoreOperator.Map | src/ydn/db/core/operator.js:648-703 | with the intended check, fails with ArgumentException exactly when a store is missing; otherwise the callback receives each reported record's reference, in cursor order, and the request resolves with undefined at the end or, when the cursor fails, with the error as its value |
| CoreOperator.Reduce | src/ydn/db/core/operator.js:709-769 | with the intended check, fails with ArgumentException when a store is missing; otherwise a cursor failure rejects the request with its error, and without one the result is the left fold of the callback over the references with their indices |
| SerialThread.NormalizeStores | js/ydn/db/tr/serial.js:290-296 | a string becomes a one-name list; an array is accepted exactly when it is empty or its first element is a string; anything else is ArgumentException |
| SerialThread.CallArgs | js/ydn/db/tr/serial.js:302-308 | the transaction function is called with the thread first and then its bound arguments |
| SerialThread.Wrap | js/ydn/db/tr/serial.js:299-310 | without extra arguments the function is used as it is; with them the wrapper keeps the function's own bound arguments first but carries its own name (`outFn`), since assigning `name` to a function has no effect |
| SerialThread.WrapAppendsArguments | js/ydn/db/tr/serial.js:302-308 | the wrapper passes the extra arguments after the call's own arguments |
| SerialThread.Mutex.Up | js/ydn/db/tr/serial.js:321-324 | a starting transaction is held, available and numbered one past the previous count |
| SerialThread.Mutex.Out | js/ydn/db/tr/serial.js:329 | once the transaction function returns, the transaction stays active but is no longer available |
| SerialThread.Mutex.Down | js/ydn/db/tr/serial.js:349 | a completed transaction is released and the count is kept |
| SerialThread.Serial.constructor | js/ydn/db/tr/serial.js:23-58 | an empty queue and a fresh mutex |
| SerialThread.Serial.GetTx | js/ydn/db/tr/serial.js:162-164 | the held transaction exactly when it is active and available, null otherwise |
| SerialThread.Serial.GetActiveTx | js/ydn/db/tr/serial.js:135-137 | the mutex exactly when the transaction is active and available |
| SerialThread.Serial.GetTxNo | js/ydn/db/tr/serial.js:117-119 | the number of transactions started so far |
| SerialThread.Serial.Run | js/ydn/db/tr/serial.js:284-367 | malformed store names are ArgumentException and change nothing; with a transaction active the wrapped request joins the tail of the queue with the mode defaulting to read-only; otherwise a transaction is requested from the storage at once, to call the wrapper under the scope name of the function given |
| SerialThread.Serial.PushTxQueue | js/ydn/db/tr/serial.js:223-247 | the request is appended to the tail of the queue and nothing else changes; the queue stays first-in first-out (the requests taken off the head followed by those waiting are all requests queued, in order) |
| SerialThread.Serial.PopTxQueue | js/ydn/db/tr/serial.js:204-212 | the head of the queue, if any, is removed and run, which asks the storage for its transaction; a queued wrapper is run without extra arguments, so its scope name is the wrapper's own |
| SerialThread.Serial.Process | js/ydn/db/tr/serial.js:321-331 | the transaction is taken up under the request's scope name, the function is called once, and the transaction is left active but no longer available |
| SerialThread.Serial.Completed | js/ydn/db/tr/serial.js:333-357 | the handler, if any, is told the event; its exception is passed on only in the debug build; the mutex is released either way and, when the storage's base queue is empty, the next queued request is started |
| SerialThread.Serial.Abort | js/ydn/db/tr/serial.js:253-262 | an active transaction is aborted; with none, InvalidStateError |
| ParallelThread.SubScope | js/ydn/db/tr/parallel.js:239-258 | true exactly when a scope and a mode are recorded, the mode matches or a read-write transaction serves a read-only request, and every requested store is in a scope at least as long |
| ParallelThread.AllIn | js/ydn/db/tr/parallel.js:252-256 | the `indexOf` loop: every store of the first list occurs in the second |
| ParallelThread.SameScopeAsWritten | js/ydn/db/tr/parallel.js:212-228 | as written, the test reads the `store_names` field, which the thread never sets, so it can only be true where the intended test is |
| ParallelThread.SameScopeAsWrittenRejectsOwnScope | js/ydn/db/tr/parallel.js:213-215 | as written, even the recorded scope and mode themselves are not the same scope, while the intended test accepts them |
| ParallelThread.SameScope | js/ydn/db/tr/parallel.js:212-228 | the intended test: true exactly when scope and mode are recorded, the mode is the same, the store lists have the same length and every requested store is in the scope |
| ParallelThread.SameScopeIsSubScope | js/ydn/db/tr/parallel.js:212-258 | the same scope is always a sub-scope, and the recorded scope is the same as itself |
| ParallelThread.ReadWriteCoversReadOnly | js/ydn/db/tr/parallel.js:243-248 | a read-write transaction covers a read-only request on its stores, and not the other way round |
| ParallelThread.Parallel.constructor | js/ydn/db/tr/parallel.js:24-50 | no transaction, scope or mode, and nothing requested |
| ParallelThread.Parallel.IsActive | js/ydn/db/tr/parallel.js:200-202 | active exactly when a transaction is held |
| ParallelThread.Parallel.Exec | js/ydn/db/tr/parallel.js:331-366 | with a transaction held and reuse accepted, the callback is called at once with that transaction; otherwise the scope and mode are recorded and a new transaction is asked of the storage |
| ParallelThread.Parallel.ProcessTx | js/ydn/db/tr/parallel.js:280-306 | a transaction is asked of the storage, leaving scope and mode as they are |
| ParallelThread.Parallel.Process | js/ydn/db/tr/parallel.js:284-291 | the storage's transaction becomes the held one and the request's callback runs, handed the transaction for a request made by exec and the thread itself for one made by processTx |
| ParallelThread.Parallel.Complete | js/ydn/db/tr/parallel.js:293-299 | the transaction is released; a transaction opened by exec also forgets its scope and mode; each request's handler is told the event at most once |
| ParallelThread.Parallel.Abort | js/ydn/db/tr/parallel.js:266-273 | a held transaction is aborted; with none, InvalidOperationException |
| SingleThread.Single.constructor | js/ydn/db/tr/single.js:25-31 | no transaction yet and not done |
| SingleThread.Single.Exec | js/ydn/db/tr/single.js:54-71 | with the transaction live the callback is called with its deferred and that transaction; after the transaction has ended, InvalidStateError; the first request marks the thread done and asks for the one transaction |
| SingleThread.Single.Process | js/ydn/db/tr/parallel.js:284-291 | the storage's transaction is held and the first request's callback runs with its deferred and the thread itself, as the inherited processTx hands it |
| SingleThread.Single.Complete | js/ydn/db/tr/parallel.js:293-299 | the transaction is released before the handler runs; the thread stays done; the request's handler is called with the event type, at most once over the thread's life (kept by `Valid`) |
| Paging.Deliver | src/ydn/db/core/req/simple_store.js:136-142 | a GET receives the first collected item, or undefined when there is none; any other request receives the whole list |
| Paging.PageStart | src/ydn/db/core/req/simple_store.js:125-129 | collection starts after the skipped records, never past the end |
| Paging.Take | src/ydn/db/core/req/simple_store.js:130-138 | a limit of one or more admits that many records; a smaller limit still admits one, since the count is tested after the push |
| Paging.PageEnd | src/ydn/db/core/req/simple_store.js:130-143 | collection stops between its start and the end of the records |
| Paging.Page | src/ydn/db/core/req/simple_store.js:101-145 | the page holds exactly the shaped records from the start to the stop, in cursor order |
| Paging.PageSize | src/ydn/db/core/req/simple_store.js:130-138 | a page holds at most `limit` items, all remaining records without a limit, and exactly `limit` when there are that many and no offset |
| Paging.PagesConcatenate | src/ydn/db/core/req/simple_store.js:101-145 | the page of a items at an offset followed by the page of b items right after it is the page of a + b items |
| Paging.Pager.constructor | src/ydn/db/core/req/simple_store.js:105-116 | nothing collected, not cued and not finished |
| Paging.Pager.OnNext | src/ydn/db/core/req/simple_store.js:120-144 | the end delivers what was collected; the first record with a positive offset is skipped with one advance(offset); any other record is collected, and the handler steps on below the limit and exits and delivers at it |
| Paging.Pager.OnFail | src/ydn/db/core/req/simple_store.js:111-114 | the error is delivered with the executor's flag, after exiting the cursor where the executor does |
| Paging.Collect | src/ydn/db/core/req/simple_store.js:101-145 | a handler driven by a cursor over the records delivers exactly the page: the records after the offset, up to the limit |
| SimpleStoreExec.IterateFlavour | src/ydn/db/core/req/simple_store.js:111-144 | `iterate_` ends on an undefined or null key, steps with advance(1), exits on error and flags it, and a GET delivers only the first item |
| SimpleStoreExec.IterateItem | src/ydn/db/core/req/simple_store.js:122-131 | a key iterator collects the primary key (on an index) or the key, a value iterator the value |
| SimpleStoreExec.KeysByIterator | src/ydn/db/core/req/simple_store.js:48-90 | the delivered keys are exactly the effective keys of the page at the offset and limit |
| SimpleStoreExec.ListByIterator | src/ydn/db/core/req/simple_store.js:151-155 | the delivered list is exactly the page of collected items at the offset and limit |
| SimpleStoreExec.GetByIterator | src/ydn/db/core/req/simple_store.js:161-163 | the first record's item, or undefined when the cursor is empty |
| SimpleStoreExec.GetCursor | src/ydn/db/core/req/simple_store.js:169-180 | an unknown store fails the assertion; otherwise the cursor is built on the store with the index name resolved |
| IndexedDbExec.ListItem | js/ydn/db/core/req/indexed_db.js:116-125 | a key-only iterator collects the primary key (on an index) or the key, any other the value |
| IndexedDbExec.NullKeyIsARecord | js/ydn/db/core/req/indexed_db.js:68-115 | only an undefined key ends these scans; a null key is collected like a record |
| IndexedDbExec.KeysByIterator | js/ydn/db/core/req/indexed_db.js:50-90 | the delivered keys are exactly the effective keys of the page at the offset and limit |
| IndexedDbExec.ListByIterator | js/ydn/db/core/req/indexed_db.js:96-139 | stepping with continueEffectiveKey(), the delivered list is exactly the page of collected items |
| IndexedDbExec.GetCursor | js/ydn/db/core/req/indexed_db.js:145-150 | the cursor is built on the arguments as given |
| CoreWebSqlExec.FetchFlavour | src/ydn/db/core/req/websql.js:119-163 | `fetchIterator_` ends only on an undefined key, steps with continueEffectiveKey(), exits on error and flags it, and a GET delivers only the first item |
| CoreWebSqlExec.FetchItem | src/ydn/db/core/req/websql.js:140-149 | KEYS collects the effective key; otherwise an index key iterator collects the primary key and any other iterator the value |
| CoreWebSqlExec.PrimaryKeyIteratorListsValues | src/ydn/db/core/req/websql.js:143-148 | listing a store key iterator yields record values here, where the in-memory executor yields the keys |
| CoreWebSqlExec.FetchIterator | src/ydn/db/core/req/websql.js:101-166 | the delivered outcome is exactly the page of fetched items at the offset and limit, or its first item for GET |
| CoreWebSqlExec.KeysByIterator | src/ydn/db/core/req/websql.js:66-70 | the delivered keys are exactly the effective keys of the page |
| CoreWebSqlExec.ListByIterator | src/ydn/db/core/req/websql.js:84-90 | the delivered list is exactly the page of items the VALUES method fetches |
| CoreWebSqlExec.GetByIterator | src/ydn/db/core/req/websql.js:76-78 | the first record's item, or undefined when the cursor is empty |
| CoreWebSqlExec.GetCursor | src/ydn/db/core/req/websql.js:172-178 | an unknown store fails the assertion; otherwise a cursor on the store for the method |
| CoreWebSqlExec.GetStreamer | src/ydn/db/core/req/websql.js:184-187 | always throws the string "not yet": streamers are not supported |
| IndexWebSqlExec.FetchItem | js/ydn/db/index/req/websql.js:127-136 | a key query collects the effective key; otherwise a key-only index iterator collects the primary key and any other iterator the value |
| IndexWebSqlExec.FetchIterator | js/ydn/db/index/req/websql.js:95-151 | the delivered list is exactly the page of fetched items at the offset and limit |
| IndexWebSqlExec.KeysByIterator | js/ydn/db/index/req/websql.js:68-71 | the delivered keys are exactly the effective keys of the page |
| IndexWebSqlExec.ListByIterator | js/ydn/db/index/req/websql.js:77-82 | the delivered list is exactly the page of items a value query fetches |
| IndexWebSqlExec.GetCursor | js/ydn/db/index/req/websql.js:157-165 | an unknown store fails the assertion; otherwise the cursor is built on the arguments as given |
| WebSqlExec.Quote | js/ydn/db/core/req/websql.js:194 | a quoted identifier is the name between two double quotes |
| WebSqlExec.IntText | js/ydn/db/core/req/websql.js:221-226 | the decimal text of a number is non-empty and starts with '-' exactly when it is negative |
| WebSqlExec.SelectText | js/ydn/db/core/req/websql.js:208-226 | the listing statement is a SELECT |
| WebSqlExec.SelectTextEnds | js/ydn/db/core/req/websql.js:218-226 | the statement ends with the OFFSET clause when an offset is given, else with the LIMIT clause when a limit is given, else with the sort order |
| WebSqlExec.ListByKeyRange | js/ydn/db/core/req/websql.js:184-226 | a WHERE clause and its parameters appear exactly when a key range is given; the rows are ordered on the listed column, descending exactly when reversed; limit, offset, DISTINCT, table and fields are those asked for |
| WebSqlExec.ListColumn | js/ydn/db/core/req/websql.js:192 | the index column when one is named and non-empty, the store's key column otherwise |
| WebSqlExec.ListFields | js/ydn/db/core/req/websql.js:191-207 | a key listing selects the key column; a value listing selects every column when an index column is named and only the listed column when none is |
| WebSqlExec.StoreValueListingSelectsKeyColumn | js/ydn/db/core/req/websql.js:191-207 | as written, a value listing of a whole store selects only the key column, the same as a key listing, while a value listing on an index selects every column |
| WebSqlExec.ClearByKeyRange | js/ydn/db/core/req/websql.js:932-952 | without a range every row of the table is deleted; with one, the WHERE clause is built on the named column with the index type, or on the store's key column with the store type |
| WebSqlExec.CountKeyRange | js/ydn/db/core/req/websql.js:1052-1068 | without a range every row is counted; with one, the WHERE clause is built on the index name or the key column, with the store type |
| WebSqlExec.Join | js/ydn/db/core/req/websql.js:355-357 | joining no parts gives the empty text and one part gives that part |
| WebSqlExec.InsertSql | js/ydn/db/core/req/websql.js:330-357 | an INSERT for create, an INSERT OR REPLACE otherwise, ending with ");" |
| WebSqlExec.InsertedKey | js/ydn/db/core/req/websql.js:366 | the record's own key when it has one, the row id SQLite assigned otherwise |
| WebSqlExec.RowItem | js/ydn/db/core/req/websql.js:233-239 | a key listing decodes the key column of the row; a value listing parses the row |
| WebSqlExec.DecodeRows | js/ydn/db/core/req/websql.js:232-243 | the listing holds one item per row, in row order |
| WebSqlExec.Window.constructor | js/ydn/db/core/req/websql.js:404-413 | the first statements up to the window width are started at once; with no objects the empty list is the reply |
| WebSqlExec.Window.OnSuccess | js/ydn/db/core/req/websql.js:363-383 | a single insert replies with its key at once; otherwise the result is stored at its index, the reply is the full list after the last success, and until then the statement one window further on is started if it exists |
| WebSqlExec.Window.OnError | js/ydn/db/core/req/websql.js:390-397 | a failed statement replies with the error and starts nothing further |
| WebSqlExec.DueAfterSuccess | js/ydn/db/core/req/websql.js:376-379 | a success of statement i makes due exactly the statement one window further on, which had not been started |
| WebSqlExec.SuccessKeepsInv | js/ydn/db/core/req/websql.js:363-383 | a success of a started, unanswered statement keeps the window invariant: started statements are exactly those due, each once, and the deferred is called back exactly when all have succeeded |
| WebSqlExec.IssuedBelow | js/ydn/db/core/req/websql.js:376-379 | only statements for existing objects are started |
| WebSqlExec.QuiescentIsComplete | js/ydn/db/core/req/websql.js:343-413 | when no statement is in flight and none failed, every statement was started and succeeded, and the deferred was called back exactly once |
| WebSqlExec.DoneFrom | js/ydn/db/core/req/websql.js:376-379 | with nothing in flight and no failure, each statement succeeded, because its predecessor one window back did and so started it |
| WebSqlExec.InFlightBounded | js/ydn/db/core/req/websql.js:376-379 | no more statements are in flight than the window width |
| WebSqlExec.InsertObjects | js/ydn/db/core/req/websql.js:325-414 | the insertion fan-out runs over a window of RW_REQ_PER_TX = 2, starting the first two statements at once, and replies with the empty list when there are no objects |
| WebSqlExec.ListByIds | js/ydn/db/core/req/websql.js:494-574 | the fetch fan-out (also that of `listByKeys`) runs over a window of REQ_PER_TX = 10, starting the first ten statements at once, and replies with the empty list when there are no ids |
| WebSqlExec.Chain.constructor | js/ydn/db/core/req/websql.js:764-813 | with no stores the reply is 0 at once; otherwise the first statement is started |
| WebSqlExec.Chain.OnSuccess | js/ydn/db/core/req/websql.js:1006-1018 | each success starts the next store's statement; after the last, a clear replies with the number of stores and a count with the counts in store order |
| WebSqlExec.Chain.OnError | js/ydn/db/core/req/websql.js:1025-1032 | a failed statement replies with the error and the chain stops |
| WebSqlExec.Somes | js/ydn/db/core/req/websql.js:1009 | each count is recorded at its store's position |
| WebSqlExec.ChainCompletes | js/ydn/db/core/req/websql.js:989-1046 | a chain with nothing in flight and no failure has run every store's statement once and called back exactly once |
| CrudOperator.ParseRange | js/ydn/db/crud/operator.js:140 | only a key-range argument parses to a range, and it parses to its own range |
| CrudOperator.ToKey | js/ydn/db/crud/operator.js:234 | numbers, strings and dates are valid keys, an array is one exactly when each element is, and nothing else is |
| CrudOperator.NumberArg | js/ydn/db/crud/operator.js:322-335 | a number is taken as given, an absent argument takes the default, anything else is an ArgumentException |
| CrudOperator.ReverseArg | js/ydn/db/crud/operator.js:382-389 | the reverse flag is accepted exactly when it is absent (false) or a boolean (its value); otherwise an ArgumentException |
| CrudOperator.ReverseArgAsWritten | js/ydn/db/crud/operator.js:336-343 | as written, the test of the function object itself always passes, so any argument is taken as the flag by its truthiness |
| CrudOperator.ReverseAsWrittenAcceptsString | js/ydn/db/crud/operator.js:336-343 | as written, the string "yes" is accepted as reverse = true where the intended check raises ArgumentException |
| CrudOperator.ReverseChecksAgree | js/ydn/db/crud/operator.js:336-343 | the two checks agree exactly on booleans and on the absent argument |
| CrudOperator.ScanKeys | js/ydn/db/crud/operator.js:546-563 | the scan of a key list finds every store known exactly when all are keys of known stores; otherwise it reports the first element that is not a key or names an unknown store, after a prefix that is all known keys |
| CrudOperator.KeyStoreNames | js/ydn/db/crud/operator.js:826-831 | the store names of a key list are collected in order of first appearance, without repetition, and include every key's store |
| CrudOperator.KeyListStores | js/ydn/db/crud/operator.js:1323-1336 | the transaction scope of a key list is distinct, covers the store of every key and holds nothing else |
| CrudOperator.CountRange | js/ydn/db/crud/operator.js:128-174 | with an index name the third argument must be a valid range object or absent/null; without one the second must be a valid range object or absent; failures are ArgumentException and a success is the parsed range |
| CrudOperator.Count | js/ydn/db/crud/operator.js:74-190 | no store name is an ArgumentException; a store array with extra arguments or an unknown store is refused, else counts those stores; a single unknown store is refused, a non-boolean unique is a TypeError, else the request counts the key range on that store and index |
| CrudOperator.CountWholeStore | js/ydn/db/crud/operator.js:116-182 | counting a known store with no further arguments counts its whole key range, no index, not unique |
| CrudOperator.Get | js/ydn/db/crud/operator.js:196-248 | a key or a store name with an id becomes getById on that store; an unknown store gives undefined under an auto schema and an ArgumentException otherwise; an invalid id fails the assertion; other arguments are an ArgumentException |
| CrudOperator.GetByKeyIsGetById | js/ydn/db/crud/operator.js:201-240 | getting by a key object is the same request as getting by its store name and id |
| CrudOperator.PagingArgs | js/ydn/db/crud/operator.js:368-389 | limit and offset are accepted when numbers or absent (defaults 100 and 0) and the reverse check must pass; otherwise the first failure is reported |
| CrudOperator.RangeArgCheck | js/ydn/db/crud/operator.js:352-367 | a key-range argument must be a valid range object or absent/null; an invalid object is an ArgumentException, a non-object a TypeError |
| CrudOperator.KeysOp | js/ydn/db/crud/operator.js:255-399 | a non-string or (without auto schema) unknown store or unknown index is an ArgumentException; an unknown store under an auto schema answers the empty list; a successful index listing is keysByIndexKeyRange with the parsed range and paging; otherwise range and paging are checked in order and keysByKeyRange is scheduled on the one store |
| CrudOperator.KeysByIndex | js/ydn/db/crud/operator.js:310-350 | as written, the index listing succeeds exactly when the range validates and the paging arguments pass, with the reverse flag as the as-written test yields |
| CrudOperator.KeysDefaults | js/ydn/db/crud/operator.js:351-395 | listing the keys of a known store with no further arguments lists the whole store forward, at most 100 keys from offset 0 |
| CrudOperator.KeysAcceptsNonBooleanReverse | js/ydn/db/crud/operator.js:336-343 | as written, an index key listing with reverse = "yes" runs reversed; the intended operation refuses it |
| CrudOperator.ValuesOp | js/ydn/db/crud/operator.js:405-582 | an unknown store answers the empty list under an auto schema and NotFoundError otherwise; an id array becomes listByIds unless more arguments follow; an index name needs a known index and a valid range, then paging; otherwise range and paging are checked and listByKeyRange is scheduled; a key array is listByKeys; anything else is an ArgumentException |
| CrudOperator.ValuesByKeys | js/ydn/db/crud/operator.js:539-570 | a key list whose stores are all known schedules listByKeys over its distinct stores; under an auto schema an unknown store answers a list of undefined of the same length |
| CrudOperator.ValuesByKeysStores | js/ydn/db/crud/operator.js:546-563 | the scope of a listing by keys is distinct, covers every key's store and holds nothing else |
| CrudOperator.StoreNameOf | js/ydn/db/crud/operator.js:591-593 | the store name is the string itself or the name field of a schema object, and nothing for any other argument |
| CrudOperator.ResolveStore | js/ydn/db/crud/operator.js:718-754 | no name is an ArgumentException; an unknown store is added from the argument under an auto schema and is the given error otherwise; a known store given as a schema that differs under an auto schema is NotSupportedException |
| CrudOperator.Add | js/ydn/db/crud/operator.js:588-709 | a failed store lookup is passed on; a key with a string key path, or no key for a store with neither inline keys nor auto-increment, is an ArgumentException; an array adds many, an object adds one, anything else is an ArgumentException; every success is a read-write request |
| CrudOperator.InlineKeyOf | js/ydn/db/crud/operator.js:800 | an inline key can only come from a record object, and it is that record's key |
| CrudOperator.PutToStore | js/ydn/db/crud/operator.js:852-929 | like add, except that an inline-key store refuses explicit keys, and an invalid explicit key or a missing inline key without auto-increment fails the assertion |
| CrudOperator.KeyedValues | js/ydn/db/crud/operator.js:837-839 | each value keeps its place; a record bound for an inline-key store has its key set to the key's id |
| CrudOperator.Put | js/ydn/db/crud/operator.js:781-941 | a key into an unknown store is an ArgumentException; into an out-of-line store it puts with the id as key; into an inline store a conflicting inline key is refused, otherwise the key is set and put; a key array needs no further keys, known stores and as many values, and schedules putByKeys over the distinct stores; a name or schema goes to the single-store put; anything else is an ArgumentException |
| CrudOperator.CmpAgrees | js/ydn/db/crud/operator.js:802 | keys that compare equal are the same key |
| CrudOperator.PutByKeySetsInlineKey | js/ydn/db/crud/operator.js:806-809 | putting a record without an inline key by a key of an inline store sets the record's key to the id |
| CrudOperator.PutByKeyPassesId | js/ydn/db/crud/operator.js:810-812 | putting by a key of an out-of-line store passes the id as the explicit key |
| CrudOperator.PutByKeysStores | js/ydn/db/crud/operator.js:826-851 | the scope of a put by keys is distinct, covers every key's store and holds nothing else |
| CrudOperator.DumpInternal | js/ydn/db/crud/operator.js:955-1004 | on the sync thread: an unknown store is NotFoundError, a missing key for a store that needs one an ArgumentException, else putObjects; a key list succeeds exactly when its stores are known and puts by keys over its distinct stores; anything else fails the assertion |
| CrudOperator.RemoveInternal | js/ydn/db/crud/operator.js:1012-1029 | succeeds exactly when every key names a known store, removing by keys over their distinct stores on the sync thread; a non-key is a TypeError, an unknown store NotFoundError |
| CrudOperator.ListInternal | js/ydn/db/crud/operator.js:1045-1080 | fails with NotFoundError exactly when the store or the named index is unknown; otherwise a VALUES_INDEX request on the sync thread lists by index or by key range |
| CrudOperator.ValuesInternal | js/ydn/db/crud/operator.js:1088-1109 | no keys answer the empty list; otherwise succeeds exactly when every store is known and lists by keys over their distinct stores |
| CrudOperator.KeysInternal | js/ydn/db/crud/operator.js:1124-1158 | fails with NotFoundError exactly when the store or the named index is unknown; otherwise keys by index or by key range on the sync thread |
| CrudOperator.Clear | js/ydn/db/crud/operator.js:1164-1219 | a third argument is refused; a known store is cleared wholly or over a parsed range; no argument clears every store of the schema; a non-empty array of names clears those stores; anything else is an ArgumentException |
| CrudOperator.ClearAllIsClearByNames | js/ydn/db/crud/operator.js:1205-1211 | clearing with no argument is clearing the list of all store names |
| CrudOperator.Remove | js/ydn/db/crud/operator.js:1225-1351 | on a known store: with a third argument, removes over a known index and a range or null; otherwise by id or over a range; a key removes by its id; a key array succeeds exactly when non-empty and all keys, over their distinct stores; the rest is an ArgumentException |
| CrudOperator.RemoveByKeyIsRemoveById | js/ydn/db/crud/operator.js:1309-1317 | removing by a key object is removing by its store name and id |
| IndexSchema.DataType.Name | js/ydn/db/base/schema/index.js:166-172 | every data type name is non-empty and holds no comma |
| IndexSchema.ToTypeName | js/ydn/db/base/schema/index.js:299-300 | a name maps to the listed type of that name, and to nothing exactly when no type has it |
| IndexSchema.ToTypeNameRoundTrip | js/ydn/db/base/schema/index.js:275-300 | each data type is found again from its name |
| IndexSchema.ToType | js/ydn/db/base/schema/index.js:289-303 | an array maps element by element; a known type name maps to its type; anything else is undefined |
| IndexSchema.CheckType | js/ydn/db/base/schema/index.js:70-81 | the constructor's type check passes exactly for an absent type, a known name, or an array of known names, giving that type; otherwise ArgumentException |
| IndexSchema.TypeArg | js/ydn/db/base/schema/index.js:70-81 | every index type has an argument that the type check accepts as that type |
| IndexSchema.NamesCheck | js/ydn/db/base/schema/index.js:70-81 | an array of type names is accepted as the array type of those types |
| IndexSchema.DefaultName | js/ydn/db/base/schema/index.js:31-37 | a given name is kept; otherwise an array key path is joined with ", " and any other key path is the name |
| IndexSchema.NewIndex | js/ydn/db/base/schema/index.js:28-105 | construction succeeds exactly when the key path is absent, a string or an array and the type is valid, otherwise ArgumentException; the name defaults from the key path, an absent key path takes the name, and unique and multiEntry are the truthiness of their arguments |
| IndexSchema.NameAndKeyPathDefaults | js/ydn/db/base/schema/index.js:31-55 | a key path alone names the index, a name alone is the key path, and an array key path is named by its parts joined with ", " |
| IndexSchema.NewIndexWellFormed | js/ydn/db/base/schema/index.js:28-105 | a constructed index with a string or absent name is well formed |
| IndexSchema.Clone | js/ydn/db/base/schema/index.js:386-399 | cloning a well-formed index gives the same index |
| IndexSchema.CompareKeyPath | js/ydn/db/base/schema/index.js:410-426 | no difference exactly when both key paths are absent or both are present and equal; a difference is a non-empty message |
| IndexSchema.Difference | js/ydn/db/base/schema/index.js:436-466 | the empty string exactly when the other index exists and agrees on name, key path, unique, multiEntry and data type |
| IndexSchema.DifferenceReflexive | js/ydn/db/base/schema/index.js:436-466 | an index does not differ from itself |
| IndexSchema.ScalarAgainstArray | js/ydn/db/base/schema/index.js:458-463 | a scalar type differs from an array type unless the array is that one type's name alone |
| IndexSchema.DifferenceNotSymmetric | js/ydn/db/base/schema/index.js:458-463 | a TEXT index shows no difference against the same index typed [TEXT], while the reverse comparison shows one |
| IndexSchema.Hint | js/ydn/db/base/schema/index.js:490-507 | no guide leaves the index as is; a guide of another name fails the assertion; otherwise the index is rebuilt, becoming multiEntry when the guide is and its own type is TEXT |
| IndexSchema.ToAbbrType | js/ydn/db/base/schema/index.js:311-319 | a date is tagged "d", a number "n", anything else "t" |
| IndexSchema.ArrayOf | js/ydn/db/base/schema/index.js:212-213 | an absent key becomes [""], a scalar a one-element array, an array itself |
| IndexSchema.Js2SqlAsWritten | js/ydn/db/base/schema/index.js:204-229 | as written, an array-typed key is stored as text |
| IndexSchema.Js2Sql | js/ydn/db/base/schema/index.js:204-229 | an array-typed key is stored as its type tag, then its elements, each followed by the separator (dates as numbers); other types are stored as written |
| IndexSchema.SplitJoin | js/ydn/db/base/schema/index.js:217 | splitting text joined with a separator that no part contains gives back the parts |
| IndexSchema.IntTextRoundTrip | js/ydn/db/base/schema/index.js:216 | the decimal text of an integer parses back to it and holds no separator character |
| IndexSchema.DecodeComponents | js/ydn/db/base/schema/index.js:249-257 | a decoded array has one element per component, each the decoding of its component, and decoding fails when some component does |
| IndexSchema.Sql2Js | js/ydn/db/base/schema/index.js:239-268 | for an array type, a value that is not text decodes to undefined |
| IndexSchema.DecodeEncoded | js/ydn/db/base/schema/index.js:239-257 | an encoded array decodes to the decoding of its components |
| IndexSchema.TextArrayRoundTrip | js/ydn/db/base/schema/index.js:204-257 | a non-empty array of texts without the separator character is stored and read back unchanged |
| IndexSchema.DateArrayRoundTrip | js/ydn/db/base/schema/index.js:204-257 | with the separator restored, a non-empty array of dates is stored and read back unchanged |
| IndexSchema.NumberArrayRoundTrip | js/ydn/db/base/schema/index.js:204-257 | a non-empty array of integers is stored and read back unchanged |
| IndexSchema.ScalarRoundTrip | js/ydn/db/base/schema/index.js:204-268 | a scalar-typed key is stored and read back unchanged (for DATE, a date) |
| IndexSchema.DatesAsWrittenEncode | js/ydn/db/base/schema/index.js:215-216 | as written, the dates 1 and 2 are stored as the tag d and the text 12 between separators, their numbers run together |
| IndexSchema.MergedDatesDecode | js/ydn/db/base/schema/index.js:246-251 | the tag d with the text 12 between separators reads back as the single date 12 |
| IndexSchema.DateArrayAsWrittenMerges | js/ydn/db/base/schema/index.js:215-251 | as written, the two dates 1 and 2 read back as the one date 12 |
| SimpleStorage.OrNaN | js/ydn/db/conn/simple/simple_storage.js:216-224 | a zero or NaN version becomes NaN and any other version is kept |
| SimpleStorage.Succ | js/ydn/db/conn/simple/simple_storage.js:203 | one past a number is a larger number, and one past NaN is NaN |
| SimpleStorage.RejectsAsWrittenInverted | js/ydn/db/conn/simple/simple_storage.js:194-199 | as written, a schema asking for version 2 over a stored version 1 is refused, and one asking for 1 over a stored 2 is accepted |
| SimpleStorage.UpgradeVersion | js/ydn/db/conn/simple/simple_storage.js:202-203 | an upgrade takes the requested version, or one past the stored version when none is requested |
| SimpleStorage.UpgradeNeverLowers | js/ydn/db/conn/simple/simple_storage.js:194-203 | with the test its message describes, an accepted upgrade never lowers a stored version, and the refused cases are exactly those that would |
| SimpleStorage.UpgradeLowersAsWritten | js/ydn/db/conn/simple/simple_storage.js:194-203 | as written, a stored version 2 is replaced by the requested version 1 |
| SimpleStorage.Absorb | js/ydn/db/conn/simple/simple_storage.js:204-214 | an editable schema gains every stored store and loses none of its own; version and flags are unchanged; a fixed schema is unchanged |
| SimpleStorage.Store.constructor | js/ydn/db/conn/simple/simple_storage.js:346-347 | a store object records the database name and its store name |
| SimpleStorage.TxStorage.constructor | js/ydn/db/conn/simple/simple_storage.js:318-320 | a transaction records its connection and its completion callback |
| SimpleStorage.Connection.constructor | js/ydn/db/conn/simple/simple_storage.js:43-53 | a new connection over its storage provider has no database name, a NaN version and no cached stores |
| SimpleStorage.Connection.IsReady | js/ydn/db/conn/simple/simple_storage.js:250-252 | ready exactly when a non-empty database name is set |
| SimpleStorage.Connection.Connect | js/ydn/db/conn/simple/simple_storage.js:133-237 | the name is set and the store cache emptied; with nothing stored, the schema is saved at version 1 and NaN is passed on; a differing stored schema that the corrected version test (see Findings) refuses gives VersionError and changes nothing stored; any other differing one is upgraded, saved and the stored version passed on; an identical one keeps the stored version |
| SimpleStorage.Connection.GetSimpleStore | js/ydn/db/conn/simple/simple_storage.js:342-354 | a store the schema lacks is an InternalError; otherwise the cached store object is returned, created and cached on first use for that name |
| SimpleStorage.Connection.DoTransaction | js/ydn/db/conn/simple/simple_storage.js:316-322 | a new transaction over this connection, completing through the given callback |

## Left out

Boundaries of the model:
- Browser APIs are not modelled. IndexedDB requests, WebSQL statements and `localStorage` become record sequences, statement events and a map. Timers, logging, events and hooks (`ydn.db.base.USE_HOOK`, `dispatch_events`) are left out.
- Concurrency becomes explicit callback methods. Each storage callback is a method that the environment may call in any order, so no interleaving is modelled beyond that.
- Strings are sequences of Unicode scalar values, compared character by character. The standard's order compares UTF-16 code units; the two orders differ only when a character above U+FFFF meets one in U+E000 to U+FFFF at the same position, and that difference is not modelled.
- Floating point is left out. Numbers, limits and offsets are integers, and `parseFloat` of a non-integer text is not part of this model.
- Key-range parsing and validation (`ydn.db.KeyRange.parseIDBKeyRange`, `validate`) are not part of this model. An argument carries whether it validates and what it parses to, and a non-range parses to null.
- `ydn.db.utils.encodeKey`/`decodeKey` are not part of this model. The round trip through them is taken as their contract, in the scalar case without a type.
- `ydn.json` and `ydn.object.equals` are not part of this model. Object equality is structural equality of the modelled values.
- `ydn.db.schema.Store`, `ydn.db.schema.Database` and the in-memory buffer are not part of this model. Schema lookups become maps, and `Store.fromJSON` and `Store.difference` are function parameters.
- Transaction-mode detection from a request method (js/ydn/db/base/base.js:145-174) is left out.

Left out from particular files:
- src/ydn/db/core/operator.js: only the iterator-driven operations of this operator are modelled; `getIndexName` is given as a resolver.
- js/ydn/db/crud/operator.js: `load`, `toString`, `listByStores` and the generation of index values (`generateIndex`) are left out. `setKeyValue` is modelled only for record objects.
- js/ydn/db/base/schema/index.js: `getKeyValue`, `toJSON`, `fromJSON` and the SQL column names (`index_column_name_`) are left out. Dates reach text only through the `JsText` parameter, and `new Date(key)` is modelled for integer keys only.
- js/ydn/db/conn/simple/simple_storage.js: `getSchema`, `getTxStorage`, `close`, `onFail`/`onError`, `getDbInstance` and `toString` are left out. The storage is keyed by database name in place of `makeKey`. Whether two database schemas differ is a `differs` input. `addStore` is modelled as adding only.
- js/ydn/db/core/req/websql.js: quote escaping inside identifiers is not modelled. The WHERE clause of a key range, column names, `parseRow` and `sql2js` are inputs. The text of the `clearByStores` and `countStores` statements is not modelled; only their chaining is.
- js/ydn/db/tr: the mutex of the serial thread is abstracted to a flag. `reusedTx` of the parallel thread is an input. Nested `run` calls from inside a transaction are not modelled.

Corrected behaviour the model runs in place of the source's (each listed under Findings):
- OpenCursor: `IndexIdbCursor.IdxCursor.OpenCursor` runs the corrected success handler, which keeps the index target; the source's handler clears it once the index key matches (js/ydn/db/index/req/idb_cursor.js:84-85) and can skip the first record beyond an exclusive resume point.
- Restart: `IndexIdbCursor.IdxCursor.Restart` delivers the first record beyond the restart point only because it runs the corrected handler; the source's restart can skip it.
- RunHandler: `IndexIdbCursor.IdxCursor.RunHandler` and `IndexIdbCursor.ResumeFrom` state the corrected handler; the source's handler is `Settle` with the index target dropped, as `ResumeAsWrittenSkipsLaterKey` shows.
- Connect: `SimpleStorage.Connection.Connect` refuses with the corrected version test (stored version larger than the requested one); the source refuses when the requested version is larger (js/ydn/db/conn/simple/simple_storage.js:194-196), as `RejectsAsWrittenInverted` shows.
- Connect: with no schema stored, the model saves the schema at version 1 (js/ydn/db/conn/simple/simple_storage.js:227-234). Line 184 reads `.version` of what `ydn.json.parse` returns for the missing entry before the null test at line 189; `ydn.json.parse` is not part of this model, so whether that read throws is not modelled.
- SimpleStorage: a requested schema version of NaN is not modelled. `None` is an undefined requested version, which line 203 replaces by one past the stored version; a NaN one would be kept.

- Map: `CoreOperator.Map` runs the intended store check `StoreCheck`; the source's check (src/ydn/db/core/operator.js:651-657) never throws, as `StoreCheckAsWritten` shows.
- Reduce: `CoreOperator.Reduce` runs the same intended store check in place of the source's, which never throws.
- KeysOp: `CrudOperator.KeysOp` refuses a non-boolean `reverse` on the index form as well; the source's test at js/ydn/db/crud/operator.js:336-343 accepts any argument, as `KeysAcceptsNonBooleanReverse` shows.

Contracts stated weaker than the source:
- IndexSchema.Sql2Js: its contract states only the non-text case. Decoding is stated by the round-trip lemmas `DecodeEncoded`, `TextArrayRoundTrip`, `DateArrayRoundTrip`, `NumberArrayRoundTrip` and `ScalarRoundTrip`.
- IndexSchema.Js2SqlAsWritten: its contract states only that an array-typed key is stored as text. What it stores is stated by `Js2Sql` for the non-array case and by `DatesAsWrittenEncode` for dates.
- IndexSchema.TextArrayRoundTrip: it does not cover the empty array, which does not round-trip. The key `[]` is stored as the text "t||" and reads back as `[""]`.

Calls read as the source evidently means them:
- IndexedDbExec.ListItem, IndexWebSqlExec.FetchItem: `iter.isKeyOnly()` (js/ydn/db/core/req/indexed_db.js:125, js/ydn/db/index/req/websql.js:131) is read as the iterator's key-only flag. `ydn.db.Iterator` as modelled (src/ydn/db/core/iterator.js) defines `isKeyIterator` and no `isKeyOnly`; if no other definition exists, the call throws a TypeError, which the model does not capture.
- CoreIterator.IterCursor.Resume, CoreIterator.Iterator.Iterate, CoreIterator.Iterator.ResumeIterator, CoreIterator.Iterator.GetState: the iterator calls four cursor methods that no cursor class of the core defines. `iterate` calls `cursor_.resume(tx, tx_lbl)` on an existing cursor (src/ydn/db/core/iterator.js:652-653); it is read as moving the cursor to the new transaction, which is what `IterCursor.Resume` does. `resume` calls `cursor_.clone()` (src/ydn/db/core/iterator.js:569); it is read as copying the cursor in its current state. `getState` calls `hasDone()` and `isExited()` (src/ydn/db/core/iterator.js:629, 632); these are read as the cursor's done and exited flags, as `ydn.db.Cursor` defines them (js/ydn/db/index/cursor.js:295-306). On the cursors `executor.getCursor` returns, the methods are missing, and the TypeError each call would then throw is not captured.

Behaviour of the source kept as written:
- js/ydn/db/core/req/websql.js:191 sets `is_index` exactly when no index column is given. `WebSqlExec.StoreValueListingSelectsKeyColumn` states the consequence.
- js/ydn/db/crud/operator.js:1072 issues a whole-store `listInternal` as a VALUES_INDEX request, like the index case at line 1065.
- js/ydn/db/crud/operator.js:111 passes the store array of `count` on as given.
- js/ydn/db/core/req/idb_cursor.js:275-279: `restart(effective, primary)` reopens the cursor as `openCursor(primary, effective)`, with the arguments in the other order. `CoreIdbCursor.IdbCursor.Restart` states it that way.
- js/ydn/db/index/req/websql.js:105 installs the request's error handler as `cursor.onError`. The front cursor calls `onFail`, so that handler is never reached. The error settings in `IndexWebSqlExec` describe the handler, not a path that a failing cursor takes.
- Paging collects one record before it tests the limit, so a limit below 1 still collects one record. An end is tested as "undefined" or as "undefined or null", as each executor does.
- Cursor adapters pass the `onSuccess` arguments in different orders. The front cursor reads them by position.
- The model is that of a debug build: the `goog.DEBUG` checks are on.
- src/ydn/db/core/operator.js:666-668: `map`'s `onFail` calls `cb(e, false)`, so a cursor error resolves the request with the error as its value. `CoreOperator.Map` states it that way. `reduce` (lines 733-735) and `open` (lines 606-608) call `cb(e, true)` and reject the request. The second argument of the request callback is read as "this is an error"; the thread code that settles the request on it is not part of this model.

## Findings

| source | as written | input that shows it | evidently intended | confidence | as-written member | corrected member |
|---|---|---|---|---|---|---|
| src/ydn/db/core/iterator.js:417-446 | the bound getters return undefined when a key range is set, and read the bound of a missing range otherwise | an iterator over a range with lower bound 1: `getLower()` gives undefined | the bound of the range when one is set, undefined otherwise | high, not executed | CoreIterator.GetLowerAsWrittenLosesBound | CoreIterator.GetLower |
| js/ydn/db/index/req/idb_cursor.js:84-104 | on an exclusive resume, once the index key matches, the index target is dropped and the cursor continues until a primary key reaches the target, passing over entries at later index keys | index entries (0, 1) and (1, 2), resume after (0, 5): the entry at index key 1 is skipped | the first entry beyond (index key, primary key) in the direction of travel | medium, not executed | IndexIdbCursor.ResumeAsWrittenSkipsLaterKey | IndexIdbCursor.ResumeDeliversFirstBeyond, IndexIdbCursor.IdxCursor.Restart |
| src/ydn/db/core/operator.js:651-657 | the loop runs only while the store name is truthy and throws only for a falsy name, so it never throws and never consults the schema | `map` over an iterator on a store the schema lacks: no ArgumentException | an ArgumentException for a store that is not in the schema | high, not executed | CoreOperator.StoreCheckAsWritten | CoreOperator.StoreCheck |
| js/ydn/db/tr/parallel.js:212-228 | `sameScope` reads `this.store_names`, a field the thread never sets, so the test is always false | a request with exactly the scope and mode of the open transaction is not the same scope | compare with the recorded scope of the open transaction | high, not executed | ParallelThread.SameScopeAsWrittenRejectsOwnScope | ParallelThread.SameScope |
| js/ydn/db/crud/operator.js:336-343 | `if (goog.isBoolean)` tests the function object, which is always truthy, so any `reverse` argument of an index `keys` call is accepted | `keys("s", "i", undefined, undefined, undefined, "yes")` runs reversed | an ArgumentException for a non-boolean `reverse`, as in the store branch at line 383 | high, not executed | CrudOperator.KeysAcceptsNonBooleanReverse | CrudOperator.KeysOp |
| js/ydn/db/base/schema/index.js:215-216 | date elements of an array key are concatenated with no separator between them | the dates at 1 and 2 ms are stored as the tag d and the text 12 between separators, which reads back as the one date at 12 ms | each date followed by the separator, like the other element types | high, not executed | IndexSchema.DateArrayAsWrittenMerges | IndexSchema.DateArrayRoundTrip |
| js/ydn/db/conn/simple/simple_storage.js:194-199 | a differing schema is refused when the requested version is greater than the stored one | stored version 1, requested 2: VersionError; stored 2, requested 1: accepted and the stored version is lowered to 1 | refuse when the stored version is larger than the requested one, as the error message says | high, not executed | SimpleStorage.UpgradeLowersAsWritten | SimpleStorage.UpgradeNeverLowers, SimpleStorage.Connection.Connect |
| js/ydn/db/core/req/simple_cursor.js:230-233 | `onSuccess` runs before `result_ready_` is cleared, so a position readied by a synchronous `advance` or `continueEffectiveKey` inside the handler, as the multi-cursor's handler makes them, is wiped | a ready first node whose handler calls `advance(1)`: the tick ends with nothing ready, and the next tick completes the cursor instead of delivering the second node | clear the flag before calling `onSuccess` | medium, not executed | SimpleCursor.SimpleCursor.DispatchTick | SimpleCursor.SimpleCursor.DispatchTickClearedFirst |
