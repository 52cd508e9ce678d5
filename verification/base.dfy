/**
 * Constants and enumerations shared by the whole library (js/ydn/db/base/base.js):
 * cursor directions as defined in section 3.1.10 of the W3C Indexed Database API,
 * transaction modes and events, the default result limit and the error names that
 * the modelled operations raise.
 */
module Base {
  import opened Wrappers

  /** Cursor direction. */
  datatype Direction = Next | NextUnique | Prev | PrevUnique {
    /** The string value the library stores. */
    function Name(): string {
      match this
      case Next => "next"
      case NextUnique => "nextunique"
      case Prev => "prev"
      case PrevUnique => "prevunique"
    }

    /** A `prev*` direction walks the keys in decreasing order. */
    predicate IsReverse() {
      this == Prev || this == PrevUnique
    }

    /** A `*unique` direction visits one record per distinct key. */
    predicate IsUnique() {
      this == NextUnique || this == PrevUnique
    }
  }

  /** All directions, in the library's order. */
  const DIRECTIONS: seq<Direction> := [Next, NextUnique, Prev, PrevUnique]

  /** Default limit on the number of records a listing returns. */
  const DEFAULT_RESULT_LIMIT: nat := 100

  /** Direction from the reverse and unique flags. */
  function GetDirection(reverse: bool, unique: bool): (d: Direction)
    ensures d.IsReverse() <==> reverse
    ensures d.IsUnique() <==> unique
  {
    if reverse then (if unique then PrevUnique else Prev)
    else (if unique then NextUnique else Next)
  }

  /** The flags determine the direction and the direction determines the flags. */
  lemma GetDirectionInverse(d: Direction, reverse: bool, unique: bool)
    ensures GetDirection(d.IsReverse(), d.IsUnique()) == d
    ensures GetDirection(reverse, unique) == d <==> (d.IsReverse() == reverse && d.IsUnique() == unique)
  {
  }

  /** `DIRECTIONS` lists each of the four directions exactly once. */
  lemma DirectionsExact(d: Direction)
    ensures |DIRECTIONS| == 4
    ensures d in DIRECTIONS
    ensures forall i, j :: 0 <= i < j < |DIRECTIONS| ==> DIRECTIONS[i] != DIRECTIONS[j]
  {
  }

  /** Parse a direction name: the index of the string in `DIRECTIONS`, or nothing. */
  function ToDirection(s: string): (r: Option<Direction>)
    ensures r.Some? ==> r.value.Name() == s
    ensures r.None? ==> forall d: Direction :: d.Name() != s
  {
    if s == "next" then Some(Next)
    else if s == "nextunique" then Some(NextUnique)
    else if s == "prev" then Some(Prev)
    else if s == "prevunique" then Some(PrevUnique)
    else None
  }

  lemma DirectionNameRoundTrip(d: Direction)
    ensures ToDirection(d.Name()) == Some(d)
  {
  }

  /** Transaction modes, named as in the Indexed Database API. */
  datatype TransactionMode = ReadOnly | ReadWrite | VersionChange {
    function Name(): string {
      match this
      case ReadOnly => "readonly"
      case ReadWrite => "readwrite"
      case VersionChange => "versionchange"
    }
  }

  /** A transaction handle, identified by its sequence number. */
  datatype Tx = Tx(no: nat)

  /** What a thread hands a transaction callback: the thread itself, or the storage's transaction. */
  datatype Handed = HandedThread | HandedTx(tx: Tx)

  /** The events with which a transaction ends. */
  datatype TxEventType = Complete | Abort | Error {
    function Name(): string {
      match this
      case Complete => "complete"
      case Abort => "abort"
      case Error => "error"
    }
  }

  const TX_EVENT_TYPES: seq<TxEventType> := [Complete, Abort, Error]

  /** Exactly three terminal events, with distinct names. */
  lemma TxEventTypesExact(e: TxEventType)
    ensures e in TX_EVENT_TYPES && |TX_EVENT_TYPES| == 3
    ensures forall a: TxEventType, b: TxEventType :: a.Name() == b.Name() ==> a == b
  {
  }

  /** The exceptions raised by the modelled code. */
  datatype Error =
    | ArgumentException
    | InvalidOperationException
    | InvalidOperationError
    | InvalidAccessError
    | InvalidStateError
    | DataError
    | InternalError
    | NotFoundError
    | NotSupportedException
    | VersionError
    | TypeError
    | AssertionError
    /** An exception thrown by a user callback and passed on. */
    | CallbackException
}
