/**
 * The index schema (js/ydn/db/base/schema/index.js): the defaults and
 * checks of the index constructor, the data-type names, the array encoding
 * of index keys for SQL columns and its decoding, and the comparison of two
 * index definitions.
 */
module IndexSchema {
  import opened Wrappers
  import opened Base
  import W = WebSqlExec

  // ---------------------------------------------------------------------
  // Values
  // ---------------------------------------------------------------------

  /** A JavaScript value as the index constructor tells values apart; `ObjV` is any other object, by identity. */
  datatype JsVal = Undef | Nul | BoolV(b: bool) | NumV(n: int) | StrV(s: string) | ArrV(ss: seq<string>) | ObjV(id: nat) {
    predicate IsDefAndNotNull() { !Undef? && !Nul? }
    /** JavaScript truthiness. */
    predicate Truthy() {
      match this
      case Undef => false
      case Nul => false
      case BoolV(b) => b
      case NumV(n) => n != 0
      case StrV(s) => s != ""
      case _ => true
    }
  }

  /** String conversion of a value, as in message concatenation. */
  function Stringify(v: JsVal): (s: string)
    ensures v.StrV? ==> s == v.s
    ensures v.ArrV? ==> s == W.Join(v.ss, ",")
  {
    match v
    case Undef => "undefined"
    case Nul => "null"
    case BoolV(b) => if b then "true" else "false"
    case NumV(n) => W.IntText(n)
    case StrV(s) => s
    case ArrV(ss) => W.Join(ss, ",")
    case ObjV(_) => "[object Object]"
  }

  // ---------------------------------------------------------------------
  // Data types
  // ---------------------------------------------------------------------

  /** `ydn.db.schema.DataType`: the SQL column types an index may declare. */
  datatype DataType = BLOB | DATE | INTEGER | NUMERIC | TEXT {
    function Name(): (s: string)
      ensures |s| > 0 && ',' !in s
    {
      match this
      case BLOB => "BLOB"
      case DATE => "DATE"
      case INTEGER => "INTEGER"
      case NUMERIC => "NUMERIC"
      case TEXT => "TEXT"
    }
  }

  /** `TYPES`, in the library's order. */
  const TYPES: seq<DataType> := [BLOB, DATE, INTEGER, NUMERIC, TEXT]

  /** `toType` of one string: the type of that name, or undefined. */
  function ToTypeName(s: string): (t: Option<DataType>)
    ensures t.Some? ==> t.value.Name() == s && t.value in TYPES
    ensures t.None? ==> forall d: DataType :: d.Name() != s
  {
    if s == "BLOB" then Some(BLOB)
    else if s == "DATE" then Some(DATE)
    else if s == "INTEGER" then Some(INTEGER)
    else if s == "NUMERIC" then Some(NUMERIC)
    else if s == "TEXT" then Some(TEXT)
    else None
  }

  /** A type name reads back as that type. */
  lemma ToTypeNameRoundTrip(d: DataType)
    ensures ToTypeName(d.Name()) == Some(d)
  {
  }

  /** The declared type of an index: none, one type, or one type per component of an array key. */
  datatype IdxType = NoType | Scalar(t: DataType) | ArrayType(ts: seq<DataType>)

  /** What `toType` returns: undefined, a type, or an array of types and undefineds. */
  datatype ToTypeOut = TUndefined | TName(t: DataType) | TList(items: seq<Option<DataType>>)

  /** `toType(str)`: a known type name maps to itself and anything else to undefined, elementwise for arrays. */
  function ToType(v: JsVal): (r: ToTypeOut)
    ensures v.ArrV? ==> r.TList? && |r.items| == |v.ss| && forall i :: 0 <= i < |v.ss| ==> r.items[i] == ToTypeName(v.ss[i])
    ensures v.StrV? && ToTypeName(v.s).Some? ==> r == TName(ToTypeName(v.s).value)
    ensures !v.ArrV? && !(v.StrV? && ToTypeName(v.s).Some?) ==> r == TUndefined
  {
    match v
    case ArrV(ss) => TList(seq(|ss|, i requires 0 <= i < |ss| => ToTypeName(ss[i])))
    case StrV(s) => if ToTypeName(s).Some? then TName(ToTypeName(s).value) else TUndefined
    case _ => TUndefined
  }

  /**
   * The constructor's type check: the converted type must equal the given
   * one (elementwise for arrays, loosely otherwise, so that null passes as
   * undefined).
   */
  function CheckType(v: JsVal): (r: Result<IdxType, Error>)
    ensures r.Success? <==>
      v.Undef? || v.Nul? || (v.StrV? && ToTypeName(v.s).Some?)
      || (v.ArrV? && forall i :: 0 <= i < |v.ss| ==> ToTypeName(v.ss[i]).Some?)
    ensures r.Failure? ==> r.error == ArgumentException
    ensures r.Success? && v.StrV? ==> r.value == Scalar(ToTypeName(v.s).value)
    ensures r.Success? && v.ArrV? ==>
      r.value.ArrayType? && |r.value.ts| == |v.ss| && forall i :: 0 <= i < |v.ss| ==> r.value.ts[i].Name() == v.ss[i]
    ensures r.Success? && (v.Undef? || v.Nul?) ==> r.value == NoType
  {
    match ToType(v)
    case TList(items) =>
      if forall i :: 0 <= i < |items| ==> items[i].Some? then
        Success(ArrayType(seq(|items|, i requires 0 <= i < |items| => items[i].value)))
      else Failure(ArgumentException)
    case TName(t) => Success(Scalar(t))
    case TUndefined => if v.Undef? || v.Nul? then Success(NoType) else Failure(ArgumentException)
  }

  /** The type as the argument the constructor takes back (`clone`, `hint`). */
  function TypeArg(t: IdxType): (v: JsVal)
    ensures CheckType(v) == Success(t)
  {
    match t
    case NoType => Undef
    case Scalar(d) =>
      ToTypeNameRoundTrip(d);
      StrV(d.Name())
    case ArrayType(ts) =>
      NamesCheck(ts);
      ArrV(Names(ts))
  }

  lemma NamesCheck(ts: seq<DataType>)
    ensures CheckType(ArrV(Names(ts))) == Success(ArrayType(ts))
  {
    var ss := Names(ts);
    forall i | 0 <= i < |ts| ensures ToTypeName(ss[i]) == Some(ts[i]) {
      ToTypeNameRoundTrip(ts[i]);
    }
    var r := CheckType(ArrV(ss));
    assert r.Success?;
    assert r.value.ts == ts;
  }

  // ---------------------------------------------------------------------
  // The index constructor
  // ---------------------------------------------------------------------

  /** An index definition. */
  datatype Index = Index(keyPath: JsVal, name: JsVal, idxType: IdxType, unique: bool, multiEntry: bool)

  /** Key paths the constructor accepts: absent, a string, or an array. */
  predicate KeyPathShape(v: JsVal) {
    v.Undef? || v.Nul? || v.StrV? || v.ArrV?
  }

  /** The default name: an array key path joined with ", ", otherwise the key path itself. */
  function DefaultName(keyPath: JsVal, name: JsVal): (n: JsVal)
    ensures !name.Undef? ==> n == name
    ensures name.Undef? && keyPath.ArrV? ==> n == StrV(W.Join(keyPath.ss, ", "))
    ensures name.Undef? && !keyPath.ArrV? ==> n == keyPath
  {
    if !name.Undef? then name else if keyPath.ArrV? then StrV(W.Join(keyPath.ss, ", ")) else keyPath
  }

  /**
   * `new ydn.db.schema.Index(keyPath, opt_type, opt_unique, multiEntry,
   * name)`: the name defaults to the key path and an undefined key path to
   * the name; a key path other than a string or an array, and a type that
   * is not a known type name or array of names, raise ArgumentException;
   * `unique` and `multiEntry` are read by truthiness.
   */
  function NewIndex(keyPath: JsVal, typeArg: JsVal, unique: JsVal, multiEntry: JsVal, name: JsVal): (r: Result<Index, Error>)
    ensures r.Success? <==> KeyPathShape(keyPath) && CheckType(typeArg).Success?
    ensures r.Failure? ==> r.error == ArgumentException
    ensures r.Success? ==>
      r.value.name == DefaultName(keyPath, name)
      && r.value.keyPath == (if keyPath.Undef? then DefaultName(keyPath, name) else keyPath)
      && r.value.idxType == CheckType(typeArg).value
      && r.value.unique == unique.Truthy() && r.value.multiEntry == multiEntry.Truthy()
  {
    var n := DefaultName(keyPath, name);
    if !KeyPathShape(keyPath) then Failure(ArgumentException)
    else
      var kp := if keyPath.Undef? && !n.Undef? then n else keyPath;
      var t := CheckType(typeArg);
      if t.Failure? then Failure(t.error)
      else Success(Index(kp, n, t.value, unique.Truthy(), multiEntry.Truthy()))
  }

  /** Defaults both ways: a key path alone names the index; a name alone is the key path. */
  lemma NameAndKeyPathDefaults(path: string, paths: seq<string>)
    ensures NewIndex(StrV(path), Undef, Undef, Undef, Undef) == Success(Index(StrV(path), StrV(path), NoType, false, false))
    ensures NewIndex(Undef, Undef, Undef, Undef, StrV(path)) == Success(Index(StrV(path), StrV(path), NoType, false, false))
    ensures NewIndex(ArrV(paths), Undef, Undef, Undef, Undef)
            == Success(Index(ArrV(paths), StrV(W.Join(paths, ", ")), NoType, false, false))
  {
  }

  /**
   * A definition the constructor can produce: a key path of an accepted
   * shape, undefined exactly when the name is undefined.
   */
  predicate WellFormed(i: Index) {
    KeyPathShape(i.keyPath) && (i.keyPath.Undef? <==> i.name.Undef?)
  }

  /** Every index the constructor builds is well formed. */
  lemma NewIndexWellFormed(keyPath: JsVal, typeArg: JsVal, unique: JsVal, multiEntry: JsVal, name: JsVal)
    requires NewIndex(keyPath, typeArg, unique, multiEntry, name).Success?
    requires name.Undef? || name.StrV?
    ensures WellFormed(NewIndex(keyPath, typeArg, unique, multiEntry, name).value)
  {
  }

  /** `clone`: a new index from this one's key path, type, flags and name. */
  function Clone(i: Index): (r: Result<Index, Error>)
    ensures WellFormed(i) ==> r == Success(i)
  {
    NewIndex(i.keyPath, TypeArg(i.idxType), BoolV(i.unique), BoolV(i.multiEntry), i.name)
  }

  // ---------------------------------------------------------------------
  // Comparison
  // ---------------------------------------------------------------------

  predicate Absent(v: JsVal) { !v.IsDefAndNotNull() }

  /**
   * `compareKeyPath(keyPath1, keyPath2)`: null when both are absent or they
   * are equal (arrays elementwise), a message otherwise.
   */
  function CompareKeyPath(k1: JsVal, k2: JsVal): (r: Option<string>)
    ensures r.None? <==> (Absent(k1) && Absent(k2)) || (!Absent(k1) && !Absent(k2) && k1 == k2)
    ensures r.Some? ==> |r.value| > 0
  {
    if Absent(k1) && Absent(k2) then None
    else if Absent(k1) then Some("newly define " + Stringify(k2))
    else if Absent(k2) then Some("keyPath: " + Stringify(k1) + " no longer defined")
    else if k1.ArrV? && k2.ArrV? then
      if k1.ss == k2.ss then None else Some("expect: " + Stringify(k1) + ", but: " + Stringify(k2))
    else if k1 != k2 then Some("expect: " + Stringify(k1) + ", but: " + Stringify(k2))
    else None
  }

  /**
   * Whether two declared types differ, as `difference` tests it: only when
   * both are declared; an array type against `goog.array.equals`, a single
   * type with JavaScript's loose `!=`, under which an array converts to its
   * comma-joined names.
   */
  predicate TypesDiffer(a: IdxType, b: IdxType) {
    if a.NoType? || b.NoType? then false
    else if a.ArrayType? then !(b.ArrayType? && b.ts == a.ts)
    else if b.Scalar? then a.t != b.t
    else W.Join(Names(b.ts), ",") != a.t.Name()
  }

  function Names(ts: seq<DataType>): (ns: seq<string>)
    ensures |ns| == |ts| && forall i :: 0 <= i < |ts| ==> ns[i] == ts[i].Name()
  {
    seq(|ts|, i requires 0 <= i < |ts| => ts[i].Name())
  }

  /** A single type and an array type count as the same exactly when the array holds just that type. */
  lemma ScalarAgainstArray(t: DataType, ts: seq<DataType>)
    ensures TypesDiffer(Scalar(t), ArrayType(ts)) <==> ts != [t]
  {
    var ns := Names(ts);
    if |ts| == 1 {
      assert W.Join(ns, ",") == ts[0].Name();
      if ts[0] != t {
        ToTypeNameRoundTrip(t);
        ToTypeNameRoundTrip(ts[0]);
      }
    } else if |ts| >= 2 {
      JoinHasSeparator(ns);
    }
  }

  /** Joining two or more parts with "," puts a comma in the text. */
  lemma JoinHasSeparator(parts: seq<string>)
    requires |parts| >= 2
    ensures ',' in W.Join(parts, ",")
  {
    var j := W.Join(parts[..|parts| - 1], ",");
    assert W.Join(parts, ",") == j + "," + parts[|parts| - 1];
    assert (j + "," + parts[|parts| - 1])[|j|] == ',';
  }

  /**
   * `difference(index)`: the empty string exactly when names and key paths
   * agree and, where both sides declare them, the unique and multiEntry
   * flags and the types agree; otherwise a message saying what differs.
   */
  function Difference(a: Index, b: Option<Index>): (r: string)
    ensures r == "" <==>
      b.Some? && a.name == b.value.name && CompareKeyPath(a.keyPath, b.value.keyPath).None?
      && a.unique == b.value.unique && a.multiEntry == b.value.multiEntry && !TypesDiffer(a.idxType, b.value.idxType)
  {
    if b.None? then "no index for " + Stringify(a.name)
    else
      var that := b.value;
      if a.name != that.name then "name, expect: " + Stringify(a.name) + ", but: " + Stringify(that.name)
      else
        var msg := CompareKeyPath(a.keyPath, that.keyPath);
        if msg.Some? then "keyPath, " + msg.value
        else if a.unique != that.unique then "unique, expect: " + BoolText(a.unique) + ", but: " + BoolText(that.unique)
        else if a.multiEntry != that.multiEntry then "multiEntry, expect: " + BoolText(a.multiEntry) + ", but: " + BoolText(that.multiEntry)
        else if TypesDiffer(a.idxType, that.idxType) then "data type, expect: " + TypeText(a.idxType) + ", but: " + TypeText(that.idxType)
        else ""
  }

  function BoolText(b: bool): string { if b then "true" else "false" }

  function TypeText(t: IdxType): string {
    match t
    case NoType => "undefined"
    case Scalar(d) => d.Name()
    case ArrayType(ts) => W.Join(Names(ts), ",")
  }

  /** An index has no difference from itself. */
  lemma DifferenceReflexive(a: Index)
    ensures Difference(a, Some(a)) == ""
  {
  }

  /**
   * The comparison of types is not symmetric: a TEXT index shows no
   * difference from a [TEXT] index, but the [TEXT] index differs from the
   * TEXT one.
   */
  lemma DifferenceNotSymmetric(a: Index)
    requires a.idxType == Scalar(TEXT)
    ensures Difference(a, Some(a.(idxType := ArrayType([TEXT])))) == ""
    ensures Difference(a.(idxType := ArrayType([TEXT])), Some(a)) != ""
  {
    ScalarAgainstArray(TEXT, [TEXT]);
  }

  /**
   * `hint(that)`: this index under the other's name, taking the other's
   * multiEntry flag when this one's type reads as TEXT (the flag is lost in
   * a SQL column); the names must agree.
   */
  function Hint(a: Index, that: Option<Index>): (r: Result<Index, Error>)
    ensures that.None? ==> r == Success(a)
    ensures that.Some? && a.name != that.value.name ==> r == Failure(AssertionError)
    ensures that.Some? && a.name == that.value.name && WellFormed(a) ==>
      r == Success(a.(multiEntry := a.multiEntry || (that.value.multiEntry && ReadsAsText(a.idxType))))
  {
    if that.None? then Success(a)
    else if a.name != that.value.name then Failure(AssertionError)
    else
      var multiEntry := a.multiEntry || (that.value.multiEntry && ReadsAsText(a.idxType));
      NewIndex(a.keyPath, TypeArg(a.idxType), BoolV(a.unique), BoolV(multiEntry), that.value.name)
  }

  /** `this.type == 'TEXT'` with loose equality: the TEXT type, or an array holding only TEXT. */
  predicate ReadsAsText(t: IdxType) {
    t == Scalar(TEXT) || t == ArrayType([TEXT])
  }

  // ---------------------------------------------------------------------
  // Array keys in SQL columns
  // ---------------------------------------------------------------------

  /** `ARRAY_SEP`. */
  const ARRAY_SEP: char := '|'

  /** A component of an array key. */
  datatype Scalar = SStr(s: string) | SNum(n: int) | SDate(ms: int)

  /** A key handed to `js2sql`: absent (null or undefined), one component, or an array of components. */
  datatype JsKey = KNone | KOne(x: Scalar) | KArr(xs: seq<Scalar>)

  /** `toAbbrType`: 'd' for a date, 'n' for a number, 't' otherwise. */
  function ToAbbrType(x: Option<Scalar>): (t: string)
    ensures x.Some? && x.value.SDate? ==> t == "d"
    ensures x.Some? && x.value.SNum? ==> t == "n"
    ensures !(x.Some? && (x.value.SDate? || x.value.SNum?)) ==> t == "t"
  {
    if x.Some? && x.value.SDate? then "d" else if x.Some? && x.value.SNum? then "n" else "t"
  }

  /**
   * How JavaScript renders values the model does not compute: a date as
   * text (`Date.prototype.toString`, which depends on the locale) and a
   * string converted to a number and back (`+x`, which is floating point).
   */
  datatype JsText = JsText(dateString: int -> string, numberOfString: string -> string)

  /** An element as `Array.prototype.join` writes it. */
  function JoinText(text: JsText, x: Scalar): string {
    match x
    case SStr(s) => s
    case SNum(n) => W.IntText(n)
    case SDate(ms) => text.dateString(ms)
  }

  /** An element as `'' + (+x)` writes it: a date as its milliseconds. */
  function NumberText(text: JsText, x: Scalar): string {
    match x
    case SStr(s) => text.numberOfString(s)
    case SNum(n) => W.IntText(n)
    case SDate(ms) => W.IntText(ms)
  }

  function JoinTexts(text: JsText, xs: seq<Scalar>): (ts: seq<string>)
    ensures |ts| == |xs| && forall i :: 0 <= i < |xs| ==> ts[i] == JoinText(text, xs[i])
  {
    seq(|xs|, i requires 0 <= i < |xs| => JoinText(text, xs[i]))
  }

  function NumberTexts(text: JsText, xs: seq<Scalar>): (ts: seq<string>)
    ensures |ts| == |xs| && forall i :: 0 <= i < |xs| ==> ts[i] == NumberText(text, xs[i])
  {
    seq(|xs|, i requires 0 <= i < |xs| => NumberText(text, xs[i]))
  }

  /** Concatenation without separator (the `reduce` of `js2sql`). */
  function Concat(parts: seq<string>): string {
    if |parts| == 0 then "" else Concat(parts[..|parts| - 1]) + parts[|parts| - 1]
  }

  /** The text of an array column: the abbreviation, then each part followed by the separator. */
  function Encoded(tag: string, parts: seq<string>): string {
    tag + [ARRAY_SEP] + W.Join(parts, [ARRAY_SEP]) + [ARRAY_SEP]
  }

  /** What an SQL column holds for an index key. */
  datatype SqlValue =
    | SqlStr(s: string)
    | SqlInt(n: int)
    | SqlUndefined
    /** The key as it is, for NUMERIC, INTEGER and BLOB columns. */
    | SqlRaw(k: JsKey)
    /** `ydn.db.utils.encodeKey(key)`; the encoding itself is not part of this model. */
    | SqlEncoded(k: JsKey)

  /** The components `js2sql` encodes for an array type: null or undefined as [''], one component as a singleton. */
  function ArrayOf(key: JsKey): (xs: seq<Scalar>)
    ensures key.KNone? ==> xs == [SStr("")]
    ensures key.KOne? ==> xs == [key.x]
    ensures key.KArr? ==> xs == key.xs
  {
    match key
    case KNone => [SStr("")]
    case KOne(x) => [x]
    case KArr(xs) => xs
  }

  /**
   * `js2sql(key, type)` as written. For an array type the text is the
   * abbreviated type of the first component, then the components between
   * separators; for a date array the components are run together with no
   * separator.
   */
  function Js2SqlAsWritten(text: JsText, key: JsKey, t: IdxType): (v: SqlValue)
    ensures t.ArrayType? ==> v.SqlStr?
  {
    match t
    case ArrayType(_) =>
      var arr := ArrayOf(key);
      var tag := ToAbbrType(if |arr| > 0 then Some(arr[0]) else None);
      if tag == "d" then SqlStr(tag + [ARRAY_SEP] + Concat(NumberTexts(text, arr)) + [ARRAY_SEP])
      else SqlStr(Encoded(tag, JoinTexts(text, arr)))
    case Scalar(DATE) => if key.KOne? && key.x.SDate? then SqlInt(key.x.ms) else SqlUndefined
    case Scalar(_) => SqlRaw(key)
    case NoType => SqlEncoded(key)
  }

  /**
   * `js2sql(key, type)` as intended: date components are written as their
   * milliseconds between separators, like every other component.
   */
  function Js2Sql(text: JsText, key: JsKey, t: IdxType): (v: SqlValue)
    ensures t.ArrayType? ==>
      var arr := ArrayOf(key);
      var tag := ToAbbrType(if |arr| > 0 then Some(arr[0]) else None);
      v == SqlStr(Encoded(tag, if tag == "d" then NumberTexts(text, arr) else JoinTexts(text, arr)))
    ensures !t.ArrayType? ==> v == Js2SqlAsWritten(text, key, t)
  {
    match t
    case ArrayType(_) =>
      var arr := ArrayOf(key);
      var tag := ToAbbrType(if |arr| > 0 then Some(arr[0]) else None);
      SqlStr(Encoded(tag, if tag == "d" then NumberTexts(text, arr) else JoinTexts(text, arr)))
    case _ => Js2SqlAsWritten(text, key, t)
  }

  /** `String.prototype.split` on one character. */
  function Split(s: string, c: char): (parts: seq<string>)
    ensures |parts| >= 1
    ensures forall i :: 0 <= i < |parts| ==> c !in parts[i]
    decreases |s|
  {
    if c !in s then [s]
    else
      var i := FirstIndex(s, c);
      [s[..i]] + Split(s[i + 1..], c)
  }

  function FirstIndex(s: string, c: char): (i: nat)
    requires c in s
    ensures i < |s| && s[i] == c && c !in s[..i]
  {
    if s[0] == c then 0 else
      assert c in s[1..] by { var k :| 0 <= k < |s| && s[k] == c; assert s[1..][k - 1] == c; }
      var j := FirstIndex(s[1..], c);
      assert s[..j + 1] == [s[0]] + s[1..][..j];
      j + 1
  }

  /** Splitting at a separator placed between two texts splits each text on its own. */
  lemma {:induction false} SplitAround(a: string, b: string, c: char)
    ensures Split(a + [c] + b, c) == Split(a, c) + Split(b, c)
    decreases |a|
  {
    var s := a + [c] + b;
    if c !in a {
      SplitAroundPlain(a, b, c);
    } else {
      var i := FirstIndex(a, c);
      SplitFirst(a, b, c, i);
      SplitAround(a[i + 1..], b, c);
      ConcatAssoc([a[..i]], Split(a[i + 1..], c), Split(b, c));
    }
  }

  lemma ConcatAssoc<T>(x: seq<T>, y: seq<T>, z: seq<T>)
    ensures x + (y + z) == (x + y) + z
  {
  }

  /** Both splits cut first at the first separator inside `a`. */
  lemma SplitFirst(a: string, b: string, c: char, i: nat)
    requires i < |a| && a[i] == c && c !in a[..i]
    ensures Split(a + [c] + b, c) == [a[..i]] + Split(a[i + 1..] + [c] + b, c)
    ensures Split(a, c) == [a[..i]] + Split(a[i + 1..], c)
  {
    var s := a + [c] + b;
    assert s[..i] == a[..i];
    assert s[i + 1..] == a[i + 1..] + [c] + b;
    SplitAt(s, c, i);
    SplitAt(a, c, i);
  }

  /** The separator's first occurrence is the one placed between the texts. */
  lemma SplitAroundPlain(a: string, b: string, c: char)
    requires c !in a
    ensures Split(a + [c] + b, c) == Split(a, c) + Split(b, c)
  {
    var s := a + [c] + b;
    assert s[..|a|] == a;
    assert s[|a| + 1..] == b;
    SplitAt(s, c, |a|);
  }

  /** Splitting cuts at the first occurrence of the separator. */
  lemma SplitAt(s: string, c: char, i: nat)
    requires i < |s| && s[i] == c && c !in s[..i]
    ensures Split(s, c) == [s[..i]] + Split(s[i + 1..], c)
  {
    FirstIndexIs(s, c, i);
  }

  /** The first occurrence is the one with no occurrence before it. */
  lemma FirstIndexIs(s: string, c: char, i: nat)
    requires i < |s| && s[i] == c && c !in s[..i]
    ensures FirstIndex(s, c) == i
  {
  }

  /** Splitting parts joined with a separator they do not contain gives the parts back. */
  lemma {:induction false} SplitJoin(parts: seq<string>, c: char)
    requires |parts| >= 1
    requires forall i :: 0 <= i < |parts| ==> c !in parts[i]
    ensures Split(W.Join(parts, [c]), c) == parts
    decreases |parts|
  {
    if |parts| == 1 {
    } else {
      var init, last := parts[..|parts| - 1], parts[|parts| - 1];
      assert forall i :: 0 <= i < |init| ==> init[i] == parts[i];
      SplitJoin(init, c);
      assert W.Join(parts, [c]) == W.Join(init, [c]) + [c] + last;
      SplitAround(W.Join(init, [c]), last, c);
      assert Split(last, c) == [last];
      InitLast(parts);
    }
  }

  lemma InitLast<T>(s: seq<T>)
    requires |s| > 0
    ensures s == s[..|s| - 1] + [s[|s| - 1]]
  {
  }

  /** What `sql2js` gives back: undefined, a key, or a text the model does not parse (a float, NaN, a date string). */
  datatype Decoded = DUndefined | DKey(k: JsKey) | DUnparsed

  /** `parseInt(x, 10)` on the integer texts the model writes; other texts are not parsed here. */
  function ParseIntText(s: string): (r: Option<int>)
  {
    if |s| > 0 && s[0] == '-' then
      (if |s| > 1 && AllDigits(s[1..]) then Some(0 - ParseNat(s[1..]) as int) else None)
    else if |s| > 0 && AllDigits(s) then Some(ParseNat(s))
    else None
  }

  predicate AllDigits(s: string) { forall i :: 0 <= i < |s| ==> '0' <= s[i] <= '9' }

  function ParseNat(s: string): nat
    requires AllDigits(s)
  {
    if |s| == 0 then 0 else ParseNat(s[..|s| - 1]) * 10 + (s[|s| - 1] as int - '0' as int)
  }

  lemma DigitValue(d: nat)
    requires d < 10
    ensures W.Digit(d) as int - '0' as int == d
  {
  }

  lemma {:induction false} ParseNatText(n: nat)
    ensures AllDigits(W.NatText(n)) && ParseNat(W.NatText(n)) == n
  {
    DigitValue(n % 10);
    if n >= 10 {
      ParseNatText(n / 10);
      var s := W.NatText(n);
      assert s[..|s| - 1] == W.NatText(n / 10);
    }
  }

  /** The decimal text of an integer parses back to it. */
  lemma IntTextRoundTrip(x: int)
    ensures ParseIntText(W.IntText(x)) == Some(x)
    ensures ARRAY_SEP !in W.IntText(x)
  {
    if x < 0 {
      NegTextRoundTrip(x);
    } else {
      NatTextRoundTrip(x);
    }
  }

  lemma NegTextRoundTrip(x: int)
    requires x < 0
    ensures ParseIntText(W.IntText(x)) == Some(x)
    ensures ARRAY_SEP !in W.IntText(x)
  {
    var n: nat := -x;
    NegTextParses(n);
    NegText(x);
  }

  lemma NegText(x: int)
    requires x < 0
    ensures W.IntText(x) == "-" + W.NatText(-x)
  {
  }

  lemma NegTextParses(n: nat)
    ensures ParseIntText("-" + W.NatText(n)) == Some(0 - n)
    ensures ARRAY_SEP !in "-" + W.NatText(n)
  {
    var t := W.NatText(n);
    ParseNatText(n);
    ParseSigned(t);
    assert "-" + t == ['-'] + t;
  }

  lemma NatTextRoundTrip(x: nat)
    ensures ParseIntText(W.IntText(x)) == Some(x)
    ensures ARRAY_SEP !in W.IntText(x)
  {
    var t := W.NatText(x);
    ParseNatText(x);
    assert W.IntText(x) == t;
    ParseUnsigned(t);
  }

  /** A minus sign followed by digits parses to the negated number, and holds no separator. */
  lemma ParseSigned(t: string)
    requires |t| > 0 && AllDigits(t)
    ensures ParseIntText(['-'] + t) == Some(0 - ParseNat(t))
    ensures ARRAY_SEP !in ['-'] + t
  {
    var s := ['-'] + t;
    assert s[1..] == t;
    forall i | 0 <= i < |s| ensures s[i] != ARRAY_SEP {
      if i > 0 { assert s[i] == t[i - 1]; }
    }
  }

  /** Digits parse to their number, and hold no separator. */
  lemma ParseUnsigned(t: string)
    requires |t| > 0 && AllDigits(t)
    ensures ParseIntText(t) == Some(ParseNat(t))
    ensures ARRAY_SEP !in t
  {
    assert t[0] != '-';
    forall i | 0 <= i < |t| ensures t[i] != ARRAY_SEP {
      assert '0' <= t[i] <= '9';
    }
  }

  /** One decoded component of an array column, by the type abbreviation. */
  function DecodeComponent(tag: string, x: string): Option<Scalar> {
    if tag == "d" then (if ParseIntText(x).Some? then Some(SDate(ParseIntText(x).value)) else None)
    else if tag == "n" then (if ParseIntText(x).Some? then Some(SNum(ParseIntText(x).value)) else None)
    else Some(SStr(x))
  }

  function DecodeComponents(tag: string, xs: seq<string>): (r: Option<seq<Scalar>>)
    ensures r.Some? ==> |r.value| == |xs| && forall i :: 0 <= i < |xs| ==> DecodeComponent(tag, xs[i]) == Some(r.value[i])
    ensures r.None? ==> exists i :: 0 <= i < |xs| && DecodeComponent(tag, xs[i]).None?
  {
    if forall i :: 0 <= i < |xs| ==> DecodeComponent(tag, xs[i]).Some? then
      Some(seq(|xs|, i requires 0 <= i < |xs| => DecodeComponent(tag, xs[i]).value))
    else None
  }

  /**
   * `sql2js(key, type)`. For an array type a string is split at the
   * separators; the first piece is the type abbreviation and the first and
   * last pieces are dropped; anything but a string gives undefined.
   */
  function Sql2Js(v: SqlValue, t: IdxType): (r: Decoded)
    ensures t.ArrayType? && !v.SqlStr? ==> r == DUndefined
  {
    match t
    case ArrayType(_) =>
      if !v.SqlStr? then DUndefined
      else
        var pieces := Split(v.s, ARRAY_SEP);
        var inner := if |pieces| >= 2 then pieces[1..|pieces| - 1] else [];
        var xs := DecodeComponents(pieces[0], inner);
        if xs.Some? then DKey(KArr(xs.value)) else DUnparsed
    case Scalar(DATE) => if v.SqlInt? then DKey(KOne(SDate(v.n))) else DUnparsed
    case Scalar(_) =>
      (match v
       case SqlRaw(k) => DKey(k)
       case SqlStr(s) => DKey(KOne(SStr(s)))
       case SqlInt(n) => DKey(KOne(SNum(n)))
       case SqlUndefined => DUndefined
       case SqlEncoded(_) => DUnparsed)
    case NoType => if v.SqlEncoded? then DKey(v.k) else DUnparsed
  }

  /** Splitting an encoded array gives the abbreviation, the parts and a last empty piece. */
  lemma SplitEncoded(tag: string, parts: seq<string>)
    requires |tag| > 0 && ARRAY_SEP !in tag && |parts| >= 1
    requires forall i :: 0 <= i < |parts| ==> ARRAY_SEP !in parts[i]
    ensures Split(Encoded(tag, parts), ARRAY_SEP) == [tag] + parts + [""]
  {
    var j := W.Join(parts, [ARRAY_SEP]);
    SplitJoin(parts, ARRAY_SEP);
    SplitAround(tag + [ARRAY_SEP] + j, "", ARRAY_SEP);
    SplitAround(tag, j, ARRAY_SEP);
    assert tag + [ARRAY_SEP] + j + [ARRAY_SEP] == (tag + [ARRAY_SEP] + j) + [ARRAY_SEP] + "";
  }

  /** Decoding an encoded array decodes each part under the abbreviation. */
  lemma DecodeEncoded(tag: string, parts: seq<string>, ts: seq<DataType>)
    requires |tag| > 0 && ARRAY_SEP !in tag && |parts| >= 1
    requires forall i :: 0 <= i < |parts| ==> ARRAY_SEP !in parts[i]
    requires DecodeComponents(tag, parts).Some?
    ensures Sql2Js(SqlStr(Encoded(tag, parts)), ArrayType(ts)) == DKey(KArr(DecodeComponents(tag, parts).value))
  {
    SplitEncoded(tag, parts);
    var pieces := [tag] + parts + [""];
    assert pieces[0] == tag;
    assert pieces[1..|pieces| - 1] == parts;
  }

  /** Text components free of the separator. */
  predicate PlainTexts(xs: seq<Scalar>) {
    forall i :: 0 <= i < |xs| ==> xs[i].SStr? && ARRAY_SEP !in xs[i].s
  }

  /**
   * A non-empty array of texts without the separator survives a TEXT
   * array column: decoding the encoding gives the array back.
   */
  lemma TextArrayRoundTrip(text: JsText, xs: seq<Scalar>, ts: seq<DataType>)
    requires |xs| > 0 && PlainTexts(xs)
    ensures Sql2Js(Js2Sql(text, KArr(xs), ArrayType(ts)), ArrayType(ts)) == DKey(KArr(xs))
  {
    var parts := JoinTexts(text, xs);
    assert Js2Sql(text, KArr(xs), ArrayType(ts)) == SqlStr(Encoded("t", parts));
    var d := DecodeComponents("t", parts);
    assert d.Some?;
    assert d.value == xs;
    DecodeEncoded("t", parts, ts);
  }

  /** Dates survive an array column once they are written between separators. */
  lemma DateArrayRoundTrip(text: JsText, xs: seq<Scalar>, ts: seq<DataType>)
    requires |xs| > 0 && forall i :: 0 <= i < |xs| ==> xs[i].SDate?
    ensures Sql2Js(Js2Sql(text, KArr(xs), ArrayType(ts)), ArrayType(ts)) == DKey(KArr(xs))
  {
    var parts := NumberTexts(text, xs);
    forall i | 0 <= i < |xs| ensures ARRAY_SEP !in parts[i] && DecodeComponent("d", parts[i]) == Some(xs[i]) {
      IntTextRoundTrip(xs[i].ms);
    }
    assert Js2Sql(text, KArr(xs), ArrayType(ts)) == SqlStr(Encoded("d", parts));
    var d := DecodeComponents("d", parts);
    assert d.Some?;
    assert d.value == xs;
    DecodeEncoded("d", parts, ts);
  }

  /** Integer numbers survive a NUMERIC-tagged array column. */
  lemma NumberArrayRoundTrip(text: JsText, xs: seq<Scalar>, ts: seq<DataType>)
    requires |xs| > 0 && forall i :: 0 <= i < |xs| ==> xs[i].SNum?
    ensures Sql2Js(Js2Sql(text, KArr(xs), ArrayType(ts)), ArrayType(ts)) == DKey(KArr(xs))
  {
    var parts := JoinTexts(text, xs);
    forall i | 0 <= i < |xs| ensures ARRAY_SEP !in parts[i] && DecodeComponent("n", parts[i]) == Some(xs[i]) {
      IntTextRoundTrip(xs[i].n);
    }
    assert Js2Sql(text, KArr(xs), ArrayType(ts)) == SqlStr(Encoded("n", parts));
    var d := DecodeComponents("n", parts);
    assert d.Some?;
    assert d.value == xs;
    DecodeEncoded("n", parts, ts);
  }

  lemma SmallTexts()
    ensures W.IntText(1) == "1" && W.IntText(2) == "2" && W.IntText(12) == "12"
  {
    assert W.NatText(12) == W.NatText(1) + [W.Digit(2)];
  }

  /** The as-written encoding of the dates at 1 and 2 milliseconds. */
  lemma DatesAsWrittenEncode(text: JsText, ts: seq<DataType>)
    ensures Js2SqlAsWritten(text, KArr([SDate(1), SDate(2)]), ArrayType(ts)) == SqlStr("d|12|")
  {
    SmallTexts();
    var parts := NumberTexts(text, [SDate(1), SDate(2)]);
    assert parts == ["1", "2"];
    assert Concat(parts) == "12" by {
      assert parts[..1] == ["1"];
      assert Concat(["1"]) == Concat([]) + "1";
    }
  }

  /** The text "d|12|" decodes as the single date at 12 milliseconds. */
  lemma MergedDatesDecode(ts: seq<DataType>)
    ensures Sql2Js(SqlStr("d|12|"), ArrayType(ts)) == DKey(KArr([SDate(12)]))
  {
    SmallTexts();
    IntTextRoundTrip(12);
    assert ParseIntText("12") == Some(12);
    assert DecodeComponent("d", "12") == Some(SDate(12));
    var d := DecodeComponents("d", ["12"]);
    assert d.Some? && d.value == [SDate(12)];
    DecodeEncoded("d", ["12"], ts);
    assert Encoded("d", ["12"]) == "d|12|";
  }

  /**
   * As written, the date components of an array key are run together: the
   * dates at 1 and 2 milliseconds come back as one date at 12 milliseconds.
   */
  lemma DateArrayAsWrittenMerges(text: JsText, ts: seq<DataType>)
    ensures Sql2Js(Js2SqlAsWritten(text, KArr([SDate(1), SDate(2)]), ArrayType(ts)), ArrayType(ts)) == DKey(KArr([SDate(12)]))
  {
    DatesAsWrittenEncode(text, ts);
    MergedDatesDecode(ts);
  }

  /** A date in a DATE column comes back as that date; a key in a NUMERIC, INTEGER or BLOB column as that key. */
  lemma ScalarRoundTrip(text: JsText, key: JsKey, d: DataType)
    requires d == DATE ==> key.KOne? && key.x.SDate?
    ensures Sql2Js(Js2Sql(text, key, Scalar(d)), Scalar(d)) == DKey(key)
  {
  }
}
