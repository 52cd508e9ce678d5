/**
 * The in-memory connection (js/ydn/db/conn/simple/simple_storage.js): schema
 * version negotiation against a key-value storage, and the lazy cache of
 * per-store objects.
 *
 * A version is `Option<int>`. For a stored schema `None` stands for NaN and
 * for an undefined version, which the version test and the upgrade treat
 * alike; for a requested version it stands for an undefined one, which the
 * upgrade replaces by one past the stored version.
 */
module SimpleStorage {
  import opened Wrappers
  import opened Base
  import opened Collections

  /** A database schema as the connection uses it: store names, the requested version and its two flags. */
  datatype DbSchema = DbSchema(stores: seq<string>, version: Option<int>, autoVersion: bool, editable: bool)

  /** A schema as persisted in the storage: store names and a version. */
  datatype Stored = Stored(stores: seq<string>, version: Option<int>)

  /** `v || NaN`: zero, like NaN, is falsy and becomes NaN. */
  function OrNaN(v: Option<int>): (r: Option<int>)
    ensures r.Some? <==> v.Some? && v.value != 0
    ensures r.Some? ==> r == v
  {
    if v == Some(0) then None else v
  }

  /** `v + 1`, where NaN plus one is NaN. */
  function Succ(v: Option<int>): (r: Option<int>)
    ensures r.Some? <==> v.Some?
    ensures r.Some? ==> r.value > v.value
  {
    if v.Some? then Some(v.value + 1) else None
  }

  /**
   * The version test of `connect` as written: a non-auto-versioned schema
   * is refused when it requests a version GREATER than the stored number.
   */
  predicate RejectsAsWritten(schema: DbSchema, stored: Stored) {
    !schema.autoVersion && stored.version.Some? && schema.version.Some? && schema.version.value > stored.version.value
  }

  /**
   * The version test as its error message states it ("existing version
   * is larger than" the requested one): refused when the stored number is
   * greater than the requested version.
   */
  predicate Rejects(schema: DbSchema, stored: Stored) {
    !schema.autoVersion && stored.version.Some? && schema.version.Some? && stored.version.value > schema.version.value
  }

  /** As written, the ordinary upgrade from version 1 to 2 is refused and the downgrade from 2 to 1 is accepted. */
  lemma RejectsAsWrittenInverted(stores: seq<string>)
    ensures RejectsAsWritten(DbSchema(stores, Some(2), false, false), Stored(stores, Some(1)))
    ensures !RejectsAsWritten(DbSchema(stores, Some(1), false, false), Stored(stores, Some(2)))
  {
  }

  /** The version an accepted upgrade takes: the requested one, or one past the stored one. */
  function UpgradeVersion(schema: DbSchema, stored: Stored): (v: Option<int>)
    ensures schema.version.Some? ==> v == schema.version
    ensures schema.version.None? ==> v == Succ(stored.version)
  {
    if schema.version.Some? then schema.version else Succ(stored.version)
  }

  /**
   * With the corrected test, an accepted upgrade of a schema that is not
   * auto-versioned never lowers a numeric stored version; the refused
   * cases are exactly those where it would.
   */
  lemma UpgradeNeverLowers(schema: DbSchema, stored: Stored)
    requires !schema.autoVersion && stored.version.Some?
    ensures !Rejects(schema, stored) ==>
      UpgradeVersion(schema, stored).Some? && UpgradeVersion(schema, stored).value >= stored.version.value
    ensures Rejects(schema, stored) <==>
      UpgradeVersion(schema, stored).Some? && UpgradeVersion(schema, stored).value < stored.version.value
  {
  }

  /** As written, the same test lets an upgrade lower the stored version. */
  lemma UpgradeLowersAsWritten(stores: seq<string>)
    ensures !RejectsAsWritten(DbSchema(stores, Some(1), false, false), Stored(stores, Some(2)))
    ensures UpgradeVersion(DbSchema(stores, Some(1), false, false), Stored(stores, Some(2))) == Some(1)
  {
  }

  /** The stores of the schema after an upgrade: an editable schema absorbs the stored stores. */
  function Absorb(schema: DbSchema, stored: Stored): (s: DbSchema)
    ensures s.version == schema.version && s.autoVersion == schema.autoVersion && s.editable == schema.editable
    ensures forall n :: n in s.stores <==> n in schema.stores || (schema.editable && n in stored.stores)
  {
    if schema.editable then
      DedupSpec(schema.stores + stored.stores);
      schema.(stores := Dedup(schema.stores + stored.stores))
    else schema
  }

  /** A per-store object over the connection's storage. */
  class Store {
    const dbname: Option<string>
    const storeName: string

    constructor (dbname: Option<string>, storeName: string)
      ensures this.dbname == dbname && this.storeName == storeName
    {
      this.dbname := dbname;
      this.storeName := storeName;
    }
  }

  /** A transaction over the in-memory storage; its completion goes to the callback given as `onCompleted`. */
  class TxStorage {
    const conn: Connection
    const onCompleted: nat

    constructor (conn: Connection, onCompleted: nat)
      ensures this.conn == conn && this.onCompleted == onCompleted
    {
      this.conn := conn;
      this.onCompleted := onCompleted;
    }
  }

  /**
   * `ydn.db.con.SimpleStorage`. `storage` is the key-value storage, keyed
   * here by database name; `simpleStores` is the cache of store objects.
   */
  class Connection {
    var dbname: Option<string>
    var schema: DbSchema
    var version: Option<int>
    var storage: map<string, Stored>
    var simpleStores: map<string, Store>

    /** Every cached store object belongs to a store of the schema, under its own name. */
    predicate Valid()
      reads this
    {
      forall n :: n in simpleStores ==> n in schema.stores && simpleStores[n].storeName == n
    }

    /** A connection over the given storage, not yet connected: no name and a NaN version. */
    constructor (storage: map<string, Stored>)
      ensures this.storage == storage && dbname.None? && version.None? && simpleStores == map[]
      ensures Valid()
    {
      this.storage := storage;
      dbname := None;
      schema := DbSchema([], None, true, false);
      version := None;
      simpleStores := map[];
    }

    /** `isReady`: a non-empty database name is set. */
    function IsReady(): (b: bool)
      reads this
      ensures b <==> dbname.Some? && |dbname.value| > 0
    {
      dbname.Some? && dbname.value != ""
    }

    /** `getType`. */
    function GetType(): string { "memory" }

    /** `getVersion`. */
    function GetVersion(): Option<int>
      reads this
    {
      version
    }

    /**
     * `connect(dbname, schema)`: the outcome passed to the callback is the
     * version found in storage (NaN when there was none) or VersionError.
     * `differs` says whether `schema.difference` finds the stored schema
     * different; the comparison of whole database schemas is not part of
     * this model.
     */
    method Connect(name: string, s: DbSchema, differs: bool) returns (outcome: Result<Option<int>, Error>)
      modifies this
      ensures dbname == Some(name) && simpleStores == map[] && Valid()
      // No stored schema: the schema is persisted at version 1.
      ensures name !in old(storage) ==>
        outcome == Success(None) && version == Some(1) && schema == s
        && storage == old(storage)[name := Stored(s.stores, Some(1))]
      // A different stored schema that the version test refuses: nothing changes but the fields reset.
      ensures name in old(storage) && differs && Rejects(s, old(storage)[name]) ==>
        outcome == Failure(VersionError) && version.None? && schema == s && storage == old(storage)
      // A different stored schema otherwise: upgrade and persist.
      ensures name in old(storage) && differs && !Rejects(s, old(storage)[name]) ==>
        var stored := old(storage)[name];
        outcome == Success(OrNaN(stored.version))
        && version == UpgradeVersion(s, stored) && schema == Absorb(s, stored)
        && storage == old(storage)[name := Stored(schema.stores, OrNaN(version))]
      // The same schema: keep the stored version.
      ensures name in old(storage) && !differs ==>
        var stored := old(storage)[name];
        outcome == Success(OrNaN(stored.version)) && version == OrNaN(stored.version)
        && schema == s && storage == old(storage)
    {
      dbname := Some(name);
      schema := s;
      simpleStores := map[];
      version := None;
      if name in storage {
        var stored := storage[name];
        if differs {
          if Rejects(schema, stored) {
            outcome := Failure(VersionError);
          } else {
            version := UpgradeVersion(schema, stored);
            schema := Absorb(schema, stored);
            storage := storage[name := Stored(schema.stores, OrNaN(version))];
            outcome := Success(OrNaN(stored.version));
          }
        } else {
          version := OrNaN(stored.version);
          outcome := Success(version);
        }
      } else {
        version := Some(1);
        storage := storage[name := Stored(s.stores, Some(1))];
        outcome := Success(None);
      }
    }

    /**
     * `getSimpleStore(name)`: the cached store object, created on first use;
     * InternalError for a store the schema does not have.
     */
    method GetSimpleStore(name: string) returns (r: Result<Store, Error>)
      requires Valid()
      modifies this`simpleStores
      ensures Valid()
      ensures name !in schema.stores ==> r == Failure(InternalError) && simpleStores == old(simpleStores)
      ensures name in schema.stores ==>
        r.Success? && r.value.storeName == name && name in simpleStores && simpleStores[name] == r.value
      ensures name in old(simpleStores) ==> r == Success(old(simpleStores)[name]) && simpleStores == old(simpleStores)
      ensures name in schema.stores && name !in old(simpleStores) ==>
        fresh(r.value) && r.value.dbname == dbname && simpleStores == old(simpleStores)[name := r.value]
    {
      if name in schema.stores {
        if name !in simpleStores {
          var store := new Store(dbname, name);
          simpleStores := simpleStores[name := store];
        }
        r := Success(simpleStores[name]);
      } else {
        r := Failure(InternalError);
      }
    }

    /**
     * `doTransaction(trFn, scopes, mode, oncompleted)`: a transaction over
     * this connection whose completion goes to `onCompleted`; the caller's
     * `trFn` is then applied to it at once. Scopes and mode are ignored.
     */
    method DoTransaction(scopes: seq<string>, mode: TransactionMode, onCompleted: nat) returns (tx: TxStorage)
      ensures fresh(tx) && tx.conn == this && tx.onCompleted == onCompleted
    {
      tx := new TxStorage(this, onCompleted);
    }
  }
}
