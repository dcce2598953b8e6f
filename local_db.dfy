/** The partitioned local store: the IndexedDB database "TapRestoDB" at
    version 7, with four object stores ("partitions") each keyed in-line by
    the `id` property of the rows it holds. Requests are treated as atomic
    and synchronous; the database is a map from partition name to a map from
    key to row. */
module LocalDb {
  import opened JsValues

  const DbVersion: nat := 7

  const ProfileStore: string := "storeProfile"
  const ItemsStore: string := "storeItems"
  const TablesStore: string := "storeTables"
  const PendingStore: string := "pendingOrders"

  /** The partitions the upgrade step creates. */
  const PartitionNames: set<string> := {ProfileStore, ItemsStore, TablesStore, PendingStore}

  /** An IndexedDB key as this application uses them: the fixed string keys of
      the snapshot rows and the numeric local ids of pending orders. */
  datatype Key = NumKey(n: real) | StrKey(s: string)

  /** A pending-order row `{ id, _localId, order }`. */
  datatype PendingRecord = PendingRecord(id: real, localId: real, order: map<string, Json>)

  /** The two shapes of row the application stores: a snapshot
      `{ id: key, profile | list: payload }` and a pending-order record. */
  datatype Row =
    | SnapshotRow(key: string, payload: Json)
    | PendingRow(rec: PendingRecord)

  type Partition = map<Key, Row>
  type Stores = map<string, Partition>

  /** The in-line key of a row: its `id` property (keyPath "id"). */
  function KeyOf(row: Row): Key {
    match row
    case SnapshotRow(key, _) => StrKey(key)
    case PendingRow(rec) => NumKey(rec.id)
  }

  /** The pending-orders partition holds pending records and only it does. */
  predicate RowFits(name: string, row: Row) {
    row.PendingRow? <==> name == PendingStore
  }

  /** Every row sits under its own key and has the shape of its partition. */
  predicate PartitionWellKeyed(name: string, part: Partition) {
    forall k :: k in part ==> KeyOf(part[k]) == k && RowFits(name, part[k])
  }

  predicate WellKeyed(s: Stores) {
    forall name :: name in s ==> PartitionWellKeyed(name, s[name])
  }

  predicate AllPartitions(s: Stores) {
    PartitionNames <= s.Keys
  }

  /** One `if (!db.objectStoreNames.contains(name)) db.createObjectStore(name)`
      step: an existing partition and its rows are left as they are. */
  function EnsurePartition(s: Stores, name: string): (r: Stores)
    ensures r.Keys == s.Keys + {name}
    ensures forall n :: n in s ==> r[n] == s[n]
    ensures forall n :: n in r && n !in s ==> r[n] == map[]
  {
    if name in s then s else s[name := map[]]
  }

  /** The partitions after the upgrade handler has run: each of the four
      that was missing is created empty; nothing else changes. */
  function Upgraded(s: Stores): (r: Stores)
    ensures AllPartitions(r)
    ensures r.Keys == s.Keys + PartitionNames
    ensures forall n :: n in s ==> r[n] == s[n]
    ensures forall n :: n in r && n !in s ==> r[n] == map[]
    ensures AllPartitions(s) ==> r == s
  {
    map n | n in s.Keys + PartitionNames :: if n in s then s[n] else map[]
  }

  /** Any partitions that keep the old ones and add exactly the missing four,
      empty, are `Upgraded` of the old ones. */
  lemma UpgradedByContents(s: Stores, r: Stores)
    requires r.Keys == s.Keys + PartitionNames
    requires forall n :: n in s ==> r[n] == s[n]
    requires forall n :: n in r && n !in s ==> r[n] == map[]
    ensures r == Upgraded(s)
  {
    var u := Upgraded(s);
    assert r.Keys == u.Keys;
    forall n | n in r
      ensures r[n] == u[n]
    {
    }
  }

  /** The four conditional creation steps, in the handler's order, amount to
      `Upgraded`. */
  lemma UpgradeSteps(s: Stores, a: Stores, b: Stores, c: Stores, d: Stores)
    requires a == EnsurePartition(s, ProfileStore)
    requires b == EnsurePartition(a, ItemsStore)
    requires c == EnsurePartition(b, TablesStore)
    requires d == EnsurePartition(c, PendingStore)
    ensures d == Upgraded(s)
  {
    assert d.Keys == s.Keys + PartitionNames;
    forall n | n in s
      ensures d[n] == s[n]
    {
      assert d[n] == c[n] == b[n] == a[n];
    }
    forall n | n in d && n !in s
      ensures d[n] == map[]
    {
      if n in c {
        if n in b {
          if n in a {
            assert d[n] == c[n] == b[n] == a[n];
          } else {
            assert d[n] == c[n] == b[n];
          }
        } else {
          assert d[n] == c[n];
        }
      }
    }
    UpgradedByContents(s, d);
  }

  /** Running the upgrade step a second time changes nothing. */
  lemma UpgradeIdempotent(s: Stores)
    ensures Upgraded(Upgraded(s)) == Upgraded(s)
  {
  }

  lemma UpgradeKeepsWellKeyed(s: Stores)
    requires WellKeyed(s)
    ensures WellKeyed(Upgraded(s))
  {
    var r := Upgraded(s);
    forall name | name in r
      ensures PartitionWellKeyed(name, r[name])
    {
      if name in s {
        assert r[name] == s[name];
      } else {
        assert r[name] == map[];
      }
    }
  }

  /** The pending-order queue as seen in a set of partitions: a missing
      partition reads as an empty queue. */
  function Queue(s: Stores): Partition {
    if PendingStore in s then s[PendingStore] else map[]
  }

  /** The upgrade step leaves the queue as it was. */
  lemma UpgradeKeepsQueue(s: Stores)
    ensures Queue(Upgraded(s)) == Queue(s)
  {
  }

  /** A put or delete in any other partition leaves the queue as it was. */
  lemma OtherPartitionKeepsQueue(s: Stores, name: string, row: Row, key: Key)
    requires name in s && name != PendingStore
    ensures Queue(PutRow(s, name, row)) == Queue(s)
    ensures Queue(DeleteKey(s, name, key)) == Queue(s)
  {
  }

  /** `store.put(row)`: upsert under the row's own key, in one partition. */
  function PutRow(s: Stores, name: string, row: Row): (r: Stores)
    requires name in s
    ensures r.Keys == s.Keys
    ensures forall n :: n in s && n != name ==> r[n] == s[n]
    ensures r[name].Keys == s[name].Keys + {KeyOf(row)}
    ensures r[name][KeyOf(row)] == row
    ensures forall k :: k in s[name] && k != KeyOf(row) ==> r[name][k] == s[name][k]
    ensures KeyOf(row) !in s[name] ==> |r[name]| == |s[name]| + 1
  {
    s[name := s[name][KeyOf(row) := row]]
  }

  /** `store.delete(key)`: removes the key from one partition if present. */
  function DeleteKey(s: Stores, name: string, key: Key): (r: Stores)
    requires name in s
    ensures r.Keys == s.Keys
    ensures forall n :: n in s && n != name ==> r[n] == s[n]
    ensures r[name].Keys == s[name].Keys - {key}
    ensures forall k :: k in s[name] && k != key ==> r[name][k] == s[name][k]
    ensures key !in s[name] ==> r == s
  {
    assert key !in s[name] ==> s[name] - {key} == s[name];
    s[name := s[name] - {key}]
  }

  lemma PutKeepsWellKeyed(s: Stores, name: string, row: Row)
    requires WellKeyed(s) && name in s && RowFits(name, row)
    ensures WellKeyed(PutRow(s, name, row))
  {
    var r := PutRow(s, name, row);
    forall n | n in r
      ensures PartitionWellKeyed(n, r[n])
    {
      if n != name {
        assert r[n] == s[n];
      }
    }
  }

  lemma DeleteKeepsWellKeyed(s: Stores, name: string, key: Key)
    requires WellKeyed(s) && name in s
    ensures WellKeyed(DeleteKey(s, name, key))
  {
    var r := DeleteKey(s, name, key);
    forall n | n in r
      ensures PartitionWellKeyed(n, r[n])
    {
      if n != name {
        assert r[n] == s[n];
      }
    }
  }

  /** The database handle. `version` is the schema version the database is
      at (0 for a database that was never opened); the application only ever
      opens it at version 7, so it never exceeds 7. */
  class Database {
    var version: nat
    var stores: Stores

    ghost predicate Valid()
      reads this
    {
      && version <= DbVersion
      && (version == DbVersion ==> AllPartitions(stores))
      && WellKeyed(stores)
    }

    /** A database that has never been opened: no partitions yet. */
    constructor ()
      ensures Valid() && version == 0 && stores == map[]
    {
      version := 0;
      stores := map[];
    }

    /** The `onupgradeneeded` handler: creates each of the four partitions
        that is missing and nothing else. */
    method Upgrade()
      modifies this
      ensures stores == Upgraded(old(stores)) && version == old(version)
    {
      ghost var s0 := stores;
      CreateIfMissing(ProfileStore);
      ghost var a := stores;
      CreateIfMissing(ItemsStore);
      ghost var b := stores;
      CreateIfMissing(TablesStore);
      ghost var c := stores;
      CreateIfMissing(PendingStore);
      UpgradeSteps(s0, a, b, c, stores);
    }

    /** One conditional `createObjectStore` of the upgrade handler. */
    method CreateIfMissing(name: string)
      modifies this
      ensures stores == EnsurePartition(old(stores), name) && version == old(version)
    {
      if name !in stores {
        stores := stores[name := map[]];
      }
    }

    /** `openDB()`: `indexedDB.open("TapRestoDB", 7)` runs the upgrade
        handler when the stored version is lower, then resolves. */
    method Open()
      requires Valid()
      modifies this
      ensures Valid() && version == DbVersion
      ensures stores == Upgraded(old(stores))
    {
      if version < DbVersion {
        UpgradeKeepsWellKeyed(stores);
        Upgrade();
        version := DbVersion;
      }
    }

    method Put(name: string, row: Row)
      requires Valid() && name in stores && RowFits(name, row)
      modifies this
      ensures Valid() && version == old(version)
      ensures stores == PutRow(old(stores), name, row)
    {
      PutKeepsWellKeyed(stores, name, row);
      stores := stores[name := stores[name][KeyOf(row) := row]];
    }

    method Delete(name: string, key: Key)
      requires Valid() && name in stores
      modifies this
      ensures Valid() && version == old(version)
      ensures stores == DeleteKey(old(stores), name, key)
    {
      DeleteKeepsWellKeyed(stores, name, key);
      stores := stores[name := stores[name] - {key}];
    }

    /** `store.get(key)`: the row under the key, or nothing. */
    method Get(name: string, key: Key) returns (r: Option<Row>)
      requires name in stores
      ensures key in stores[name] <==> r.Some?
      ensures r.Some? ==> r.value == stores[name][key]
    {
      if key in stores[name] {
        r := Some(stores[name][key]);
      } else {
        r := None;
      }
    }

    /** `store.getAll()`: every row of the partition, each exactly once. The
        order is left unspecified: the callers sort the result themselves. */
    method GetAll(name: string) returns (rows: seq<Row>)
      requires Valid() && name in stores
      ensures forall i :: 0 <= i < |rows| ==> KeyOf(rows[i]) in stores[name] && stores[name][KeyOf(rows[i])] == rows[i]
      ensures forall k :: k in stores[name] ==> exists i :: 0 <= i < |rows| && KeyOf(rows[i]) == k
      ensures forall i, j :: 0 <= i < j < |rows| ==> KeyOf(rows[i]) != KeyOf(rows[j])
    {
      var part := stores[name];
      assert PartitionWellKeyed(name, part);
      var todo := part.Keys;
      rows := [];
      while todo != {}
        invariant todo <= part.Keys
        invariant forall i :: 0 <= i < |rows| ==> KeyOf(rows[i]) in part && KeyOf(rows[i]) !in todo && part[KeyOf(rows[i])] == rows[i]
        invariant forall k :: k in part && k !in todo ==> exists i :: 0 <= i < |rows| && KeyOf(rows[i]) == k
        invariant forall i, j :: 0 <= i < j < |rows| ==> KeyOf(rows[i]) != KeyOf(rows[j])
        decreases todo
      {
        var k :| k in todo;
        assert KeyOf(part[k]) == k;
        ghost var before := rows;
        rows := rows + [part[k]];
        assert KeyOf(rows[|rows| - 1]) == k;
        assert forall i :: 0 <= i < |before| ==> rows[i] == before[i];
        todo := todo - {k};
      }
    }
  }
}
