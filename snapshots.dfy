/** The singleton snapshot repository the profile, items and tables caches
    share: one row `{ id: key, <field>: payload }` in the cache's own
    partition, replaced whole on save, read back through
    `req.result?.<field> || null`, deleted whole. */
module Snapshots {
  import opened JsValues
  import opened LocalDb

  /** A partition a snapshot repository may write to. */
  predicate SnapshotPartition(name: string) {
    name in PartitionNames && name != PendingStore
  }

  /** The value a load returns: the stored payload when it is truthy, and
      `null` when nothing is stored or the payload is falsy. */
  function ReadSnapshot(s: Stores, name: string, key: string): (r: Json)
    ensures r == Null || Truthy(r)
    ensures name in s && StrKey(key) !in s[name] ==> r == Null
    ensures name in s && StrKey(key) in s[name] && s[name][StrKey(key)].SnapshotRow? && Truthy(s[name][StrKey(key)].payload)
      ==> r == s[name][StrKey(key)].payload
  {
    if name in s && StrKey(key) in s[name] then
      match s[name][StrKey(key)]
      case SnapshotRow(_, payload) => OrElse(payload, Null)
      case PendingRow(_) => Null
    else Null
  }

  /** A save followed by a load returns the saved value when it is truthy,
      and `null` otherwise. */
  lemma SaveThenLoad(s: Stores, name: string, key: string, v: Json)
    requires name in s
    ensures ReadSnapshot(PutRow(s, name, SnapshotRow(key, v)), name, key) == OrElse(v, Null)
  {
    assert KeyOf(SnapshotRow(key, v)) == StrKey(key);
  }

  /** A second save replaces the first wholesale: nothing of it survives. */
  lemma SecondSaveReplaces(s: Stores, name: string, key: string, v1: Json, v2: Json)
    requires name in s
    ensures PutRow(PutRow(s, name, SnapshotRow(key, v1)), name, SnapshotRow(key, v2)) == PutRow(s, name, SnapshotRow(key, v2))
  {
    assert s[name][StrKey(key) := SnapshotRow(key, v1)][StrKey(key) := SnapshotRow(key, v2)] == s[name][StrKey(key) := SnapshotRow(key, v2)];
  }

  /** A delete followed by a load returns `null`. */
  lemma DeleteThenLoad(s: Stores, name: string, key: string)
    requires name in s
    ensures ReadSnapshot(DeleteKey(s, name, StrKey(key)), name, key) == Null
  {
  }

  /** Saving one snapshot leaves every other snapshot's load unchanged. */
  lemma SaveKeepsOtherSnapshots(s: Stores, name: string, key: string, v: Json, name': string, key': string)
    requires name in s && (name' != name || key' != key)
    ensures ReadSnapshot(PutRow(s, name, SnapshotRow(key, v)), name', key') == ReadSnapshot(s, name', key')
  {
    var r := PutRow(s, name, SnapshotRow(key, v));
    assert KeyOf(SnapshotRow(key, v)) == StrKey(key);
    if name' in s && name' != name {
      assert r[name'] == s[name'];
    }
  }

  /** Deleting one snapshot leaves every other snapshot's load unchanged. */
  lemma DeleteKeepsOtherSnapshots(s: Stores, name: string, key: string, name': string, key': string)
    requires name in s && (name' != name || key' != key)
    ensures ReadSnapshot(DeleteKey(s, name, StrKey(key)), name', key') == ReadSnapshot(s, name', key')
  {
    var r := DeleteKey(s, name, StrKey(key));
    if name' in s && name' != name {
      assert r[name'] == s[name'];
    }
  }

  method Save(db: Database, name: string, key: string, payload: Json)
    requires db.Valid() && SnapshotPartition(name)
    modifies db
    ensures db.Valid() && db.version == DbVersion
    ensures db.stores == PutRow(Upgraded(old(db.stores)), name, SnapshotRow(key, payload))
  {
    db.Open();
    db.Put(name, SnapshotRow(key, payload));
  }

  method Load(db: Database, name: string, key: string) returns (r: Json)
    requires db.Valid() && SnapshotPartition(name)
    modifies db
    ensures db.Valid() && db.version == DbVersion
    ensures db.stores == Upgraded(old(db.stores))
    ensures r == ReadSnapshot(db.stores, name, key)
  {
    db.Open();
    var row := db.Get(name, StrKey(key));
    match row
    case Some(SnapshotRow(_, payload)) =>
      r := OrElse(payload, Null);
    case _ =>
      r := Null;
  }

  method Delete(db: Database, name: string, key: string)
    requires db.Valid() && SnapshotPartition(name)
    modifies db
    ensures db.Valid() && db.version == DbVersion
    ensures db.stores == DeleteKey(Upgraded(old(db.stores)), name, StrKey(key))
  {
    db.Open();
    db.Delete(name, StrKey(key));
  }
}
