/** The cached item list: one row under key "items" in the "storeItems" partition. */
module StoreItemsDb {
  import opened JsValues
  import opened LocalDb
  import Snapshots

  const StoreItemsKey: string := "items"

  /** `saveStoreItems(items)`: a single put of `{ id: "items", list: items }`. */
  method SaveStoreItems(db: Database, items: Json)
    requires db.Valid()
    modifies db
    ensures db.Valid() && db.version == DbVersion
    ensures db.stores == PutRow(Upgraded(old(db.stores)), ItemsStore, SnapshotRow(StoreItemsKey, items))
  {
    Snapshots.Save(db, ItemsStore, StoreItemsKey, items);
  }

  /** `getStoreItems()`: the stored list, or `null` when absent or falsy. */
  method GetStoreItems(db: Database) returns (r: Json)
    requires db.Valid()
    modifies db
    ensures db.Valid() && db.version == DbVersion
    ensures db.stores == Upgraded(old(db.stores))
    ensures r == Snapshots.ReadSnapshot(db.stores, ItemsStore, StoreItemsKey)
  {
    r := Snapshots.Load(db, ItemsStore, StoreItemsKey);
  }

  /** `deleteStoreItems()`: a single delete of key "items". */
  method DeleteStoreItems(db: Database)
    requires db.Valid()
    modifies db
    ensures db.Valid() && db.version == DbVersion
    ensures db.stores == DeleteKey(Upgraded(old(db.stores)), ItemsStore, StrKey(StoreItemsKey))
  {
    Snapshots.Delete(db, ItemsStore, StoreItemsKey);
  }
}
