/** The cached table list: one row under key "tables" in the "storeTables" partition. */
module StoreTablesDb {
  import opened JsValues
  import opened LocalDb
  import Snapshots

  const StoreTablesKey: string := "tables"

  /** `saveStoreTables(tables)`: a single put of `{ id: "tables", list: tables }`. */
  method SaveStoreTables(db: Database, tables: Json)
    requires db.Valid()
    modifies db
    ensures db.Valid() && db.version == DbVersion
    ensures db.stores == PutRow(Upgraded(old(db.stores)), TablesStore, SnapshotRow(StoreTablesKey, tables))
  {
    Snapshots.Save(db, TablesStore, StoreTablesKey, tables);
  }

  /** `getStoreTables()`: the stored list, or `null` when absent or falsy. */
  method GetStoreTables(db: Database) returns (r: Json)
    requires db.Valid()
    modifies db
    ensures db.Valid() && db.version == DbVersion
    ensures db.stores == Upgraded(old(db.stores))
    ensures r == Snapshots.ReadSnapshot(db.stores, TablesStore, StoreTablesKey)
  {
    r := Snapshots.Load(db, TablesStore, StoreTablesKey);
  }

  /** `deleteStoreTables()`: a single delete of key "tables". */
  method DeleteStoreTables(db: Database)
    requires db.Valid()
    modifies db
    ensures db.Valid() && db.version == DbVersion
    ensures db.stores == DeleteKey(Upgraded(old(db.stores)), TablesStore, StrKey(StoreTablesKey))
  {
    Snapshots.Delete(db, TablesStore, StoreTablesKey);
  }
}
