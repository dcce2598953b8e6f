/** The cached store profile: one row under key "store" in the "storeProfile" partition. */
module StoreProfileDb {
  import opened JsValues
  import opened LocalDb
  import Snapshots

  const StoreProfileKey: string := "store"

  /** `saveStoreProfile(profile)`: a single put of `{ id: "store", profile: profile }`. */
  method SaveStoreProfile(db: Database, profile: Json)
    requires db.Valid()
    modifies db
    ensures db.Valid() && db.version == DbVersion
    ensures db.stores == PutRow(Upgraded(old(db.stores)), ProfileStore, SnapshotRow(StoreProfileKey, profile))
  {
    Snapshots.Save(db, ProfileStore, StoreProfileKey, profile);
  }

  /** `getStoreProfile()`: the stored profile, or `null` when absent or falsy. */
  method GetStoreProfile(db: Database) returns (r: Json)
    requires db.Valid()
    modifies db
    ensures db.Valid() && db.version == DbVersion
    ensures db.stores == Upgraded(old(db.stores))
    ensures r == Snapshots.ReadSnapshot(db.stores, ProfileStore, StoreProfileKey)
  {
    r := Snapshots.Load(db, ProfileStore, StoreProfileKey);
  }

  /** `deleteStoreProfile()`: a single delete of key "store". */
  method DeleteStoreProfile(db: Database)
    requires db.Valid()
    modifies db
    ensures db.Valid() && db.version == DbVersion
    ensures db.stores == DeleteKey(Upgraded(old(db.stores)), ProfileStore, StrKey(StoreProfileKey))
  {
    Snapshots.Delete(db, ProfileStore, StoreProfileKey);
  }
}
