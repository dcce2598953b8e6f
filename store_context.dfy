/** The store-session provider: on mount it shows the cached profile at once
    (native only), then fetches the authoritative profile and caches it, or,
    on a 401, ends the session by dropping the token and the three caches. */
module StoreContext {
  import opened JsValues
  import opened LocalDb
  import opened Snapshots
  import opened StoreProfileDb
  import opened StoreItemsDb
  import opened StoreTablesDb
  import opened BrowserStorage

  const StoreField: string := "store"
  const Unauthorized: int := 401

  /** `GET stores/profile` with header `Authorization: Bearer <token>`. */
  datatype ProfileRequest = ProfileRequest(bearer: string)

  /** How the profile request settles: a response body, or a thrown error
      carrying the HTTP status when there was a response at all. */
  datatype FetchOutcome =
    | Fetched(body: map<string, Json>)
    | Failed(status: Option<int>)

  /** `err.response?.status === 401`. */
  predicate IsUnauthorized(outcome: FetchOutcome) {
    outcome.Failed? && outcome.status == Some(Unauthorized)
  }

  /** The partitions after the 401 cascade: the database upgraded as an
      open leaves it, with the profile, items and tables snapshots gone. */
  function InvalidatedStores(s: Stores): Stores {
    var u := Upgraded(s);
    u[ProfileStore := u[ProfileStore] - {StrKey(StoreProfileKey)}]
     [ItemsStore := u[ItemsStore] - {StrKey(StoreItemsKey)}]
     [TablesStore := u[TablesStore] - {StrKey(StoreTablesKey)}]
  }

  /** After the cascade the profile, items and tables caches read as `null`. */
  lemma InvalidationClearsCaches(s: Stores)
    ensures ReadSnapshot(InvalidatedStores(s), ProfileStore, StoreProfileKey) == Null
    ensures ReadSnapshot(InvalidatedStores(s), ItemsStore, StoreItemsKey) == Null
    ensures ReadSnapshot(InvalidatedStores(s), TablesStore, StoreTablesKey) == Null
  {
  }

  /** The cascade leaves the pending-order queue as it was. */
  lemma InvalidationKeepsQueue(s: Stores)
    ensures Queue(InvalidatedStores(s)) == Queue(s)
  {
    UpgradeKeepsQueue(s);
  }

  /** Apart from the three snapshot rows, the cascade changes nothing beyond
      what opening the database does. */
  lemma InvalidationKeepsOtherRows(s: Stores)
    ensures InvalidatedStores(s).Keys == s.Keys + PartitionNames
    ensures forall n :: n in InvalidatedStores(s) && n != ProfileStore && n != ItemsStore && n != TablesStore ==>
      InvalidatedStores(s)[n] == Upgraded(s)[n]
    ensures forall k :: k in Upgraded(s)[ProfileStore] && k != StrKey(StoreProfileKey) ==>
      k in InvalidatedStores(s)[ProfileStore] && InvalidatedStores(s)[ProfileStore][k] == Upgraded(s)[ProfileStore][k]
    ensures forall k :: k in Upgraded(s)[ItemsStore] && k != StrKey(StoreItemsKey) ==>
      k in InvalidatedStores(s)[ItemsStore] && InvalidatedStores(s)[ItemsStore][k] == Upgraded(s)[ItemsStore][k]
    ensures forall k :: k in Upgraded(s)[TablesStore] && k != StrKey(StoreTablesKey) ==>
      k in InvalidatedStores(s)[TablesStore] && InvalidatedStores(s)[TablesStore][k] == Upgraded(s)[TablesStore][k]
  {
  }

  /** A fetched body without a `store` field shows `undefined` and, once cached
      on native, leaves the profile cache reading as `null`. */
  lemma BodyWithoutStoreClearsCache(s: Stores, body: map<string, Json>)
    requires StoreField !in body
    ensures Field(body, StoreField) == Undefined
    ensures ReadSnapshot(PutRow(Upgraded(s), ProfileStore, SnapshotRow(StoreProfileKey, Field(body, StoreField))),
                         ProfileStore, StoreProfileKey) == Null
  {
    SaveThenLoad(Upgraded(s), ProfileStore, StoreProfileKey, Undefined);
  }

  /** The three deletes of the cascade, each opening the database first,
      end in `InvalidatedStores`. */
  lemma InvalidationSteps(s: Stores, a: Stores, b: Stores, c: Stores)
    requires a == DeleteKey(Upgraded(s), ProfileStore, StrKey(StoreProfileKey))
    requires b == DeleteKey(Upgraded(a), ItemsStore, StrKey(StoreItemsKey))
    requires c == DeleteKey(Upgraded(b), TablesStore, StrKey(StoreTablesKey))
    ensures c == InvalidatedStores(s)
  {
  }

  /** The three awaited deletes of the 401 branch, in their order. */
  method DeleteCaches(db: Database)
    requires db.Valid()
    modifies db
    ensures db.Valid() && db.version == DbVersion
    ensures db.stores == InvalidatedStores(old(db.stores))
  {
    DeleteStoreProfile(db);
    ghost var a := db.stores;
    DeleteStoreItems(db);
    ghost var b := db.stores;
    DeleteStoreTables(db);
    InvalidationSteps(old(db.stores), a, b, db.stores);
  }

  /** The provider's state: `store`, `isLoading` and `error`. */
  class StoreProvider {
    var store: Json
    var isLoading: bool
    var error: Json

    /** `useState({})`, `useState(true)`, `useState(null)`. */
    constructor ()
      ensures store == Obj(map[]) && isLoading && error == Null
    {
      store := Obj(map[]);
      isLoading := true;
      error := Null;
    }

    /** Step 1 of `initStore`, before the fetch resolves: on native, a cached
        profile is shown at once and loading ends. Returns the request the
        fetch then makes. */
    method ShowCached(db: Database, token: string, isNative: bool) returns (request: ProfileRequest)
      requires db.Valid()
      modifies this, db
      ensures db.Valid() && request == ProfileRequest(token) && error == old(error)
      ensures !isNative ==> unchanged(this) && unchanged(db)
      ensures isNative ==>
        && db.version == DbVersion && db.stores == Upgraded(old(db.stores))
        && var cached := ReadSnapshot(db.stores, ProfileStore, StoreProfileKey);
           (Truthy(cached) ==> store == cached && !isLoading)
           && (!Truthy(cached) ==> store == old(store) && isLoading == old(isLoading))
    {
      if isNative {
        var cachedStore := GetStoreProfile(db);
        if Truthy(cachedStore) {
          store := cachedStore;
          isLoading := false;
        }
      }
      request := ProfileRequest(token);
    }

    /** The rest of `initStore` once the fetch settles: the fetched profile
        is shown and cached (native only); a 401 removes the token, deletes
        the three caches and resets `store`; any other failure changes
        nothing. Loading ends in every case. */
    method Settle(db: Database, ls: LocalStorage, isNative: bool, outcome: FetchOutcome)
      requires db.Valid()
      modifies this, db, ls
      ensures db.Valid() && !isLoading && error == old(error)
      ensures Queue(db.stores) == Queue(old(db.stores))
      ensures outcome.Fetched? ==>
        && store == Field(outcome.body, StoreField)
        && ls.items == old(ls.items)
        && (isNative ==>
              db.version == DbVersion
              && db.stores == PutRow(Upgraded(old(db.stores)), ProfileStore, SnapshotRow(StoreProfileKey, store)))
        && (!isNative ==> unchanged(db))
      ensures IsUnauthorized(outcome) ==>
        && store == Obj(map[])
        && ls.items == old(ls.items) - {TokenItem}
        && db.version == DbVersion
        && db.stores == InvalidatedStores(old(db.stores))
      ensures outcome.Failed? && !IsUnauthorized(outcome) ==>
        store == old(store) && ls.items == old(ls.items) && unchanged(db)
    {
      match outcome {
        case Fetched(body) =>
          store := Field(body, StoreField);
          if isNative {
            SaveStoreProfile(db, store);
            assert db.stores == PutRow(Upgraded(old(db.stores)), ProfileStore, SnapshotRow(StoreProfileKey, store));
            OtherPartitionKeepsQueue(Upgraded(old(db.stores)), ProfileStore, SnapshotRow(StoreProfileKey, store), StrKey(StoreProfileKey));
            UpgradeKeepsQueue(old(db.stores));
          }
        case Failed(status) =>
          if status == Some(Unauthorized) {
            ls.RemoveItem(TokenItem);
            DeleteCaches(db);
            InvalidationKeepsQueue(old(db.stores));
            store := Obj(map[]);
          }
      }
      isLoading := false;
    }

    /** The mount effect: with no token, loading simply ends; otherwise
        `initStore` runs with the fetch settling as `outcome`. Returns the
        request made, if any. */
    method Mount(db: Database, ls: LocalStorage, isNative: bool, outcome: FetchOutcome)
      returns (request: Option<ProfileRequest>)
      requires db.Valid()
      modifies this, db, ls
      ensures db.Valid() && !isLoading && error == old(error)
      ensures Queue(db.stores) == Queue(old(db.stores))
      ensures !Present(Lookup(old(ls.items), TokenItem)) ==>
        request == None && store == old(store) && ls.items == old(ls.items) && unchanged(db)
      ensures Present(Lookup(old(ls.items), TokenItem)) ==>
        && request == Some(ProfileRequest(old(ls.items)[TokenItem]))
        && (outcome.Fetched? ==> store == Field(outcome.body, StoreField) && ls.items == old(ls.items))
        && (isNative ==> db.version == DbVersion)
        && (outcome.Fetched? && isNative ==>
              db.stores == PutRow(Upgraded(old(db.stores)), ProfileStore, SnapshotRow(StoreProfileKey, store)))
        && (outcome.Fetched? && !isNative ==> unchanged(db))
        && (IsUnauthorized(outcome) ==>
              store == Obj(map[]) && ls.items == old(ls.items) - {TokenItem}
              && db.version == DbVersion && db.stores == InvalidatedStores(old(db.stores)))
        && (outcome.Failed? && !IsUnauthorized(outcome) ==>
              ls.items == old(ls.items)
              && (isNative ==>
                    && db.stores == Upgraded(old(db.stores))
                    && var cached := ReadSnapshot(db.stores, ProfileStore, StoreProfileKey);
                       store == (if Truthy(cached) then cached else old(store)))
              && (!isNative ==> unchanged(db) && store == old(store)))
    {
      var token := ls.GetItem(TokenItem);
      if !Present(token) {
        isLoading := false;
        return None;
      }
      var req := ShowCached(db, token.value, isNative);
      Settle(db, ls, isNative, outcome);
      if isNative {
        UpgradeIdempotent(old(db.stores));
        UpgradeKeepsQueue(old(db.stores));
      }
      request := Some(req);
    }
  }
}
