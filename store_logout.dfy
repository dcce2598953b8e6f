/** The logout page: on mount it removes the push token on the server, calls
    the backend logout and, once that succeeds, forgets the session locally. */
module StoreLogout {
  import opened JsValues
  import opened LocalDb
  import opened Snapshots
  import opened StoreProfileDb
  import opened StoreItemsDb
  import opened StoreTablesDb
  import opened BrowserStorage
  import StoreContext

  /** The calls `handleLogout` makes, in its order: the awaited call to
      `removeFcmToken()`, which itself sends a request only when both the
      `fcm` and `token` items are present, and then `GET stores/logout`
      carrying the token read when the page rendered (`null` when there was
      none). */
  datatype Call = RemoveFcmToken | LogoutRequest(bearer: Option<string>)

  /** The partitions after a successful logout: the database upgraded as an
      open leaves it, with the tables, items and profile snapshots gone. */
  function LoggedOutStores(s: Stores): Stores {
    var u := Upgraded(s);
    u[TablesStore := u[TablesStore] - {StrKey(StoreTablesKey)}]
     [ItemsStore := u[ItemsStore] - {StrKey(StoreItemsKey)}]
     [ProfileStore := u[ProfileStore] - {StrKey(StoreProfileKey)}]
  }

  /** The three deletes of `handleLogout`, each opening the database first,
      end in `LoggedOutStores`. */
  lemma LogoutSteps(s: Stores, a: Stores, b: Stores, c: Stores)
    requires a == DeleteKey(Upgraded(s), TablesStore, StrKey(StoreTablesKey))
    requires b == DeleteKey(Upgraded(a), ItemsStore, StrKey(StoreItemsKey))
    requires c == DeleteKey(Upgraded(b), ProfileStore, StrKey(StoreProfileKey))
    ensures c == LoggedOutStores(s)
  {
  }

  /** Logout clears exactly what the 401 cascade of the store provider
      clears: the order of the three deletes does not matter. */
  lemma LogoutClearsLikeInvalidation(s: Stores)
    ensures LoggedOutStores(s) == StoreContext.InvalidatedStores(s)
  {
    var u := Upgraded(s);
    var p, i, t := u[ProfileStore] - {StrKey(StoreProfileKey)}, u[ItemsStore] - {StrKey(StoreItemsKey)}, u[TablesStore] - {StrKey(StoreTablesKey)};
    assert u[TablesStore := t][ItemsStore := i][ProfileStore := p] == u[ProfileStore := p][ItemsStore := i][TablesStore := t];
  }

  /** After a logout the three caches read as `null` and the queue is as
      it was. */
  lemma LoggedOutClearsCaches(s: Stores)
    ensures ReadSnapshot(LoggedOutStores(s), ProfileStore, StoreProfileKey) == Null
    ensures ReadSnapshot(LoggedOutStores(s), ItemsStore, StoreItemsKey) == Null
    ensures ReadSnapshot(LoggedOutStores(s), TablesStore, StoreTablesKey) == Null
    ensures Queue(LoggedOutStores(s)) == Queue(s)
  {
    LogoutClearsLikeInvalidation(s);
    StoreContext.InvalidationClearsCaches(s);
    StoreContext.InvalidationKeepsQueue(s);
  }

  /** The three awaited deletes after a successful logout, in their order. */
  method DeleteCaches(db: Database)
    requires db.Valid()
    modifies db
    ensures db.Valid() && db.version == DbVersion
    ensures db.stores == LoggedOutStores(old(db.stores))
  {
    DeleteStoreTables(db);
    ghost var a := db.stores;
    DeleteStoreItems(db);
    ghost var b := db.stores;
    DeleteStoreProfile(db);
    LogoutSteps(old(db.stores), a, b, db.stores);
  }

  /** `handleLogout`, with the backend's answer to the logout call given as
      `logoutOk`. A failed logout is only logged. */
  method HandleLogout(db: Database, ls: LocalStorage, logoutOk: bool) returns (calls: seq<Call>)
    requires db.Valid()
    modifies db, ls
    ensures db.Valid()
    ensures calls == [RemoveFcmToken, LogoutRequest(Lookup(old(ls.items), TokenItem))]
    ensures Queue(db.stores) == Queue(old(db.stores))
    ensures logoutOk ==>
      && ls.items == old(ls.items) - {TokenItem, FcmItem}
      && db.version == DbVersion
      && db.stores == LoggedOutStores(old(db.stores))
      && ReadSnapshot(db.stores, ProfileStore, StoreProfileKey) == Null
      && ReadSnapshot(db.stores, ItemsStore, StoreItemsKey) == Null
      && ReadSnapshot(db.stores, TablesStore, StoreTablesKey) == Null
    ensures !logoutOk ==> ls.items == old(ls.items) && unchanged(db)
  {
    var token := ls.GetItem(TokenItem);
    calls := [RemoveFcmToken];
    calls := calls + [LogoutRequest(token)];
    if logoutOk {
      ls.RemoveItem(TokenItem);
      ls.RemoveItem(FcmItem);
      DeleteCaches(db);
      LoggedOutClearsCaches(old(db.stores));
      assert old(ls.items) - {TokenItem} - {FcmItem} == old(ls.items) - {TokenItem, FcmItem};
    }
  }
}
