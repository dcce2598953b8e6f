/** The sync engine: `syncPendingOrders` drains the pending-order queue in
    one batch request guarded by the single-flight flag `isSyncing`, then
    deletes exactly the records the server confirms. */
module OrderSync {
  import opened JsValues
  import opened LocalDb
  import opened PendingOrdersDb

  const StoreIdField: string := "storeId"

  /** The body of the `orders/sync-orders` request. */
  datatype SyncRequest = SyncRequest(storeId: Json, orders: seq<map<string, Json>>)

  /** One element of `res.data.results`. */
  datatype SyncResult = SyncResult(orderRef: real, ok: bool)

  /** What the network call yields: it throws, or the server answers with
      its results (an absent `results` array reads as empty). */
  datatype SyncResponse = TransportFailure | Delivered(results: seq<SyncResult>)

  /** How a drain ended; the counts are the toast summary. */
  datatype SyncReport =
    | AlreadySyncing
    | NothingPending
    | Synced(successCount: nat, failedCount: nat)
    | SyncFailed

  /** A batch entry `{ ...record.order, _localId: record.id }`. */
  function BatchEntry(rec: PendingRecord): (e: map<string, Json>)
    ensures e.Keys == rec.order.Keys + {LocalIdField}
    ensures e[LocalIdField] == Num(rec.id)
    ensures forall f :: f in rec.order && f != LocalIdField ==> e[f] == rec.order[f]
  {
    rec.order[LocalIdField := Num(rec.id)]
  }

  /** The request for a non-empty snapshot: the first record's `storeId` and
      one entry per record, in the snapshot's order. */
  function BuildBatch(pending: seq<PendingRecord>): (r: SyncRequest)
    requires pending != []
    ensures r.storeId == Field(pending[0].order, StoreIdField)
    ensures |r.orders| == |pending|
    ensures forall i :: 0 <= i < |pending| ==> r.orders[i] == BatchEntry(pending[i])
  {
    SyncRequest(Field(pending[0].order, StoreIdField), seq(|pending|, i requires 0 <= i < |pending| => BatchEntry(pending[i])))
  }

  /** The correlation ids of a batch built from a listing name every queued
      record exactly once, in FIFO order. */
  lemma BatchCorrelatesQueue(l: seq<PendingRecord>, part: Partition)
    requires IsListing(l, part) && l != []
    ensures forall i :: 0 <= i < |l| ==> BuildBatch(l).orders[i][LocalIdField] == Num(l[i].id) && Holds(part, l[i])
    ensures forall i, j :: 0 <= i < j < |l| ==> l[i].id < l[j].id
    ensures forall k :: k in part ==> exists i :: 0 <= i < |l| && BuildBatch(l).orders[i][LocalIdField] == Num(k.n) && k == NumKey(l[i].id)
  {
    forall k | k in part ensures exists i :: 0 <= i < |l| && BuildBatch(l).orders[i][LocalIdField] == Num(k.n) && k == NumKey(l[i].id) {
      var i :| 0 <= i < |l| && NumKey(l[i].id) == k;
      assert BuildBatch(l).orders[i][LocalIdField] == Num(l[i].id);
    }
  }

  /** The keys the results confirm: `orderRef` of every result with `ok`. */
  function OkRefs(results: seq<SyncResult>): set<Key>
    decreases |results|
  {
    if results == [] then {}
    else
      var last := results[|results| - 1];
      OkRefs(results[..|results| - 1]) + (if last.ok then {NumKey(last.orderRef)} else {})
  }

  function CountOk(results: seq<SyncResult>): nat
    decreases |results|
  {
    if results == [] then 0
    else CountOk(results[..|results| - 1]) + (if results[|results| - 1].ok then 1 else 0)
  }

  function CountFailed(results: seq<SyncResult>): nat
    decreases |results|
  {
    if results == [] then 0
    else CountFailed(results[..|results| - 1]) + (if results[|results| - 1].ok then 0 else 1)
  }

  /** A key is confirmed exactly when some result with `ok` names it. */
  lemma {:induction false} OkRefsMembership(results: seq<SyncResult>, k: Key)
    ensures k in OkRefs(results) <==> exists i :: 0 <= i < |results| && results[i].ok && NumKey(results[i].orderRef) == k
    decreases |results|
  {
    if results != [] {
      var n := |results| - 1;
      var init := results[..n];
      OkRefsMembership(init, k);
      if k in OkRefs(init) {
        var i :| 0 <= i < |init| && init[i].ok && NumKey(init[i].orderRef) == k;
        assert results[i] == init[i];
      }
      if exists i :: 0 <= i < |results| && results[i].ok && NumKey(results[i].orderRef) == k {
        var i :| 0 <= i < |results| && results[i].ok && NumKey(results[i].orderRef) == k;
        if i < n {
          assert init[i] == results[i];
        }
      }
    }
  }

  /** Every result is counted once, as a success or as a failure. */
  lemma {:induction false} CountsAddUp(results: seq<SyncResult>)
    ensures CountOk(results) + CountFailed(results) == |results|
    decreases |results|
  {
    if results != [] {
      CountsAddUp(results[..|results| - 1]);
    }
  }

  /** `successCount` is the number of results with `ok`. */
  lemma {:induction false} CountOkIsOkResults(results: seq<SyncResult>)
    ensures CountOk(results) == |set i | 0 <= i < |results| && results[i].ok|
    decreases |results|
  {
    if results != [] {
      var n := |results| - 1;
      var init := results[..n];
      CountOkIsOkResults(init);
      var before := set i | 0 <= i < |init| && init[i].ok;
      var after := set i | 0 <= i < |results| && results[i].ok;
      assert after == before + (if results[n].ok then {n} else {}) by {
        forall i ensures i in after <==> i in before + (if results[n].ok then {n} else {}) {
          if 0 <= i < n {
            assert init[i] == results[i];
          }
        }
      }
      assert n !in before;
    }
  }

  /** A queued record is kept exactly when no result with `ok` names it;
      a kept record is unchanged. */
  lemma KeptIffUnconfirmed(part: Partition, results: seq<SyncResult>, k: Key)
    requires k in part
    ensures k in part - OkRefs(results) <==>
      !exists i :: 0 <= i < |results| && results[i].ok && NumKey(results[i].orderRef) == k
    ensures k in part - OkRefs(results) ==> (part - OkRefs(results))[k] == part[k]
  {
    OkRefsMembership(results, k);
  }

  /** The partitions after the results are applied: the confirmed keys are
      gone from the queue and nothing else changes. */
  function Reconciled(s: Stores, results: seq<SyncResult>): Stores
    requires PendingStore in s
  {
    s[PendingStore := s[PendingStore] - OkRefs(results)]
  }

  /** Applying no results changes nothing. */
  lemma ReconcileNothing(s: Stores)
    requires PendingStore in s
    ensures Reconciled(s, []) == s
  {
    assert s[PendingStore] - {} == s[PendingStore];
  }

  /** One more result is one more delete when it is `ok`, and nothing when it
      is not; the counts move the same way. */
  lemma ReconcileStep(s: Stores, results: seq<SyncResult>, i: nat)
    requires PendingStore in s && i < |results|
    ensures results[i].ok ==>
      Reconciled(s, results[..i + 1]) == DeleteKey(Reconciled(s, results[..i]), PendingStore, NumKey(results[i].orderRef))
    ensures !results[i].ok ==> Reconciled(s, results[..i + 1]) == Reconciled(s, results[..i])
    ensures CountOk(results[..i + 1]) == CountOk(results[..i]) + (if results[i].ok then 1 else 0)
    ensures CountFailed(results[..i + 1]) == CountFailed(results[..i]) + (if results[i].ok then 0 else 1)
  {
    assert results[..i + 1][..i] == results[..i];
    var before := OkRefs(results[..i]);
    if results[i].ok {
      var k := NumKey(results[i].orderRef);
      assert OkRefs(results[..i + 1]) == before + {k};
      assert s[PendingStore] - before - {k} == s[PendingStore] - (before + {k});
    } else {
      assert OkRefs(results[..i + 1]) == before;
    }
  }

  /** The results confirming a whole batch, one `ok` per listed record. */
  function AllConfirmed(l: seq<PendingRecord>): (rs: seq<SyncResult>)
    ensures |rs| == |l|
    ensures forall i :: 0 <= i < |l| ==> rs[i] == SyncResult(l[i].id, true)
  {
    seq(|l|, i requires 0 <= i < |l| => SyncResult(l[i].id, true))
  }

  /** When the server confirms every record of the snapshot and nothing was
      queued meanwhile, the queue ends up empty. */
  lemma FullConfirmationDrains(l: seq<PendingRecord>, part: Partition)
    requires IsListing(l, part)
    ensures part - OkRefs(AllConfirmed(l)) == map[]
  {
    var rs := AllConfirmed(l);
    forall k | k in part ensures k in OkRefs(rs) {
      var i :| 0 <= i < |l| && NumKey(l[i].id) == k;
      assert rs[i].ok && NumKey(rs[i].orderRef) == k;
      OkRefsMembership(rs, k);
    }
  }

  /** A record saved while a drain is in flight and not named by a confirming
      result survives the drain untouched. */
  lemma SavedDuringDrainSurvives(part: Partition, rec: PendingRecord, results: seq<SyncResult>)
    requires forall i :: 0 <= i < |results| && results[i].ok ==> results[i].orderRef != rec.id
    ensures NumKey(rec.id) in part[NumKey(rec.id) := PendingRow(rec)] - OkRefs(results)
    ensures (part[NumKey(rec.id) := PendingRow(rec)] - OkRefs(results))[NumKey(rec.id)] == PendingRow(rec)
  {
    OkRefsMembership(results, NumKey(rec.id));
  }

  /** Replaying the same results removes nothing more: confirmed records
      stay removed and nothing comes back. */
  lemma ReplayIsIdempotent(s: Stores, results: seq<SyncResult>)
    requires PendingStore in s
    ensures Reconciled(Reconciled(s, results), results) == Reconciled(s, results)
  {
    var once := s[PendingStore] - OkRefs(results);
    assert once - OkRefs(results) == once;
    assert Reconciled(s, results)[PendingStore] == once;
  }

  /** The partial-failure scenario: of A, B and C, only A is confirmed, B is
      rejected and C has no result; B and C stay queued in their order. */
  lemma PartialFailureScenario(a: PendingRecord, b: PendingRecord, c: PendingRecord)
    requires a.id == 1.0 && b.id == 2.0 && c.id == 3.0
    ensures var part := map[NumKey(1.0) := PendingRow(a), NumKey(2.0) := PendingRow(b), NumKey(3.0) := PendingRow(c)];
            var rest := part - OkRefs([SyncResult(1.0, true), SyncResult(2.0, false)]);
            rest == map[NumKey(2.0) := PendingRow(b), NumKey(3.0) := PendingRow(c)]
            && forall l :: IsListing(l, rest) ==> l == [b, c]
  {
    var part := map[NumKey(1.0) := PendingRow(a), NumKey(2.0) := PendingRow(b), NumKey(3.0) := PendingRow(c)];
    var results := [SyncResult(1.0, true), SyncResult(2.0, false)];
    assert results[..1] == [SyncResult(1.0, true)];
    assert [SyncResult(1.0, true)][..0] == [];
    assert OkRefs(results) == {NumKey(1.0)};
    var rest := part - OkRefs(results);
    assert rest == map[NumKey(2.0) := PendingRow(b), NumKey(3.0) := PendingRow(c)];
    var full := [a, b, c];
    assert IsListing(full, part) by {
      assert Holds(part, full[0]) && Holds(part, full[1]) && Holds(part, full[2]);
      forall k | k in part ensures exists i :: 0 <= i < |full| && NumKey(full[i].id) == k {
        if k == NumKey(1.0) {
          assert NumKey(full[0].id) == k;
        } else if k == NumKey(2.0) {
          assert NumKey(full[1].id) == k;
        } else {
          assert NumKey(full[2].id) == k;
        }
      }
    }
    ListingAfterRemoval(full, part, OkRefs(results));
    assert Without(full, {NumKey(1.0)}) == [b, c] by {
      var ks := {NumKey(1.0)};
      assert [c][1..] == [];
      assert Without([c], ks) == [c];
      assert [b, c][1..] == [c];
      assert Without([b, c], ks) == [b, c];
      assert full[1..] == [b, c];
    }
    forall l | IsListing(l, rest) ensures l == [b, c] {
      ListingUnique(l, [b, c], rest);
    }
  }

  /** The owner of the module-level `isSyncing` flag. */
  class SyncEngine {
    var isSyncing: bool

    constructor ()
      ensures !isSyncing
    {
      isSyncing := false;
    }

    /** `syncPendingOrders` up to the network call: the flag check, the one
        snapshot read and the batch it sends (`None`: no call is made). */
    method Begin(db: Database) returns (pending: seq<PendingRecord>, request: Option<SyncRequest>)
      requires db.Valid()
      modifies this, db
      ensures db.Valid()
      ensures old(isSyncing) ==>
        && isSyncing && pending == [] && request == None
        && db.stores == old(db.stores) && db.version == old(db.version)
      ensures !old(isSyncing) ==>
        && db.version == DbVersion
        && db.stores == Upgraded(old(db.stores))
        && IsListing(pending, db.stores[PendingStore])
        && (pending == [] ==> request == None && !isSyncing)
        && (pending != [] ==> request == Some(BuildBatch(pending)) && isSyncing)
    {
      if isSyncing {
        return [], None;
      }
      isSyncing := true;
      pending := GetPendingOrders(db);
      if pending == [] {
        isSyncing := false;
        return pending, None;
      }
      request := Some(BuildBatch(pending));
    }

    /** The rest of the drain once the network call settles: on a response,
        delete every confirmed record and count the results; on a thrown
        error, delete nothing. The flag is cleared either way. */
    method Finish(db: Database, response: SyncResponse) returns (report: SyncReport)
      requires db.Valid() && db.version == DbVersion && isSyncing
      modifies this, db
      ensures db.Valid() && db.version == DbVersion && !isSyncing
      ensures response.TransportFailure? ==> report == SyncFailed && db.stores == old(db.stores)
      ensures response.Delivered? ==>
        && report == Synced(CountOk(response.results), CountFailed(response.results))
        && db.stores == Reconciled(old(db.stores), response.results)
    {
      match response {
        case TransportFailure =>
          report := SyncFailed;
        case Delivered(results) =>
          ghost var s0 := db.stores;
          ReconcileNothing(s0);
          var successCount, failedCount := 0, 0;
          var i := 0;
          while i < |results|
            invariant 0 <= i <= |results|
            invariant db.Valid() && db.version == DbVersion
            invariant db.stores == Reconciled(s0, results[..i])
            invariant successCount == CountOk(results[..i]) && failedCount == CountFailed(results[..i])
          {
            var result := results[i];
            ReconcileStep(s0, results, i);
            if result.ok {
              successCount := successCount + 1;
              assert Upgraded(db.stores) == db.stores;
              RemovePendingOrder(db, result.orderRef);
            } else {
              failedCount := failedCount + 1;
            }
            i := i + 1;
          }
          assert results[..|results|] == results;
          report := Synced(successCount, failedCount);
      }
      isSyncing := false;
    }

    /** The whole of `syncPendingOrders`, with the network's answer given.
        `snapshot` is the queue as read at the start of the drain. */
    method SyncPendingOrders(db: Database, response: SyncResponse)
      returns (request: Option<SyncRequest>, report: SyncReport, ghost snapshot: seq<PendingRecord>)
      requires db.Valid()
      modifies this, db
      ensures db.Valid()
      ensures old(isSyncing) ==>
        && isSyncing && request == None && report == AlreadySyncing
        && db.stores == old(db.stores) && db.version == old(db.version)
      ensures !old(isSyncing) ==>
        && !isSyncing && db.version == DbVersion
        && IsListing(snapshot, Upgraded(old(db.stores))[PendingStore])
        && (snapshot == [] ==> request == None && report == NothingPending && db.stores == Upgraded(old(db.stores)))
        && (snapshot != [] ==> request == Some(BuildBatch(snapshot)))
        && (snapshot != [] && response.TransportFailure? ==> report == SyncFailed && db.stores == Upgraded(old(db.stores)))
        && (snapshot != [] && response.Delivered? ==>
              && report == Synced(CountOk(response.results), CountFailed(response.results))
              && db.stores == Reconciled(Upgraded(old(db.stores)), response.results))
    {
      var wasSyncing := isSyncing;
      var pending;
      pending, request := Begin(db);
      snapshot := pending;
      if request == None {
        report := if wasSyncing then AlreadySyncing else NothingPending;
      } else {
        report := Finish(db, response);
      }
    }
  }
}
