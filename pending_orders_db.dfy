/** The pending-order FIFO queue kept in the "pendingOrders" partition:
    records are upserted under a local id that doubles as `_localId`,
    listed in ascending id order and removed by key. */
module PendingOrdersDb {
  import opened JsValues
  import opened LocalDb

  const LocalIdField: string := "_localId"
  const CreatedAtField: string := "createdAt"
  const UpdatedAtField: string := "updatedAt"

  /** The row `savePendingOrder` builds from the caller's order: the local id
      as key, as `_localId` and as `order._localId`; `createdAt` and
      `updatedAt` kept when truthy, otherwise filled with the time given. */
  function MakeRecord(id: real, order: map<string, Json>, createdNow: string, updatedNow: string): (r: PendingRecord)
    ensures r.id == id && r.localId == id
    ensures LocalIdField in r.order && r.order[LocalIdField] == Num(id)
    ensures CreatedAtField in r.order && r.order[CreatedAtField] == OrElse(Field(order, CreatedAtField), Str(createdNow))
    ensures UpdatedAtField in r.order && r.order[UpdatedAtField] == OrElse(Field(order, UpdatedAtField), Str(updatedNow))
    ensures r.order.Keys == order.Keys + {LocalIdField, CreatedAtField, UpdatedAtField}
    ensures forall f :: f in order && f != LocalIdField && f != CreatedAtField && f != UpdatedAtField ==> r.order[f] == order[f]
  {
    var createdAt := OrElse(Field(order, CreatedAtField), Str(createdNow));
    var updatedAt := OrElse(Field(order, UpdatedAtField), Str(updatedNow));
    PendingRecord(id, id, order[LocalIdField := Num(id)][CreatedAtField := createdAt][UpdatedAtField := updatedAt])
  }

  /** The record is stored under the key the record itself carries. */
  lemma MakeRecordKey(id: real, order: map<string, Json>, createdNow: string, updatedNow: string)
    ensures KeyOf(PendingRow(MakeRecord(id, order, createdNow, updatedNow))) == NumKey(id)
  {
  }

  predicate SortedById(s: seq<PendingRecord>) {
    forall i, j :: 0 <= i < j < |s| ==> s[i].id <= s[j].id
  }

  predicate StrictlySorted(s: seq<PendingRecord>) {
    forall i, j :: 0 <= i < j < |s| ==> s[i].id < s[j].id
  }

  /** The record is the row the partition holds under its id. */
  predicate Holds(part: Partition, rec: PendingRecord) {
    NumKey(rec.id) in part && part[NumKey(rec.id)] == PendingRow(rec)
  }

  /** `l` lists the partition in FIFO order: ascending by id, only stored
      records, and every stored key; strict ascent makes each appear once. */
  predicate IsListing(l: seq<PendingRecord>, part: Partition) {
    && StrictlySorted(l)
    && (forall i :: 0 <= i < |l| ==> Holds(part, l[i]))
    && (forall k :: k in part ==> exists i :: 0 <= i < |l| && NumKey(l[i].id) == k)
  }

  predicate NoDup(s: seq<PendingRecord>) {
    forall i, j :: 0 <= i < j < |s| ==> s[i] != s[j]
  }

  lemma {:induction false} NoDupMultiplicity(s: seq<PendingRecord>)
    requires NoDup(s)
    ensures forall x :: multiset(s)[x] <= 1
  {
    if s != [] {
      var rest := s[1..];
      assert s == [s[0]] + rest;
      assert NoDup(rest) by {
        forall i, j | 0 <= i < j < |rest| ensures rest[i] != rest[j] {
          assert rest[i] == s[i + 1] && rest[j] == s[j + 1];
        }
      }
      NoDupMultiplicity(rest);
      assert s[0] !in rest by {
        forall i | 0 <= i < |rest| ensures rest[i] != s[0] {
          assert rest[i] == s[i + 1];
        }
      }
      forall x ensures multiset(s)[x] <= 1 {
        assert multiset(s) == multiset{s[0]} + multiset(rest);
      }
    }
  }

  lemma MultiplicityNoDup(s: seq<PendingRecord>)
    requires forall x :: multiset(s)[x] <= 1
    ensures NoDup(s)
  {
    forall i, j | 0 <= i < j < |s| ensures s[i] != s[j] {
      assert s == s[..j] + s[j..];
      assert s[i] in s[..j];
      assert s[j] in s[j..];
      assert multiset(s)[s[i]] == multiset(s[..j])[s[i]] + multiset(s[j..])[s[i]];
    }
  }

  /** An empty listing belongs exactly to an empty partition. */
  lemma ListingEmpty(l: seq<PendingRecord>, part: Partition)
    requires IsListing(l, part)
    ensures l == [] <==> part.Keys == {}
  {
    if l != [] {
      assert Holds(part, l[0]);
    }
    if part.Keys != {} {
      var k :| k in part;
      var i :| 0 <= i < |l| && NumKey(l[i].id) == k;
    }
  }

  /** Dropping the head of a listing lists the partition without its key. */
  lemma ListingTail(l: seq<PendingRecord>, part: Partition)
    requires IsListing(l, part) && l != []
    ensures IsListing(l[1..], part - {NumKey(l[0].id)})
  {
    var k := NumKey(l[0].id);
    var t := l[1..];
    forall i | 0 <= i < |t| ensures Holds(part - {k}, t[i]) {
      assert t[i] == l[i + 1];
      assert l[0].id < l[i + 1].id;
    }
    forall k' | k' in part - {k} ensures exists i :: 0 <= i < |t| && NumKey(t[i].id) == k' {
      var i :| 0 <= i < |l| && NumKey(l[i].id) == k';
      assert i != 0;
      assert t[i - 1] == l[i];
    }
  }

  /** Two listings of one non-empty partition start with the same record:
      the one with the least id. */
  lemma ListingHeadsAgree(l1: seq<PendingRecord>, l2: seq<PendingRecord>, part: Partition)
    requires IsListing(l1, part) && IsListing(l2, part) && l1 != [] && l2 != []
    ensures l1[0] == l2[0]
  {
    assert Holds(part, l1[0]) && Holds(part, l2[0]);
    var j :| 0 <= j < |l2| && NumKey(l2[j].id) == NumKey(l1[0].id);
    assert l2[0].id <= l2[j].id;
    var i :| 0 <= i < |l1| && NumKey(l1[i].id) == NumKey(l2[0].id);
    assert l1[0].id <= l1[i].id;
  }

  /** A partition has exactly one listing, so listing is a function of the
      stored records and two reads of an unchanged partition agree. */
  lemma {:induction false} ListingUnique(l1: seq<PendingRecord>, l2: seq<PendingRecord>, part: Partition)
    requires IsListing(l1, part) && IsListing(l2, part)
    ensures l1 == l2
    decreases |l1|
  {
    ListingEmpty(l1, part);
    ListingEmpty(l2, part);
    if l1 != [] {
      var t1, t2 := l1[1..], l2[1..];
      ListingHeadsAgree(l1, l2, part);
      ListingTail(l1, part);
      ListingTail(l2, part);
      ListingUnique(t1, t2, part - {NumKey(l1[0].id)});
      SameHeadSameTail(l1, l2);
    }
  }

  lemma SameHeadSameTail(l1: seq<PendingRecord>, l2: seq<PendingRecord>)
    requires l1 != [] && l2 != [] && l1[0] == l2[0] && l1[1..] == l2[1..]
    ensures l1 == l2
  {
    assert l1 == [l1[0]] + l1[1..];
    assert l2 == [l2[0]] + l2[1..];
  }

  lemma ConsSorted(x: PendingRecord, t: seq<PendingRecord>)
    requires StrictlySorted(t)
    requires forall q :: 0 <= q < |t| ==> x.id < t[q].id
    ensures StrictlySorted([x] + t)
  {
    var r := [x] + t;
    forall p, q | 0 <= p < q < |r| ensures r[p].id < r[q].id {
      assert r[q] == t[q - 1];
      if p > 0 {
        assert r[p] == t[p - 1];
      }
    }
  }

  /** A record placed at its id position in an ascending list. */
  function InsertById(l: seq<PendingRecord>, rec: PendingRecord): (r: seq<PendingRecord>)
    ensures multiset(r) == multiset(l) + multiset{rec}
    ensures forall x :: x in r <==> x == rec || x in l
  {
    if l == [] then [rec]
    else if rec.id < l[0].id then [rec] + l
    else
      assert l == [l[0]] + l[1..];
      [l[0]] + InsertById(l[1..], rec)
  }

  lemma {:induction false} InsertSorted(l: seq<PendingRecord>, rec: PendingRecord)
    requires StrictlySorted(l)
    requires forall i :: 0 <= i < |l| ==> l[i].id != rec.id
    ensures StrictlySorted(InsertById(l, rec))
  {
    if l == [] {
    } else if rec.id < l[0].id {
      ConsSorted(rec, l);
    } else {
      var t := l[1..];
      InsertSorted(t, rec);
      var rt := InsertById(t, rec);
      forall q | 0 <= q < |rt| ensures l[0].id < rt[q].id {
        assert rt[q] in rt;
        if rt[q] != rec {
          var m :| 0 <= m < |t| && t[m] == rt[q];
          assert t[m] == l[m + 1];
        }
      }
      ConsSorted(l[0], rt);
    }
  }

  lemma InsertHolds(l: seq<PendingRecord>, part: Partition, rec: PendingRecord, grown: Partition, r: seq<PendingRecord>)
    requires forall i :: 0 <= i < |l| ==> Holds(part, l[i])
    requires NumKey(rec.id) !in part
    requires grown == part[NumKey(rec.id) := PendingRow(rec)] && r == InsertById(l, rec)
    ensures forall i :: 0 <= i < |r| ==> Holds(grown, r[i])
  {
    forall i | 0 <= i < |r| ensures Holds(grown, r[i]) {
      assert r[i] in r;
      if r[i] != rec {
        var m :| 0 <= m < |l| && l[m] == r[i];
        assert Holds(part, l[m]);
      }
    }
  }

  lemma InsertCovers(l: seq<PendingRecord>, part: Partition, rec: PendingRecord, grown: Partition, r: seq<PendingRecord>)
    requires forall k :: k in part ==> exists i :: 0 <= i < |l| && NumKey(l[i].id) == k
    requires grown == part[NumKey(rec.id) := PendingRow(rec)] && r == InsertById(l, rec)
    ensures forall k :: k in grown ==> exists i :: 0 <= i < |r| && NumKey(r[i].id) == k
  {
    forall k | k in grown ensures exists i :: 0 <= i < |r| && NumKey(r[i].id) == k {
      if k == NumKey(rec.id) {
        assert rec in r;
        var i :| 0 <= i < |r| && r[i] == rec;
      } else {
        var m :| 0 <= m < |l| && NumKey(l[m].id) == k;
        assert l[m] in r;
        var i :| 0 <= i < |r| && r[i] == l[m];
      }
    }
  }

  /** Saving a record under a fresh id leaves the earlier records in their
      FIFO order and puts the new one at its id position. */
  lemma ListingAfterSave(l: seq<PendingRecord>, part: Partition, rec: PendingRecord)
    requires IsListing(l, part)
    requires NumKey(rec.id) !in part
    ensures IsListing(InsertById(l, rec), part[NumKey(rec.id) := PendingRow(rec)])
  {
    forall i | 0 <= i < |l| ensures l[i].id != rec.id {
      assert Holds(part, l[i]);
    }
    InsertSorted(l, rec);
    InsertHolds(l, part, rec, part[NumKey(rec.id) := PendingRow(rec)], InsertById(l, rec));
    InsertCovers(l, part, rec, part[NumKey(rec.id) := PendingRow(rec)], InsertById(l, rec));
  }

  /** The records of a list whose keys are not in `ks`, in their order. */
  function Without(l: seq<PendingRecord>, ks: set<Key>): (r: seq<PendingRecord>)
    ensures forall x :: x in r <==> x in l && NumKey(x.id) !in ks
  {
    if l == [] then []
    else
      assert l == [l[0]] + l[1..];
      (if NumKey(l[0].id) in ks then [] else [l[0]]) + Without(l[1..], ks)
  }

  lemma {:induction false} WithoutSorted(l: seq<PendingRecord>, ks: set<Key>)
    requires StrictlySorted(l)
    ensures StrictlySorted(Without(l, ks))
  {
    if l != [] {
      var t := l[1..];
      WithoutSorted(t, ks);
      var rt := Without(t, ks);
      if NumKey(l[0].id) !in ks {
        forall q | 0 <= q < |rt| ensures l[0].id < rt[q].id {
          assert rt[q] in rt;
          var m :| 0 <= m < |t| && t[m] == rt[q];
          assert t[m] == l[m + 1];
        }
        ConsSorted(l[0], rt);
      }
    }
  }

  /** Removing a set of keys leaves the remaining records in their original
      relative order. */
  lemma ListingAfterRemoval(l: seq<PendingRecord>, part: Partition, ks: set<Key>)
    requires IsListing(l, part)
    ensures IsListing(Without(l, ks), part - ks)
  {
    var r := Without(l, ks);
    WithoutSorted(l, ks);
    forall i | 0 <= i < |r| ensures Holds(part - ks, r[i]) {
      assert r[i] in r;
      var m :| 0 <= m < |l| && l[m] == r[i];
      assert Holds(part, l[m]);
    }
    forall k | k in part - ks ensures exists i :: 0 <= i < |r| && NumKey(r[i].id) == k {
      var m :| 0 <= m < |l| && NumKey(l[m].id) == k;
      assert l[m] in r;
      var i :| 0 <= i < |r| && r[i] == l[m];
    }
  }

  /** After `removePendingOrder(id)` no listing contains that id. */
  lemma RemovedNeverListed(l: seq<PendingRecord>, part: Partition, id: real)
    requires IsListing(l, part - {NumKey(id)})
    ensures forall i :: 0 <= i < |l| ==> l[i].id != id
  {
    forall i | 0 <= i < |l| ensures l[i].id != id {
      assert Holds(part - {NumKey(id)}, l[i]);
    }
  }

  /** A sorted arrangement of every row `getAll` returned lists the partition. */
  lemma SortedRowsAreListing(rows: seq<Row>, recs: seq<PendingRecord>, list: seq<PendingRecord>, part: Partition)
    requires PartitionWellKeyed(PendingStore, part)
    requires forall i :: 0 <= i < |rows| ==> KeyOf(rows[i]) in part && part[KeyOf(rows[i])] == rows[i]
    requires forall k :: k in part ==> exists i :: 0 <= i < |rows| && KeyOf(rows[i]) == k
    requires forall i, j :: 0 <= i < j < |rows| ==> KeyOf(rows[i]) != KeyOf(rows[j])
    requires |recs| == |rows| && forall i :: 0 <= i < |rows| ==> rows[i] == PendingRow(recs[i])
    requires SortedById(list) && multiset(list) == multiset(recs)
    ensures IsListing(list, part)
  {
    assert NoDup(recs) by {
      forall i, j | 0 <= i < j < |recs| ensures recs[i] != recs[j] {
        assert KeyOf(rows[i]) != KeyOf(rows[j]);
      }
    }
    NoDupMultiplicity(recs);
    MultiplicityNoDup(list);
    forall i | 0 <= i < |list| ensures Holds(part, list[i]) {
      assert list[i] in multiset(recs);
      var m :| 0 <= m < |recs| && recs[m] == list[i];
      assert KeyOf(rows[m]) == NumKey(recs[m].id);
    }
    forall i, j | 0 <= i < j < |list| ensures list[i].id < list[j].id {
      assert Holds(part, list[i]) && Holds(part, list[j]);
    }
    forall k | k in part ensures exists i :: 0 <= i < |list| && NumKey(list[i].id) == k {
      var m :| 0 <= m < |rows| && KeyOf(rows[m]) == k;
      assert recs[m] in multiset(list);
      var i :| 0 <= i < |list| && list[i] == recs[m];
    }
  }

  method Swap(a: array<PendingRecord>, i: int, j: int)
    requires 0 <= i < a.Length && 0 <= j < a.Length
    modifies a
    ensures a[..] == old(a[..])[i := old(a[j])][j := old(a[i])]
    ensures multiset(a[..]) == multiset(old(a[..]))
  {
    a[i], a[j] := a[j], a[i];
  }

  /** One insertion step: moves `a[i]` left past every larger id, so that
      `a[..i+1]` becomes sorted. */
  method InsertStep(a: array<PendingRecord>, i: int)
    requires 0 <= i < a.Length
    requires forall p, q :: 0 <= p < q < i ==> a[p].id <= a[q].id
    modifies a
    ensures forall p, q :: 0 <= p < q <= i ==> a[p].id <= a[q].id
    ensures multiset(a[..]) == multiset(old(a[..]))
  {
    var j := i;
    while 0 < j && a[j].id < a[j - 1].id
      invariant 0 <= j <= i
      invariant forall p, q :: 0 <= p < q <= i && p != j && q != j ==> a[p].id <= a[q].id
      invariant forall p, q :: 0 <= p < j < q <= i ==> a[p].id <= a[q].id
      invariant forall q :: j < q <= i ==> a[j].id <= a[q].id
      invariant multiset(a[..]) == multiset(old(a[..]))
    {
      Swap(a, j - 1, j);
      j := j - 1;
    }
  }

  /** `list.sort((a, b) => a.id - b.id)`: sorts the array in place. */
  method SortById(a: array<PendingRecord>)
    modifies a
    ensures SortedById(a[..])
    ensures multiset(a[..]) == multiset(old(a[..]))
  {
    var i := 0;
    while i < a.Length
      invariant 0 <= i <= a.Length
      invariant forall p, q :: 0 <= p < q < i ==> a[p].id <= a[q].id
      invariant multiset(a[..]) == multiset(old(a[..]))
    {
      InsertStep(a, i);
      i := i + 1;
    }
  }

  /** `savePendingOrder(order)` with the generated id and the two
      `new Date().toISOString()` values given. */
  method SavePendingOrder(db: Database, id: real, order: map<string, Json>, createdNow: string, updatedNow: string)
    requires db.Valid()
    modifies db
    ensures db.Valid() && db.version == DbVersion
    ensures db.stores == PutRow(Upgraded(old(db.stores)), PendingStore, PendingRow(MakeRecord(id, order, createdNow, updatedNow)))
  {
    db.Open();
    var record := MakeRecord(id, order, createdNow, updatedNow);
    db.Put(PendingStore, PendingRow(record));
  }

  /** `getPendingOrders()`: a read-only transaction, `getAll`, then the sort. */
  method GetPendingOrders(db: Database) returns (list: seq<PendingRecord>)
    requires db.Valid()
    modifies db
    ensures db.Valid() && db.version == DbVersion
    ensures db.stores == Upgraded(old(db.stores))
    ensures IsListing(list, db.stores[PendingStore])
  {
    db.Open();
    var rows := db.GetAll(PendingStore);
    ghost var part := db.stores[PendingStore];
    assert PartitionWellKeyed(PendingStore, part);
    assert forall i :: 0 <= i < |rows| ==> rows[i].PendingRow? by {
      forall i | 0 <= i < |rows| ensures rows[i].PendingRow? {
        assert RowFits(PendingStore, part[KeyOf(rows[i])]);
      }
    }
    var a := new PendingRecord[|rows|](i requires 0 <= i < |rows| && rows[i].PendingRow? => rows[i].rec);
    ghost var recs := a[..];
    SortById(a);
    list := a[..];
    SortedRowsAreListing(rows, recs, list, part);
  }

  /** `removePendingOrder(id)`. */
  method RemovePendingOrder(db: Database, id: real)
    requires db.Valid()
    modifies db
    ensures db.Valid() && db.version == DbVersion
    ensures db.stores == DeleteKey(Upgraded(old(db.stores)), PendingStore, NumKey(id))
  {
    db.Open();
    db.Delete(PendingStore, NumKey(id));
  }
}
