/** The record store and delta detector `save_notices_and_collect_new`
    (src/main.py:51-75): the `notices` table, keyed by its primary key `no`
    (src/main.py:39-46), as a map from notice number to row. */
module RecordStore {
  import opened Notices

  /** Every row is stored under its own notice number. */
  predicate Keyed(rows: map<string, Notice>)
  {
    forall k :: k in rows ==> rows[k].no == k
  }

  /** The table after a batch and the records the batch added, in order. */
  datatype Reconciled = Reconciled(rows: map<string, Notice>, newItems: seq<Notice>)

  /** One insert per record in batch order; an insert whose number is already
      a key (from an earlier run or earlier in the batch) changes nothing. */
  function Reconcile(rows: map<string, Notice>, batch: seq<Notice>): Reconciled
  {
    if batch == [] then Reconciled(rows, [])
    else
      var r := Reconcile(rows, batch[..|batch| - 1]);
      var x := batch[|batch| - 1];
      if x.no in r.rows then r else Reconciled(r.rows[x.no := x], r.newItems + [x])
  }

  class NoticeStore {
    var rows: map<string, Notice>

    ghost predicate Valid()
      reads this
    {
      Keyed(rows)
    }

    /** The table as a run finds it, created empty on the first run. */
    constructor Open(existing: map<string, Notice>)
      requires Keyed(existing)
      ensures Valid() && rows == existing
    {
      rows := existing;
    }

    /** `INSERT INTO notices ...`: adds the row unless its number is already a
        key, which the table reports as an integrity error (src/main.py:62-70). */
    method Insert(n: Notice) returns (inserted: bool)
      requires Valid()
      modifies this
      ensures Valid()
      ensures inserted == (n.no !in old(rows))
      ensures rows == if inserted then old(rows)[n.no := n] else old(rows)
    {
      inserted := n.no !in rows;
      if inserted {
        rows := rows[n.no := n];
      }
    }

    /** `save_notices_and_collect_new` (src/main.py:51-75). */
    method SaveNoticesAndCollectNew(notices: seq<Notice>) returns (newItems: seq<Notice>)
      requires Valid()
      modifies this
      ensures Valid()
      ensures Reconciled(rows, newItems) == Reconcile(old(rows), notices)
    {
      newItems := [];
      var i := 0;
      while i < |notices|
        invariant 0 <= i <= |notices|
        invariant Valid()
        invariant Reconciled(rows, newItems) == Reconcile(old(rows), notices[..i])
      {
        assert notices[..i + 1][..i] == notices[..i];
        var inserted := Insert(notices[i]);
        if inserted {
          newItems := newItems + [notices[i]];
        }
        i := i + 1;
      }
      assert notices[..i] == notices;
    }
  }

  /** One step of the batch: the last record is inserted unless its number
      is already a key after the records before it. */
  lemma ReconcileStep(rows: map<string, Notice>, batch: seq<Notice>)
    requires batch != []
    ensures var r := Reconcile(rows, batch[..|batch| - 1]); var x := batch[|batch| - 1];
      Reconcile(rows, batch) == if x.no in r.rows then r else Reconciled(r.rows[x.no := x], r.newItems + [x])
  {
  }

  /** Reconciling adds exactly the batch's numbers as keys; no key is removed. */
  lemma {:induction false} ReconcileKeys(rows: map<string, Notice>, batch: seq<Notice>)
    ensures Reconcile(rows, batch).rows.Keys == rows.Keys + Ids(batch)
  {
    if batch != [] {
      var p := batch[..|batch| - 1];
      var x := batch[|batch| - 1];
      assert batch == p + [x];
      ReconcileKeys(rows, p);
      IdsSnoc(p, x);
      ReconcileStep(rows, batch);
    }
  }

  /** What reconciling does to the table: no key is removed, no existing row
      is overwritten, every number of the batch becomes a key, and a new key
      holds the batch's first record with that number. */
  lemma {:induction false} ReconcileRows(rows: map<string, Notice>, batch: seq<Notice>)
    ensures Reconcile(rows, batch).rows.Keys == rows.Keys + Ids(batch)
    ensures forall k :: k in rows ==> Reconcile(rows, batch).rows[k] == rows[k]
    ensures forall k :: k in Ids(batch) && k !in rows ==> Reconcile(rows, batch).rows[k] == batch[FirstIndex(batch, k)]
    ensures Keyed(rows) ==> Keyed(Reconcile(rows, batch).rows)
  {
    ReconcileKeys(rows, batch);
    if batch != [] {
      var p := batch[..|batch| - 1];
      var x := batch[|batch| - 1];
      assert batch == p + [x];
      ReconcileRows(rows, p);
      ReconcileStep(rows, batch);
      var r := Reconcile(rows, p);
      var res := Reconcile(rows, batch);
      IdsSnoc(p, x);
      forall k | k in Ids(batch) && k !in rows
        ensures res.rows[k] == batch[FirstIndex(batch, k)]
      {
        if k in Ids(p) {
          FirstIndexSnoc(p, x, k);
          assert batch[FirstIndex(batch, k)] == p[FirstIndex(p, k)];
          if k == x.no {
            assert k in r.rows;
          }
          assert res.rows[k] == r.rows[k];
        } else {
          assert k == x.no;
          assert x.no !in r.rows;
          FirstIndexLast(p, x);
        }
      }
      forall k | k in rows ensures res.rows[k] == rows[k] {
        assert k in r.rows;
      }
    }
  }

  /** The numbers of the new records are the batch's numbers that were not
      yet keys, which are exactly the keys the call added. */
  lemma {:induction false} ReconcileNewIds(rows: map<string, Notice>, batch: seq<Notice>)
    ensures Ids(Reconcile(rows, batch).newItems) == Ids(batch) - rows.Keys
    ensures Ids(Reconcile(rows, batch).newItems) == Reconcile(rows, batch).rows.Keys - rows.Keys
  {
    ReconcileKeys(rows, batch);
    if batch != [] {
      var p := batch[..|batch| - 1];
      var x := batch[|batch| - 1];
      assert batch == p + [x];
      ReconcileNewIds(rows, p);
      ReconcileKeys(rows, p);
      ReconcileStep(rows, batch);
      var r := Reconcile(rows, p);
      IdsSnoc(p, x);
      if x.no !in r.rows {
        IdsSnoc(r.newItems, x);
        assert Reconcile(rows, batch).newItems == r.newItems + [x];
      } else {
        assert Reconcile(rows, batch) == r;
      }
    }
  }

  /** Which records come back as new: exactly the first record of each number
      that was not yet a key, with pairwise distinct numbers, in batch order. */
  lemma {:induction false} ReconcileNewItems(rows: map<string, Notice>, batch: seq<Notice>)
    ensures DistinctIds(Reconcile(rows, batch).newItems)
    ensures forall k :: 0 <= k < |Reconcile(rows, batch).newItems| ==>
      var n := Reconcile(rows, batch).newItems[k];
      n.no !in rows && n.no in Ids(batch) && n == batch[FirstIndex(batch, n.no)]
    ensures forall k1, k2 :: 0 <= k1 < k2 < |Reconcile(rows, batch).newItems| ==>
      var n1, n2 := Reconcile(rows, batch).newItems[k1], Reconcile(rows, batch).newItems[k2];
      n1.no in Ids(batch) && n2.no in Ids(batch) && FirstIndex(batch, n1.no) < FirstIndex(batch, n2.no)
  {
    if batch != [] {
      var p := batch[..|batch| - 1];
      var x := batch[|batch| - 1];
      assert batch == p + [x];
      ReconcileNewItems(rows, p);
      ReconcileNewIds(rows, p);
      ReconcileKeys(rows, p);
      ReconcileStep(rows, batch);
      var r := Reconcile(rows, p);
      var d := r.newItems;
      IdsSnoc(p, x);
      forall k | k in Ids(p) ensures k in Ids(batch) && FirstIndex(batch, k) == FirstIndex(p, k) {
        FirstIndexSnoc(p, x, k);
      }
      forall k | 0 <= k < |d| ensures d[k].no in Ids(p) && batch[FirstIndex(batch, d[k].no)] == d[k] {
        assert d[k] == p[FirstIndex(p, d[k].no)];
      }
      if x.no !in r.rows {
        var res := d + [x];
        assert Reconcile(rows, batch).newItems == res;
        assert x.no !in Ids(d);
        FirstIndexLast(p, x);
        assert forall k :: 0 <= k < |d| ==> res[k] == d[k];
        assert res[|d|] == x;
      } else {
        assert Reconcile(rows, batch) == r;
      }
    }
  }

  /** A batch whose numbers are all keys already changes nothing. */
  lemma {:induction false} ReconcileKnown(rows: map<string, Notice>, batch: seq<Notice>)
    requires Ids(batch) <= rows.Keys
    ensures Reconcile(rows, batch) == Reconciled(rows, [])
  {
    if batch != [] {
      var p := batch[..|batch| - 1];
      var x := batch[|batch| - 1];
      assert batch == p + [x];
      IdsSnoc(p, x);
      ReconcileKnown(rows, p);
      ReconcileStep(rows, batch);
    }
  }

  /** Running the same batch a second time finds nothing new and leaves the
      table as the first run left it. */
  lemma ReconcileIdempotent(rows: map<string, Notice>, batch: seq<Notice>)
    ensures var first := Reconcile(rows, batch);
      Reconcile(first.rows, batch) == Reconciled(first.rows, [])
  {
    ReconcileKeys(rows, batch);
    ReconcileKnown(Reconcile(rows, batch).rows, batch);
  }

  /** Into an empty table, a batch of distinct numbers comes back whole ... */
  lemma {:induction false} ReconcileIntoEmpty(batch: seq<Notice>)
    requires DistinctIds(batch)
    ensures Reconcile(map[], batch).newItems == batch
  {
    if batch != [] {
      var p := batch[..|batch| - 1];
      var x := batch[|batch| - 1];
      assert DistinctIds(p) by {
        forall i, j | 0 <= i < j < |p| ensures p[i].no != p[j].no {
          assert p[i] == batch[i] && p[j] == batch[j];
        }
      }
      ReconcileIntoEmpty(p);
      ReconcileKeys(map[], p);
      ReconcileStep(map[], batch);
      assert x.no !in Ids(p) by {
        forall i | 0 <= i < |p| ensures p[i].no != x.no {
          assert p[i] == batch[i];
        }
      }
      assert batch == p + [x];
    }
  }

  /** ... and the table then holds exactly the batch's records, each under
      its own number. */
  lemma ReconcileIntoEmptyRows(batch: seq<Notice>)
    requires DistinctIds(batch)
    ensures Reconcile(map[], batch).rows.Keys == Ids(batch)
    ensures forall i :: 0 <= i < |batch| ==>
      batch[i].no in Reconcile(map[], batch).rows && Reconcile(map[], batch).rows[batch[i].no] == batch[i]
  {
    ReconcileRows(map[], batch);
    forall i | 0 <= i < |batch| ensures batch[i].no in Ids(batch) && FirstIndex(batch, batch[i].no) == i {
      FirstIndexUnique(batch, batch[i].no, i);
    }
  }
}
