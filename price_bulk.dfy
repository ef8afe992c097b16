/**
 * The price table and its bulk write: every incoming record is one
 * `INSERT ... ON CONFLICT (recorded_at, country) DO UPDATE SET price = EXCLUDED.price`, applied in list order,
 * in one transaction that a null instant or price rolls back.
 */
module PriceBulk {
  import opened Wrappers
  import opened Records
  import opened UtcTime

  /** The table's unique constraint on `(recorded_at, country)`. */
  predicate UniqueKeys(rows: seq<PriceRecord>)
  {
    forall i, j :: 0 <= i < j < |rows| ==> rows[i].Key() != rows[j].Key()
  }

  /** The position of the row holding key `k`, if any. */
  function IndexOfKey(rows: seq<PriceRecord>, k: PriceKey): (r: Option<nat>)
    ensures r.Some? ==> r.value < |rows| && rows[r.value].Key() == k
    ensures r.Some? ==> forall j :: 0 <= j < r.value ==> rows[j].Key() != k
    ensures r.None? ==> forall j :: 0 <= j < |rows| ==> rows[j].Key() != k
  {
    if rows == [] then None
    else if rows[0].Key() == k then Some(0)
    else match IndexOfKey(rows[1..], k)
      case None => None
      case Some(i) => Some(i + 1)
  }

  /** The price the table stores under key `k`, if it has such a row. */
  function PriceOf(rows: seq<PriceRecord>, k: PriceKey): Option<real>
  {
    match IndexOfKey(rows, k)
    case Some(i) => Some(rows[i].price)
    case None => None
  }

  /** One insert-or-update statement. */
  function Upsert(rows: seq<PriceRecord>, p: PriceRecord): seq<PriceRecord>
  {
    match IndexOfKey(rows, p.Key())
    case Some(i) => rows[i := rows[i].(price := p.price)]
    case None => rows + [p]
  }

  /** The batch: the statements for `ps`, in list order. */
  function UpsertSeq(rows: seq<PriceRecord>, ps: seq<PriceRecord>): seq<PriceRecord>
    decreases |ps|
  {
    if ps == [] then rows else Upsert(UpsertSeq(rows, ps[..|ps| - 1]), ps[|ps| - 1])
  }

  /** The price of the last record of `ps` with key `k`, if any. */
  function LastPrice(ps: seq<PriceRecord>, k: PriceKey): Option<real>
    decreases |ps|
  {
    if ps == [] then None
    else if ps[|ps| - 1].Key() == k then Some(ps[|ps| - 1].price)
    else LastPrice(ps[..|ps| - 1], k)
  }

  lemma IndexOfUniqueKey(rows: seq<PriceRecord>, i: nat)
    requires UniqueKeys(rows) && i < |rows|
    ensures IndexOfKey(rows, rows[i].Key()) == Some(i)
  {
  }

  /**
   * One statement keeps the key unique, leaves every existing row's key where it was, stores the
   * incoming price under its key and changes no other key's price.
   */
  lemma UpsertEffect(rows: seq<PriceRecord>, p: PriceRecord)
    requires UniqueKeys(rows)
    ensures var r := Upsert(rows, p);
      && UniqueKeys(r)
      && |rows| <= |r|
      && (forall i :: 0 <= i < |rows| ==> r[i].Key() == rows[i].Key())
      && PriceOf(r, p.Key()) == Some(p.price)
      && (forall k :: k != p.Key() ==> PriceOf(r, k) == PriceOf(rows, k))
  {
    var r := Upsert(rows, p);
    match IndexOfKey(rows, p.Key())
    case Some(i) =>
      assert forall j :: 0 <= j < |rows| ==> r[j].Key() == rows[j].Key();
      IndexOfUniqueKey(r, i);
    case None =>
      IndexOfUniqueKey(r, |rows|);
      forall k | k != p.Key() ensures PriceOf(r, k) == PriceOf(rows, k) {
        match IndexOfKey(rows, k)
        case Some(j) => IndexOfUniqueKey(r, j);
        case None =>
      }
  }

  /**
   * After the batch, the table still has one row per key, existing rows keep their keys in place,
   * each key of the batch holds the price of its LAST record in the batch, and every other key keeps its price.
   */
  lemma {:induction false} UpsertAllEffect(rows: seq<PriceRecord>, ps: seq<PriceRecord>)
    requires UniqueKeys(rows)
    ensures var r := UpsertSeq(rows, ps);
      && UniqueKeys(r)
      && |rows| <= |r|
      && (forall i :: 0 <= i < |rows| ==> r[i].Key() == rows[i].Key())
      && (forall k :: PriceOf(r, k) == if LastPrice(ps, k).Some? then LastPrice(ps, k) else PriceOf(rows, k))
    decreases |ps|
  {
    if ps != [] {
      var init := ps[..|ps| - 1];
      UpsertAllEffect(rows, init);
      UpsertEffect(UpsertSeq(rows, init), ps[|ps| - 1]);
    }
  }

  lemma {:induction false} LastPriceOfMember(ps: seq<PriceRecord>, q: PriceRecord)
    requires q in ps
    ensures LastPrice(ps, q.Key()).Some?
    decreases |ps|
  {
    var init := ps[..|ps| - 1];
    if ps[|ps| - 1] != q {
      assert ps == init + [ps[|ps| - 1]];
      LastPriceOfMember(init, q);
    }
  }

  /** Every row, with its price replaced by the last price `ps` gives for its key (if any). */
  function Overwrite(rows: seq<PriceRecord>, ps: seq<PriceRecord>): (r: seq<PriceRecord>)
    ensures |r| == |rows|
  {
    seq(|rows|, i requires 0 <= i < |rows| =>
      match LastPrice(ps, rows[i].Key())
      case Some(p) => rows[i].(price := p)
      case None => rows[i])
  }

  /** Overwriting prices keeps every row's key, so it keeps the keys unique. */
  lemma OverwriteKeepsKeys(rows: seq<PriceRecord>, ps: seq<PriceRecord>)
    requires UniqueKeys(rows)
    ensures forall j :: 0 <= j < |rows| ==> Overwrite(rows, ps)[j].Key() == rows[j].Key()
    ensures UniqueKeys(Overwrite(rows, ps))
  {
  }

  /** A further record for the key of row `i` changes only row `i`'s price. */
  lemma OverwriteSnoc(rows: seq<PriceRecord>, init: seq<PriceRecord>, x: PriceRecord, i: nat)
    requires UniqueKeys(rows) && i < |rows| && rows[i].Key() == x.Key()
    ensures var mid := Overwrite(rows, init);
      Overwrite(rows, init + [x]) == mid[i := mid[i].(price := x.price)]
  {
    var ps := init + [x];
    assert ps[..|ps| - 1] == init;
    var mid := Overwrite(rows, init);
    forall j | 0 <= j < |rows| ensures Overwrite(rows, ps)[j] == mid[i := mid[i].(price := x.price)][j] {
      if j != i {
        assert rows[j].Key() != x.Key();
      }
    }
  }

  /** When every key of the batch already has a row, the batch only overwrites prices in place. */
  lemma {:induction false} UpsertExistingKeys(rows: seq<PriceRecord>, ps: seq<PriceRecord>)
    requires UniqueKeys(rows)
    requires forall q :: q in ps ==> IndexOfKey(rows, q.Key()).Some?
    ensures UpsertSeq(rows, ps) == Overwrite(rows, ps)
    decreases |ps|
  {
    if ps == [] {
      assert Overwrite(rows, ps) == rows;
    } else {
      var init, x := ps[..|ps| - 1], ps[|ps| - 1];
      assert forall q :: q in init ==> q in ps;
      assert ps == init + [x];
      UpsertExistingKeys(rows, init);
      OverwriteKeepsKeys(rows, init);
      var i := IndexOfKey(rows, x.Key()).value;
      IndexOfUniqueKey(Overwrite(rows, init), i);
      OverwriteSnoc(rows, init, x, i);
    }
  }

  /** Applying the same batch twice leaves the table as applying it once. */
  lemma UpsertAllIdempotent(rows: seq<PriceRecord>, ps: seq<PriceRecord>)
    requires UniqueKeys(rows)
    ensures UpsertSeq(UpsertSeq(rows, ps), ps) == UpsertSeq(rows, ps)
  {
    var r := UpsertSeq(rows, ps);
    UpsertAllEffect(rows, ps);
    forall q | q in ps ensures IndexOfKey(r, q.Key()).Some? {
      LastPriceOfMember(ps, q);
    }
    UpsertExistingKeys(r, ps);
    forall i | 0 <= i < |r| ensures Overwrite(r, ps)[i] == r[i] {
      IndexOfUniqueKey(r, i);
    }
  }

  /**
   * One element of a batch as the statement binds it: the instant and the
   * price are object references that may be null (a blank price cell reads
   * as null); the country is the constant of the subclass.
   */
  datatype PriceEntry = PriceEntry(recordedAt: Option<Instant>, country: string, price: Option<real>)

  /** Both parameters that are dereferenced while binding are present. */
  predicate Bindable(e: PriceEntry)
  {
    e.recordedAt.Some? && e.price.Some?
  }

  function RecordOf(e: PriceEntry): PriceRecord
    requires Bindable(e)
  {
    PriceRecord(e.recordedAt.value, e.country, e.price.value)
  }

  /** The entry of a record whose every field is present. */
  function EntryOf(p: PriceRecord): PriceEntry
  {
    PriceEntry(Some(p.recordedAt), p.country, Some(p.price))
  }

  /** The records of the batch, or `None` when binding one of its entries throws. */
  function BoundRecords(es: seq<PriceEntry>): Option<seq<PriceRecord>>
    decreases |es|
  {
    if es == [] then Some([])
    else match BoundRecords(es[..|es| - 1])
      case None => None
      case Some(rs) =>
        if Bindable(es[|es| - 1]) then Some(rs + [RecordOf(es[|es| - 1])]) else None
  }

  /** A batch binds exactly when every entry does, and then to its entries' records in order. */
  lemma {:induction false} BoundRecordsExact(es: seq<PriceEntry>)
    ensures BoundRecords(es).Some? <==> forall i :: 0 <= i < |es| ==> Bindable(es[i])
    ensures BoundRecords(es).Some? ==>
      |BoundRecords(es).value| == |es| &&
      forall i :: 0 <= i < |es| ==> EntryOf(BoundRecords(es).value[i]) == es[i]
    decreases |es|
  {
    if es != [] {
      var init := es[..|es| - 1];
      BoundRecordsExact(init);
      assert forall i :: 0 <= i < |init| ==> init[i] == es[i];
    }
  }

  /** Lifting records to entries and binding them gives the records back. */
  lemma BoundRecordsOfEntries(ps: seq<PriceRecord>)
    ensures BoundRecords(seq(|ps|, i requires 0 <= i < |ps| => EntryOf(ps[i]))) == Some(ps)
  {
    var es := seq(|ps|, i requires 0 <= i < |ps| => EntryOf(ps[i]));
    BoundRecordsExact(es);
    var rs := BoundRecords(es).value;
    assert forall i :: 0 <= i < |ps| ==> EntryOf(rs[i]) == EntryOf(ps[i]);
    assert rs == ps;
  }

  class PriceTable {
    var rows: seq<PriceRecord>

    ghost predicate Valid()
      reads this
    {
      UniqueKeys(rows)
    }

    constructor ()
      ensures Valid() && rows == []
    {
      rows := [];
    }

    /**
     * `upsertAll`: the statements for the batch, one after the other, in one
     * transaction; an entry whose instant or price is null throws while it is
     * bound, and the rollback leaves the table as it was.
     */
    method UpsertAll(entries: seq<PriceEntry>) returns (ok: bool)
      requires Valid()
      modifies this
      ensures Valid()
      ensures ok <==> BoundRecords(entries).Some?
      ensures rows == if ok then UpsertSeq(old(rows), BoundRecords(entries).value) else old(rows)
    {
      var before := rows;
      var i := 0;
      while i < |entries|
        invariant 0 <= i <= |entries|
        invariant Valid()
        invariant BoundRecords(entries[..i]).Some?
        invariant rows == UpsertSeq(before, BoundRecords(entries[..i]).value)
      {
        var e := entries[i];
        assert entries[..i + 1][..i] == entries[..i];
        if e.recordedAt.None? || e.price.None? {
          BoundRecordsExact(entries);
          rows := before;
          return false;
        }
        InsertOnConflictUpdate(RecordOf(e));
        i := i + 1;
      }
      assert entries[..|entries|] == entries;
      ok := true;
    }

    /** One statement: update the price of the row with the same key, or insert a new row. */
    method InsertOnConflictUpdate(p: PriceRecord)
      requires Valid()
      modifies this
      ensures Valid()
      ensures rows == Upsert(old(rows), p)
    {
      UpsertEffect(rows, p);
      var j := 0;
      while j < |rows| && rows[j].Key() != p.Key()
        invariant 0 <= j <= |rows|
        invariant forall l :: 0 <= l < j ==> rows[l].Key() != p.Key()
      {
        j := j + 1;
      }
      if j < |rows| {
        rows := rows[j := rows[j].(price := p.price)];
      } else {
        rows := rows + [p];
      }
    }
  }
}
