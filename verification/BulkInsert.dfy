// An insert that may be repeated, on either engine (src/lib/bulkInsert.ts).
module BulkInsert {
  import opened Options

  datatype Row = Row(id: string, data: string)

  type Table = map<string, Row>

  datatype Engine = Sqlite | Postgres

  // What a call throws; `code` is absent where the error carries none.
  datatype Thrown = Thing(code: Option<string>) | NotAThing

  // isUniqueViolation.
  predicate IsUniqueViolation(e: Thrown) { e.Thing? && e.code == Some("P2002") }

  // A duplicate is the database's own code for one; whatever else is thrown is not.
  lemma {:induction false} OnlyThatCode(code: string)
    ensures IsUniqueViolation(Thing(Some(code))) <==> code == "P2002"
    ensures !IsUniqueViolation(Thing(None)) && !IsUniqueViolation(NotAThing)
  {
  }

  const DUPLICATE := Thing(Some("P2002"))

  datatype Outcome = Count(count: nat) | Throws(error: Thrown)

  // What befalls one call to the database: nothing, or an error of its own, before or after the
  // call took effect.
  datatype Fault = Well | Fails(landed: bool, error: Thrown) {
    predicate Own() { Fails? ==> !IsUniqueViolation(error) }
  }

  // ── What the table should hold ───────────────────────────────────────────────────────────────

  function Insert(t: Table, row: Row): Table { if row.id in t then t else t[row.id := row] }

  function InsertAll(t: Table, rows: seq<Row>): Table {
    if rows == [] then t
    else Insert(InsertAll(t, rows[..|rows| - 1]), rows[|rows| - 1])
  }

  predicate Has(rows: seq<Row>, id: string) { exists i :: 0 <= i < |rows| && rows[i].id == id }

  function First(rows: seq<Row>, id: string): Row
    requires Has(rows, id)
  {
    if rows[0].id == id then rows[0] else First(rows[1..], id)
  }

  // Every row that was there is kept as it was; every other id among the rows gets its first row.
  ghost predicate Merged(t: Table, rows: seq<Row>, t': Table) {
    && (forall id :: id in t' <==> id in t || Has(rows, id))
    && (forall id :: id in t ==> t'[id] == t[id])
    && (forall id :: id !in t && Has(rows, id) ==> t'[id] == First(rows, id))
  }

  lemma {:induction false} FirstOfMore(rows: seq<Row>, row: Row, id: string)
    ensures Has(rows + [row], id) <==> Has(rows, id) || row.id == id
    ensures Has(rows, id) ==> First(rows + [row], id) == First(rows, id)
    ensures !Has(rows, id) && row.id == id ==> First(rows + [row], id) == row
    decreases |rows|
  {
    var more := rows + [row];
    assert more[|rows|] == row && forall i :: 0 <= i < |rows| ==> more[i] == rows[i];
    if rows != [] {
      FirstOfMore(rows[1..], row, id);
      assert more[1..] == rows[1..] + [row];
      assert rows[0].id != id && Has(rows, id) ==> Has(rows[1..], id) by {
        if rows[0].id != id && Has(rows, id) {
          var i :| 0 <= i < |rows| && rows[i].id == id;
          assert rows[1..][i - 1] == rows[i];
        }
      }
      assert Has(rows[1..], id) ==> Has(rows, id) by {
        if i :| 0 <= i < |rows| - 1 && rows[1..][i].id == id { assert rows[i + 1].id == id; }
      }
    }
  }

  // Inserting rows one by one, passing over those there, merges them.
  lemma {:induction false} InsertAllMerges(t: Table, rows: seq<Row>)
    ensures Merged(t, rows, InsertAll(t, rows))
    decreases |rows|
  {
    if rows != [] {
      var n := |rows| - 1;
      InsertAllMerges(t, rows[..n]);
      assert rows == rows[..n] + [rows[n]];
      forall id ensures Has(rows, id) <==> Has(rows[..n], id) || rows[n].id == id { FirstOfMore(rows[..n], rows[n], id); }
      forall id | id !in t && Has(rows, id) ensures InsertAll(t, rows)[id] == First(rows, id) {
        FirstOfMore(rows[..n], rows[n], id);
      }
    }
  }

  lemma {:induction false} InsertAllGrows(t: Table, rows: seq<Row>)
    ensures |t| <= |InsertAll(t, rows)|
    decreases |rows|
  {
    if rows != [] { InsertAllGrows(t, rows[..|rows| - 1]); }
  }

  lemma {:induction false} MergedIsUnique(t: Table, rows: seq<Row>, a: Table, b: Table)
    requires Merged(t, rows, a) && Merged(t, rows, b)
    ensures a == b
  {
    assert a.Keys == b.Keys;
    forall id | id in a ensures a[id] == b[id] { assert id in t || Has(rows, id); }
  }

  lemma {:induction false} PrefixHas(rows: seq<Row>, k: nat, id: string)
    requires k <= |rows| && Has(rows[..k], id)
    ensures Has(rows, id) && First(rows, id) == First(rows[..k], id)
    decreases k
  {
    var i :| 0 <= i < k && rows[..k][i].id == id;
    assert rows[i].id == id;
    if rows[0].id != id {
      assert rows[1..][..k - 1] == rows[..k][1..];
      assert rows[..k][1..][i - 1].id == id;
      PrefixHas(rows[1..], k - 1, id);
    }
  }

  // A call that failed with only some of the rows landed is put right by repeating it whole: the
  // table comes out as if nothing had failed. And repeating a call that did not fail adds nothing.
  lemma {:induction false} RetryReaches(t: Table, rows: seq<Row>, k: nat)
    requires k <= |rows|
    ensures InsertAll(InsertAll(t, rows[..k]), rows) == InsertAll(t, rows)
    ensures InsertAll(InsertAll(t, rows), rows[..k]) == InsertAll(t, rows)
  {
    var part, whole := InsertAll(t, rows[..k]), InsertAll(t, rows);
    InsertAllMerges(t, rows[..k]);
    InsertAllMerges(part, rows);
    InsertAllMerges(t, rows);
    InsertAllMerges(whole, rows[..k]);
    forall id | Has(rows[..k], id) ensures Has(rows, id) && First(rows, id) == First(rows[..k], id) {
      PrefixHas(rows, k, id);
    }
    MergedIsUnique(t, rows, InsertAll(part, rows), whole);
    assert InsertAll(whole, rows[..k]).Keys == whole.Keys;
  }

  // Any number of calls that failed, each with some of the rows landed.
  function Landed(t: Table, rows: seq<Row>, failed: seq<nat>): Table
    requires forall i :: 0 <= i < |failed| ==> failed[i] <= |rows|
  {
    if failed == [] then t
    else InsertAll(Landed(t, rows, failed[..|failed| - 1]), rows[..failed[|failed| - 1]])
  }

  // Two calls that failed with some rows landed are one with the more of them landed.
  lemma {:induction false} MoreLanded(t: Table, rows: seq<Row>, a: nat, b: nat) returns (most: nat)
    requires a <= |rows| && b <= |rows|
    ensures most <= |rows| && InsertAll(InsertAll(t, rows[..a]), rows[..b]) == InsertAll(t, rows[..most])
  {
    if b <= a {
      RetryReaches(t, rows[..a], b);
      assert rows[..a][..b] == rows[..b];
      most := a;
    } else {
      RetryReaches(t, rows[..b], a);
      assert rows[..b][..a] == rows[..a];
      most := b;
    }
  }

  lemma {:induction false} MostLanded(t: Table, rows: seq<Row>, failed: seq<nat>) returns (most: nat)
    requires forall i :: 0 <= i < |failed| ==> failed[i] <= |rows|
    ensures most <= |rows| && Landed(t, rows, failed) == InsertAll(t, rows[..most])
    decreases |failed|
  {
    most := 0;
    if failed != [] {
      var n := |failed| - 1;
      var k := failed[n];
      most := MostLanded(t, rows, failed[..n]);
      most := MoreLanded(t, rows, most, k);
    }
  }

  // However often the call fails first, the one that does not leaves the table a first call would.
  lemma {:induction false} RetriesReach(t: Table, rows: seq<Row>, failed: seq<nat>)
    requires forall i :: 0 <= i < |failed| ==> failed[i] <= |rows|
    ensures InsertAll(Landed(t, rows, failed), rows) == InsertAll(t, rows)
  {
    var most := MostLanded(t, rows, failed);
    RetryReaches(t, rows, most);
  }

  // ── The database ─────────────────────────────────────────────────────────────────────────────

  // A batch that collides: with a row there, or within itself.
  ghost predicate Collides(t: Table, rows: seq<Row>) {
    || (exists i :: 0 <= i < |rows| && rows[i].id in t)
    || (exists i, j :: 0 <= i < j < |rows| && rows[i].id == rows[j].id)
  }

  // The two methods of a delegate. A batch is atomic; an id is unique.
  class Delegate {
    var rows: Table

    constructor (rows: Table)
      ensures this.rows == rows
    {
      this.rows := rows;
    }

    method Create(row: Row, fault: Fault) returns (r: Outcome)
      requires fault.Own()
      modifies this
      ensures r.Count? ==> row.id !in old(rows) && rows == old(rows)[row.id := row]
      ensures r.Throws? && IsUniqueViolation(r.error) ==> row.id in old(rows) && rows == old(rows)
      ensures r.Throws? && !IsUniqueViolation(r.error) ==> fault.Fails? && r.error == fault.error && (rows == old(rows) || rows == Insert(old(rows), row))
    {
      if fault.Fails? && !fault.landed { return Throws(fault.error); }
      if row.id in rows { return Throws(DUPLICATE); }
      rows := rows[row.id := row];
      r := if fault.Fails? then Throws(fault.error) else Count(1);
    }

    method CreateMany(data: seq<Row>, skipDuplicates: bool, fault: Fault) returns (r: Outcome)
      requires fault.Own()
      modifies this
      ensures r.Count? ==> rows == InsertAll(old(rows), data) && r.count == |rows| - |old(rows)|
      ensures r.Throws? && IsUniqueViolation(r.error) ==> !skipDuplicates && Collides(old(rows), data) && rows == old(rows)
      ensures r.Throws? && !IsUniqueViolation(r.error) ==>
        fault.Fails? && r.error == fault.error && (rows == old(rows) || rows == InsertAll(old(rows), data))
    {
      if fault.Fails? && !fault.landed { return Throws(fault.error); }
      var t := rows;
      InsertAllGrows(rows, data);
      var i := 0;
      while i < |data|
        invariant 0 <= i <= |data| && rows == old(rows)
        invariant t == InsertAll(rows, data[..i])
      {
        if !skipDuplicates && data[i].id in t {
          InsertAllMerges(rows, data[..i]);
          return Throws(DUPLICATE);
        }
        t := Insert(t, data[i]);
        assert data[..i + 1][..i] == data[..i];
        i := i + 1;
      }
      assert data[..|data|] == data;
      r := if fault.Fails? then Throws(fault.error) else Count(|t| - |rows|);
      rows := t;
    }
  }

  // The fault, if any, of the call at `i`.
  function FaultAt(faults: seq<Fault>, i: nat): (f: Fault)
    ensures f.Well? || f in faults
  {
    if i < |faults| then faults[i] else Well
  }

  // createManyIgnoringDuplicates. `faults` says what befalls each call it makes, in order.
  method CreateManyIgnoringDuplicates(d: Delegate, rows: seq<Row>, engine: Engine, faults: seq<Fault>) returns (r: Outcome)
    requires forall f :: f in faults ==> f.Own()
    modifies d
    ensures r.Count? ==> d.rows == InsertAll(old(d.rows), rows) && r.count == |d.rows| - |old(d.rows)|
    ensures r.Throws? ==> !IsUniqueViolation(r.error) && exists k :: 0 <= k <= |rows| && d.rows == InsertAll(old(d.rows), rows[..k])
    ensures r.Throws? ==> exists f :: f in faults && f.Fails? && f.error == r.error
  {
    assert rows[..0] == [] && rows[..|rows|] == rows;
    if |rows| == 0 { return Count(0); }
    r := d.CreateMany(rows, engine != Sqlite, FaultAt(faults, 0));
    if r.Count? || !IsUniqueViolation(r.error) { return; }

    var written: nat := 0;
    for i := 0 to |rows|
      invariant d.rows == InsertAll(old(d.rows), rows[..i])
      invariant written == |d.rows| - |old(d.rows)|
    {
      assert rows[..i + 1][..i] == rows[..i];
      var one := d.Create(rows[i], FaultAt(faults, i + 1));
      if one.Count? {
        written := written + 1;
      } else if !IsUniqueViolation(one.error) {
        assert FaultAt(faults, i + 1).Fails? && FaultAt(faults, i + 1) in faults;
        assert d.rows == InsertAll(old(d.rows), rows[..i]) || d.rows == InsertAll(old(d.rows), rows[..i + 1]);
        return one;
      }
    }
    r := Count(written);
  }

  // What the buffered writers do with a batch: give it back after a failure, and insert it whole again.
  // However many attempts fail, wherever and with whatever landed, the batch ends up as if none had.
  method InsertUntilWell(d: Delegate, rows: seq<Row>, engine: Engine, attempts: seq<seq<Fault>>) returns (r: Outcome)
    requires forall a, f :: a in attempts && f in a ==> f.Own()
    modifies d
    ensures r.Count? && d.rows == InsertAll(old(d.rows), rows)
  {
    ghost var landed := 0;
    assert rows[..0] == [];
    for i := 0 to |attempts|
      invariant 0 <= landed <= |rows| && d.rows == InsertAll(old(d.rows), rows[..landed])
    {
      ghost var before := d.rows;
      r := CreateManyIgnoringDuplicates(d, rows, engine, attempts[i]);
      if r.Count? {
        RetryReaches(old(d.rows), rows, landed);
        return;
      }
      ghost var k :| 0 <= k <= |rows| && d.rows == InsertAll(before, rows[..k]);
      landed := MoreLanded(old(d.rows), rows, landed, k);
    }
    r := CreateManyIgnoringDuplicates(d, rows, engine, []);
    RetryReaches(old(d.rows), rows, landed);
  }
}
