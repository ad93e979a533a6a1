/** The audit table: bounded by age and by row count after every insert. */
module AuditTable {

  const AUDIT_RETENTION_SECS: int := 30 * 24 * 60 * 60
  const AUDIT_MAX_ROWS: nat := 5000

  datatype AuditRow = AuditRow(id: nat, ts: int, entry: string)

  function Unexpired(rows: seq<AuditRow>, now: int): (r: seq<AuditRow>)
    ensures |r| <= |rows|
    ensures forall row :: row in r ==> row in rows
  {
    if rows == [] then []
    else (if rows[0].ts < now - AUDIT_RETENTION_SECS then [] else [rows[0]]) + Unexpired(rows[1..], now)
  }

  /** The rows whose id is above `floor`. */
  function AboveId(rows: seq<AuditRow>, floor: nat): seq<AuditRow> {
    if rows == [] then []
    else (if rows[0].id <= floor then [] else [rows[0]]) + AboveId(rows[1..], floor)
  }

  predicate IdsIncrease(rows: seq<AuditRow>) {
    forall i, j :: 0 <= i < j < |rows| ==> rows[i].id < rows[j].id
  }

  /** The newest rows, at most `n` of them. */
  function Newest(rows: seq<AuditRow>, n: nat): seq<AuditRow> {
    if |rows| <= n then rows else rows[|rows| - n..]
  }

  lemma {:induction false} UnexpiredIncrease(rows: seq<AuditRow>, now: int)
    requires IdsIncrease(rows)
    ensures IdsIncrease(Unexpired(rows, now))
  {
    if rows != [] {
      UnexpiredIncrease(rows[1..], now);
      forall row | row in Unexpired(rows[1..], now) ensures rows[0].id < row.id {
        var i :| 0 <= i < |rows[1..]| && rows[1..][i] == row;
        assert rows[i + 1] == row;
      }
    }
  }

  lemma {:induction false} AboveIdIsSuffix(rows: seq<AuditRow>, k: nat)
    requires IdsIncrease(rows) && k < |rows|
    ensures AboveId(rows, rows[k].id) == rows[k + 1..]
  {
    if k == 0 {
      AboveAll(rows[1..], rows[0].id);
    } else {
      AboveIdIsSuffix(rows[1..], k - 1);
    }
  }

  lemma {:induction false} AboveAll(rows: seq<AuditRow>, floor: nat)
    requires forall i :: 0 <= i < |rows| ==> floor < rows[i].id
    ensures AboveId(rows, floor) == rows
  {
    if rows != [] { AboveAll(rows[1..], floor); }
  }

  /** Deleting up to the id just past the cap keeps exactly the newest rows. */
  lemma PruneKeepsNewest(rows: seq<AuditRow>, cap: nat)
    requires IdsIncrease(rows) && forall row :: row in rows ==> 0 < row.id
    ensures AboveId(rows, if |rows| > cap then rows[|rows| - 1 - cap].id else 0) == Newest(rows, cap)
    ensures |Newest(rows, cap)| <= cap && IdsIncrease(Newest(rows, cap))
  {
    hide AboveId;
    NewestIncrease(rows, cap);
    if |rows| > cap {
      AboveIdIsSuffix(rows, |rows| - 1 - cap);
    } else {
      PositiveIds(rows);
      AboveAll(rows, 0);
    }
    hide IdsIncrease;
  }

  lemma NewestIncrease(rows: seq<AuditRow>, n: nat)
    requires IdsIncrease(rows)
    ensures |Newest(rows, n)| <= n && IdsIncrease(Newest(rows, n))
  {
  }

  lemma PositiveIds(rows: seq<AuditRow>)
    requires forall row :: row in rows ==> 0 < row.id
    ensures forall i :: 0 <= i < |rows| ==> 0 < rows[i].id
  {
    assert forall i :: 0 <= i < |rows| ==> rows[i] in rows;
  }

  lemma NewestAreRows(rows: seq<AuditRow>, n: nat)
    ensures forall row :: row in Newest(rows, n) ==> row in rows
  {
  }

  /** The audit table. Ids are handed out in increasing order and never reused. */
  class AuditLog {
    var rows: seq<AuditRow>
    var nextId: nat

    ghost predicate Valid() reads this {
      IdsIncrease(rows) && nextId > 0 &&
      (forall row :: row in rows ==> 0 < row.id < nextId) && |rows| <= AUDIT_MAX_ROWS
    }

    constructor ()
      ensures Valid() && rows == []
    {
      rows, nextId := [], 1;
    }

    /** Insert one row, then prune in the same call: the table never exceeds its cap, and
        what is kept is exactly the newest of the unexpired rows. */
    method Record(entry: string, now: int)
      requires Valid()
      modifies this
      ensures Valid() && nextId == old(nextId) + 1
      ensures rows == Newest(Unexpired(old(rows) + [AuditRow(old(nextId), now, entry)], now), AUDIT_MAX_ROWS)
    {
      rows, nextId := rows + [AuditRow(nextId, now, entry)], nextId + 1;
      Prune(now);
    }

    method Prune(now: int)
      requires IdsIncrease(rows) && nextId > 0 && forall row :: row in rows ==> 0 < row.id < nextId
      modifies this`rows
      ensures Valid()
      ensures rows == Newest(Unexpired(old(rows), now), AUDIT_MAX_ROWS)
    {
      hide Unexpired, AboveId, Newest, AUDIT_MAX_ROWS;
      UnexpiredIncrease(rows, now);
      rows := Unexpired(rows, now);
      var floor := if |rows| > AUDIT_MAX_ROWS then rows[|rows| - 1 - AUDIT_MAX_ROWS].id else 0;
      PruneKeepsNewest(rows, AUDIT_MAX_ROWS);
      NewestAreRows(rows, AUDIT_MAX_ROWS);
      rows := AboveId(rows, floor);
    }
  }

  /** The row just written is always kept, and it is the newest. */
  lemma NewRowIsKept(rows: seq<AuditRow>, row: AuditRow, now: int)
    requires row.ts == now
    ensures var r := Newest(Unexpired(rows + [row], now), AUDIT_MAX_ROWS); r != [] && r[|r| - 1] == row
  {
    UnexpiredAppend(rows, row, now);
  }

  lemma {:induction false} UnexpiredAppend(rows: seq<AuditRow>, row: AuditRow, now: int)
    requires row.ts == now
    ensures Unexpired(rows + [row], now) == Unexpired(rows, now) + [row]
  {
    if rows == [] {
      UnexpiredCons(row, [], now);
      assert rows + [row] == [row] + [];
    } else {
      hide Unexpired;
      UnexpiredAppend(rows[1..], row, now);
      UnexpiredCons(rows[0], rows[1..], now);
      UnexpiredCons(rows[0], rows[1..] + [row], now);
      assert rows + [row] == [rows[0]] + (rows[1..] + [row]) && rows == [rows[0]] + rows[1..];
    }
  }

  lemma UnexpiredCons(first: AuditRow, rest: seq<AuditRow>, now: int)
    ensures Unexpired([first] + rest, now) ==
      (if first.ts < now - AUDIT_RETENTION_SECS then [] else [first]) + Unexpired(rest, now)
  {
    assert ([first] + rest)[1..] == rest;
  }
}
