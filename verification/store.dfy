/**
 The two SQLite tables as maps from id to row. Ids come from AUTOINCREMENT,
 so a new row gets one more than the largest id ever used; listings are
 `ORDER BY id DESC` with an optional `LIMIT`.
 */
module Store {
  import opened Model

  /** Every row id lies between 1 and the last id handed out. */
  ghost predicate Valid<T>(t: Table<T>) {
    t.lastId >= 0 && forall id :: id in t.rows ==> 1 <= id <= t.lastId
  }

  /** An integer SQLite can bind as an INTEGER parameter: a signed 64-bit
      value. Binding any other Python int raises OverflowError. */
  predicate FitsInt64(n: int) {
    -0x8000_0000_0000_0000 <= n < 0x8000_0000_0000_0000
  }

  function EmptyTable<T>(): (t: Table<T>)
    ensures Valid(t) && t.rows == map[]
  {
    Table(map[], 0)
  }

  datatype Inserted<T> = Inserted(table: Table<T>, id: int)

  /** `after` is `before` with exactly one more row, `row`, stored under a
      fresh id that becomes the last id handed out. */
  ghost predicate AddsRow<T>(before: Table<T>, after: Table<T>, row: T) {
    && after.lastId !in before.rows
    && after.rows.Keys == before.rows.Keys + {after.lastId}
    && after.rows[after.lastId] == row
    && (forall id :: id in before.rows ==> after.rows[id] == before.rows[id])
  }

  /** `INSERT` followed by `cur.lastrowid`. */
  function Insert<T>(t: Table<T>, row: T): (r: Inserted<T>)
    ensures Valid(t) ==> Valid(r.table) && r.id !in t.rows
    ensures Valid(t) ==> forall id :: id in t.rows ==> id < r.id
    ensures r.table.rows.Keys == t.rows.Keys + {r.id}
    ensures r.id in r.table.rows && r.table.rows[r.id] == row
    ensures forall id :: id in t.rows && id != r.id ==> r.table.rows[id] == t.rows[id]
    ensures r.table.lastId == r.id
    ensures Valid(t) ==> AddsRow(t, r.table, row)
  {
    var id := t.lastId + 1;
    Inserted(Table(t.rows[id := row], id), id)
  }

  /** `UPDATE ... WHERE id=?` on an existing row. */
  function Update<T>(t: Table<T>, id: int, row: T): (r: Table<T>)
    requires id in t.rows
    ensures Valid(t) ==> Valid(r)
    ensures r.rows.Keys == t.rows.Keys && r.rows[id] == row
    ensures forall k :: k in t.rows && k != id ==> r.rows[k] == t.rows[k]
  {
    Table(t.rows[id := row], t.lastId)
  }

  /** The ids at most `from` of rows satisfying `keep`, newest first, at
      most `limit` of them. */
  function Scan<T>(t: Table<T>, keep: T -> bool, from: int, limit: nat): (ids: seq<int>)
    ensures |ids| <= limit
    ensures forall i :: 0 <= i < |ids| ==> 1 <= ids[i] <= from && ids[i] in t.rows && keep(t.rows[ids[i]])
    decreases if from > 0 then from else 0
  {
    if from <= 0 || limit == 0 then []
    else if from in t.rows && keep(t.rows[from]) then [from] + Scan(t, keep, from - 1, limit - 1)
    else Scan(t, keep, from - 1, limit)
  }

  ghost predicate StrictlyDecreasing(ids: seq<int>) {
    forall i, j :: 0 <= i < j < |ids| ==> ids[i] > ids[j]
  }

  /** `id` is listed, or the listing is full and `id` is older than all of it. */
  ghost predicate ListedOrCutOff(ids: seq<int>, limit: nat, id: int) {
    id in ids || (|ids| == limit && (ids == [] || id < ids[|ids| - 1]))
  }

  lemma {:induction false} ScanOrdered<T>(t: Table<T>, keep: T -> bool, from: int, limit: nat)
    ensures StrictlyDecreasing(Scan(t, keep, from, limit))
    decreases if from > 0 then from else 0
  {
    if from > 0 && limit > 0 {
      if from in t.rows && keep(t.rows[from]) {
        ScanOrdered(t, keep, from - 1, limit - 1);
      } else {
        ScanOrdered(t, keep, from - 1, limit);
      }
    }
  }

  lemma {:induction false} ScanComplete<T>(t: Table<T>, keep: T -> bool, from: int, limit: nat, id: int)
    requires 1 <= id <= from && id in t.rows && keep(t.rows[id])
    ensures ListedOrCutOff(Scan(t, keep, from, limit), limit, id)
    decreases if from > 0 then from else 0
  {
    var ids := Scan(t, keep, from, limit);
    if limit > 0 && id < from {
      if from in t.rows && keep(t.rows[from]) {
        ScanComplete(t, keep, from - 1, limit - 1, id);
        var rest := Scan(t, keep, from - 1, limit - 1);
        assert ids == [from] + rest;
        if rest != [] {
          assert ids[|ids| - 1] == rest[|rest| - 1];
        }
      } else {
        ScanComplete(t, keep, from - 1, limit, id);
      }
    }
  }

  /** `SELECT id ... WHERE keep ORDER BY id DESC LIMIT limit`: the `limit`
      newest matching rows, or all of them when there are fewer. */
  function NewestFirst<T>(t: Table<T>, keep: T -> bool, limit: nat): (ids: seq<int>)
    ensures |ids| <= limit
    ensures forall i :: 0 <= i < |ids| ==> ids[i] in t.rows && keep(t.rows[ids[i]])
    ensures StrictlyDecreasing(ids)
    ensures Valid(t) ==> forall id :: id in t.rows && keep(t.rows[id]) ==> ListedOrCutOff(ids, limit, id)
  {
    ScanOrdered(t, keep, t.lastId, limit);
    var ids := Scan(t, keep, t.lastId, limit);
    assert Valid(t) ==> forall id :: id in t.rows && keep(t.rows[id]) ==> ListedOrCutOff(ids, limit, id) by {
      if Valid(t) {
        forall id | id in t.rows && keep(t.rows[id])
          ensures ListedOrCutOff(ids, limit, id)
        {
          ScanComplete(t, keep, t.lastId, limit, id);
        }
      }
    }
    ids
  }
}
