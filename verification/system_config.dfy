/**
 * src/system-config/system-config.service.ts over the `systemConfig` table.
 * The table is kept in ascending key order (by character code; the database
 * collation is not modelled), which is the order `getAll` lists it in, so a
 * key occurs at most once, as the primary key demands.
 */
module SystemConfig {
  import opened Common

  datatype ConfigRow = ConfigRow(key: string, value: string)

  /** Lexicographic order on strings by character code. */
  predicate KeyLess(a: string, b: string)
  {
    if a == [] then b != []
    else if b == [] then false
    else if a[0] != b[0] then a[0] < b[0]
    else KeyLess(a[1..], b[1..])
  }

  lemma {:induction false} KeyLessIrreflexive(a: string)
    ensures !KeyLess(a, a)
  {
    if a != [] {
      KeyLessIrreflexive(a[1..]);
    }
  }

  lemma {:induction false} KeyLessTotal(a: string, b: string)
    requires a != b
    ensures KeyLess(a, b) || KeyLess(b, a)
  {
    if a != [] && b != [] && a[0] == b[0] {
      assert a == [a[0]] + a[1..] && b == [b[0]] + b[1..];
      KeyLessTotal(a[1..], b[1..]);
    }
  }

  ghost predicate SortedByKey(rows: seq<ConfigRow>)
  {
    forall i, j :: 0 <= i < j < |rows| ==> KeyLess(rows[i].key, rows[j].key)
  }

  function Keys(rows: seq<ConfigRow>): (ks: set<string>)
    ensures forall k :: k in ks <==> exists i :: 0 <= i < |rows| && rows[i].key == k
  {
    set i | 0 <= i < |rows| :: rows[i].key
  }

  lemma KeysCons(row: ConfigRow, rows: seq<ConfigRow>)
    ensures Keys([row] + rows) == {row.key} + Keys(rows)
  {
    var r := [row] + rows;
    assert r[0].key == row.key;
    forall k | k in Keys(rows) ensures k in Keys(r) {
      var i :| 0 <= i < |rows| && rows[i].key == k;
      assert r[i + 1].key == k;
    }
    forall k | k in Keys(r) ensures k in {row.key} + Keys(rows) {
      var i :| 0 <= i < |r| && r[i].key == k;
      if i > 0 { assert rows[i - 1].key == k; }
    }
  }

  lemma KeysTail(rows: seq<ConfigRow>)
    requires rows != []
    ensures Keys(rows) == {rows[0].key} + Keys(rows[1..])
  {
    KeysCons(rows[0], rows[1..]);
    assert rows == [rows[0]] + rows[1..];
  }

  /** `findUnique({ where: { key } })?.value ?? null` */
  function Lookup(rows: seq<ConfigRow>, key: string): (v: Option<string>)
    ensures v.None? <==> key !in Keys(rows)
    ensures v.Some? ==> ConfigRow(key, v.value) in rows
  {
    if rows == [] then None
    else if rows[0].key == key then Some(rows[0].value)
    else
      assert forall i :: 1 <= i < |rows| ==> rows[i] == rows[1..][i - 1];
      Lookup(rows[1..], key)
  }

  /** In a key-ordered table the row holding a key is the only one. */
  lemma {:induction false} LookupUnique(rows: seq<ConfigRow>, key: string, value: string)
    requires SortedByKey(rows) && ConfigRow(key, value) in rows
    ensures Lookup(rows, key) == Some(value)
  {
    if rows[0].key != key {
      assert ConfigRow(key, value) in rows[1..];
      LookupUnique(rows[1..], key, value);
    } else if rows[0].value != value {
      var j :| 0 <= j < |rows| && rows[j] == ConfigRow(key, value);
      KeyLessIrreflexive(key);
      assert false;
    }
  }

  /** Prisma's `upsert` on the key: replace the value in place, or insert the row in key order. */
  function Upsert(rows: seq<ConfigRow>, key: string, value: string): (r: seq<ConfigRow>)
    ensures Keys(r) == Keys(rows) + {key}
    ensures ConfigRow(key, value) in r
    ensures forall row :: row in r ==> row == ConfigRow(key, value) || row in rows
    ensures forall row :: row in rows && row.key != key ==> row in r
  {
    if rows == [] then [ConfigRow(key, value)]
    else if rows[0].key == key then
      var r := [ConfigRow(key, value)] + rows[1..];
      ReplaceFirstKeys(rows, ConfigRow(key, value));
      r
    else if KeyLess(key, rows[0].key) then
      InsertFrontKeys(rows, ConfigRow(key, value));
      [ConfigRow(key, value)] + rows
    else
      var rest := Upsert(rows[1..], key, value);
      KeepFirstKeys(rows, rest, ConfigRow(key, value));
      [rows[0]] + rest
  }

  /** A row put in front adds its key and keeps every row. */
  lemma InsertFrontKeys(rows: seq<ConfigRow>, row: ConfigRow)
    ensures Keys([row] + rows) == Keys(rows) + {row.key}
    ensures forall x :: x in [row] + rows ==> x == row || x in rows
    ensures forall x :: x in rows ==> x in [row] + rows
  {
    KeysCons(row, rows);
  }

  /** Keeping the first row in front of an upserted rest upserts the whole table. */
  lemma KeepFirstKeys(rows: seq<ConfigRow>, rest: seq<ConfigRow>, row: ConfigRow)
    requires rows != [] && rows[0].key != row.key
    requires Keys(rest) == Keys(rows[1..]) + {row.key}
    requires forall x :: x in rest ==> x == row || x in rows[1..]
    requires forall x :: x in rows[1..] && x.key != row.key ==> x in rest
    ensures Keys([rows[0]] + rest) == Keys(rows) + {row.key}
    ensures forall x :: x in [rows[0]] + rest ==> x == row || x in rows
    ensures forall x :: x in rows && x.key != row.key ==> x in [rows[0]] + rest
  {
    calc {
      Keys([rows[0]] + rest);
      { KeysCons(rows[0], rest); }
      Keys(rest) + {rows[0].key};
      Keys(rows[1..]) + {row.key} + {rows[0].key};
      { KeysTail(rows); }
      Keys(rows) + {row.key};
    }
    KeepFirstMembers(rows, rest, row);
  }

  lemma KeepFirstMembers(rows: seq<ConfigRow>, rest: seq<ConfigRow>, row: ConfigRow)
    requires rows != []
    requires forall x :: x in rest ==> x == row || x in rows[1..]
    requires forall x :: x in rows[1..] && x.key != row.key ==> x in rest
    ensures forall x :: x in [rows[0]] + rest ==> x == row || x in rows
    ensures forall x :: x in rows && x.key != row.key ==> x in [rows[0]] + rest
  {
    var r := [rows[0]] + rest;
    forall x | x in r ensures x == row || x in rows {
      if x != rows[0] {
        assert x in rest;
        if x != row {
          var k :| 0 <= k < |rows[1..]| && rows[1..][k] == x;
          assert rows[k + 1] == x;
        }
      }
    }
    forall x | x in rows && x.key != row.key ensures x in r {
      var i :| 0 <= i < |rows| && rows[i] == x;
      if i > 0 {
        assert rows[1..][i - 1] == x;
      }
    }
  }

  /** Replacing the first row by one with the same key keeps the keys and every other row. */
  lemma ReplaceFirstKeys(rows: seq<ConfigRow>, row: ConfigRow)
    requires rows != [] && rows[0].key == row.key
    ensures Keys([row] + rows[1..]) == Keys(rows)
    ensures forall x :: x in [row] + rows[1..] ==> x == row || x in rows
    ensures forall x :: x in rows && x.key != row.key ==> x in [row] + rows[1..]
  {
    var r := [row] + rows[1..];
    KeysCons(row, rows[1..]);
    KeysCons(rows[0], rows[1..]);
    assert rows == [rows[0]] + rows[1..];
    forall x | x in rows && x.key != row.key ensures x in r {
      var i :| 0 <= i < |rows| && rows[i] == x;
      assert r[i] == rows[i];
    }
  }

  lemma {:induction false} UpsertKeepsOrder(rows: seq<ConfigRow>, key: string, value: string)
    requires SortedByKey(rows)
    ensures SortedByKey(Upsert(rows, key, value))
  {
    var row := ConfigRow(key, value);
    if rows == [] {
    } else if rows[0].key == key {
      SortedTail(rows);
      SortedCons(row, rows[1..]);
    } else if KeyLess(key, rows[0].key) {
      forall j | 0 <= j < |rows| ensures KeyLess(key, rows[j].key) {
        if j > 0 { KeyLessTrans(key, rows[0].key, rows[j].key); }
      }
      SortedCons(row, rows);
    } else {
      SortedTail(rows);
      UpsertKeepsOrder(rows[1..], key, value);
      var rest := Upsert(rows[1..], key, value);
      KeyLessTotal(key, rows[0].key);
      AllAbove(rows[0].key, row, rows[1..], rest);
      SortedCons(rows[0], rest);
    }
  }

  /** A row whose key is below every key of a key-ordered table can go in front of it. */
  lemma SortedCons(row: ConfigRow, rows: seq<ConfigRow>)
    requires SortedByKey(rows)
    requires forall j :: 0 <= j < |rows| ==> KeyLess(row.key, rows[j].key)
    ensures SortedByKey([row] + rows)
  {
    var r := [row] + rows;
    forall i, j | 0 <= i < j < |r| ensures KeyLess(r[i].key, r[j].key) {
      assert r[j] == rows[j - 1];
      if i > 0 { assert r[i] == rows[i - 1]; }
    }
  }

  /** Below the first row of a key-ordered table is a key-ordered table of larger keys. */
  lemma SortedTail(rows: seq<ConfigRow>)
    requires SortedByKey(rows) && rows != []
    ensures SortedByKey(rows[1..])
    ensures forall j :: 0 <= j < |rows[1..]| ==> KeyLess(rows[0].key, rows[1..][j].key)
  {
    assert forall j :: 0 <= j < |rows[1..]| ==> rows[1..][j] == rows[j + 1];
  }

  /** Rows drawn from larger keys and one new larger key all lie above `first`. */
  lemma AllAbove(first: string, row: ConfigRow, tail: seq<ConfigRow>, rest: seq<ConfigRow>)
    requires KeyLess(first, row.key)
    requires forall j :: 0 <= j < |tail| ==> KeyLess(first, tail[j].key)
    requires forall x :: x in rest ==> x == row || x in tail
    ensures forall j :: 0 <= j < |rest| ==> KeyLess(first, rest[j].key)
  {
    forall j | 0 <= j < |rest| ensures KeyLess(first, rest[j].key) {
      assert rest[j] in rest;
      if rest[j] != row {
        var k :| 0 <= k < |tail| && tail[k] == rest[j];
      }
    }
  }

  lemma {:induction false} KeyLessTrans(a: string, b: string, c: string)
    requires KeyLess(a, b) && KeyLess(b, c)
    ensures KeyLess(a, c)
  {
    if a != [] && b != [] && c != [] && a[0] == b[0] && b[0] == c[0] {
      KeyLessTrans(a[1..], b[1..], c[1..]);
    }
  }

  /** Setting a key makes every later read of it return the new value. */
  lemma SetThenGet(rows: seq<ConfigRow>, key: string, value: string)
    requires SortedByKey(rows)
    ensures Lookup(Upsert(rows, key, value), key) == Some(value)
  {
    UpsertKeepsOrder(rows, key, value);
    LookupUnique(Upsert(rows, key, value), key, value);
  }

  /** Setting a key leaves every other key's value as it was. */
  lemma SetLeavesOthers(rows: seq<ConfigRow>, key: string, value: string, other: string)
    requires SortedByKey(rows) && other != key
    ensures Lookup(Upsert(rows, key, value), other) == Lookup(rows, other)
  {
    var r := Upsert(rows, key, value);
    UpsertKeepsOrder(rows, key, value);
    match Lookup(rows, other)
    case None =>
      assert other !in Keys(r);
    case Some(v) =>
      LookupUnique(r, other, v);
  }

  /** Setting the same value twice is setting it once. */
  lemma {:induction false} SetIdempotent(rows: seq<ConfigRow>, key: string, value: string)
    ensures Upsert(Upsert(rows, key, value), key, value) == Upsert(rows, key, value)
  {
    if rows != [] && rows[0].key != key && !KeyLess(key, rows[0].key) {
      SetIdempotent(rows[1..], key, value);
    }
  }

  /**
   * The `systemConfig` table. `getAll` (`findMany` ordered by key ascending)
   * is the row sequence itself.
   */
  class ConfigTable {
    var rows: seq<ConfigRow>

    ghost predicate Valid()
      reads this
    {
      SortedByKey(rows)
    }

    constructor ()
      ensures Valid() && rows == []
    {
      rows := [];
    }

    /** `get(key)` */
    function Get(key: string): (v: Option<string>)
      reads this
      requires Valid()
      ensures v.Some? ==> ConfigRow(key, v.value) in rows
      ensures v.None? <==> forall i :: 0 <= i < |rows| ==> rows[i].key != key
    {
      Lookup(rows, key)
    }

    /** `getAll()`: every entry, in ascending key order. */
    function GetAll(): (all: seq<ConfigRow>)
      reads this
      requires Valid()
      ensures SortedByKey(all)
      ensures forall k :: (exists i :: 0 <= i < |all| && all[i].key == k) <==> Get(k).Some?
    {
      rows
    }

    /** `set(key, value)`: upsert on the key. */
    method Set(key: string, value: string) returns (row: ConfigRow)
      requires Valid()
      modifies this
      ensures Valid()
      ensures rows == Upsert(old(rows), key, value)
      ensures row == ConfigRow(key, value)
      ensures Get(key) == Some(value)
      ensures forall k :: k != key ==> Get(k) == old(Get(k))
    {
      SetThenGet(rows, key, value);
      forall k | k != key ensures Lookup(Upsert(rows, key, value), k) == Lookup(rows, k) {
        SetLeavesOthers(rows, key, value, k);
      }
      UpsertKeepsOrder(rows, key, value);
      rows := Upsert(rows, key, value);
      row := ConfigRow(key, value);
    }

    /**
     * `getCancellationWindowHours()`: the stored value under `windowKey` read
     * as a number, or `defaultHours` when it is missing, empty or not a number.
     * `parse` stands for `Number(value)`, None meaning NaN.
     */
    function CancellationWindowHours(windowKey: string, defaultHours: real, parse: string -> Option<real>): (h: real)
      reads this
      requires Valid()
      ensures (Get(windowKey).Some? && Get(windowKey).value != "" && parse(Get(windowKey).value).Some?) ==>
                h == parse(Get(windowKey).value).value
      ensures Get(windowKey).None? || Get(windowKey).value == "" ==> h == defaultHours
      ensures Get(windowKey).Some? && parse(Get(windowKey).value).None? ==> h == defaultHours
    {
      var value := Get(windowKey);
      if value.Some? && value.value != "" && parse(value.value).Some? then parse(value.value).value
      else defaultHours
    }
  }
}
