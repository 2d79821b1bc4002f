/**
 * A database table as a sequence of keyed rows, in the order queries return
 * them, with the writes `Model.save()` performs and the unique indexes the
 * models declare.
 */
module Rows {
  import opened Common

  datatype Row<T> = Row(id: nat, val: T)

  /** What `super().save()` reports: the primary key written, or the unique index's refusal. */
  datatype SaveResult = Saved(id: nat) | IntegrityError

  /** Python's truth value of a primary key: `None` and `0` are false. */
  predicate HasPk(pk: Option<nat>) {
    pk.Some? && pk.value != 0
  }

  /** `exclude(pk=self.pk)`: with no primary key yet every row is another row. */
  predicate IsOther<T>(r: Row<T>, pk: Option<nat>) {
    pk.None? || r.id != pk.value
  }

  /** The values of column `key` over the rows other than `pk`. */
  function OtherKeys<T(==)>(rows: seq<Row<T>>, pk: Option<nat>, key: T -> string): set<string> {
    set r | r in rows && IsOther(r, pk) :: key(r.val)
  }

  /** The values of column `key` over the whole table. */
  function AllKeys<T(==)>(rows: seq<Row<T>>, key: T -> string): set<string> {
    set r | r in rows :: key(r.val)
  }

  ghost predicate IdsUnique<T>(rows: seq<Row<T>>) {
    forall i, j :: 0 <= i < j < |rows| ==> rows[i].id != rows[j].id
  }

  ghost predicate IdsBelow<T>(rows: seq<Row<T>>, bound: nat) {
    forall r | r in rows :: r.id < bound
  }

  /** A unique index on column `key`. */
  ghost predicate KeysUnique<T>(rows: seq<Row<T>>, key: T -> string) {
    forall a, b | a in rows && b in rows && key(a.val) == key(b.val) :: a.id == b.id
  }

  /** The key `save()` writes under: the instance's own, or the next free one on INSERT. */
  function SaveKey(pk: Option<nat>, nextId: nat): nat {
    if pk.Some? then pk.value else nextId
  }

  /** `filter(pk=id).first()`. */
  function Lookup<T(==)>(rows: seq<Row<T>>, id: nat): (r: Option<T>)
    ensures r.Some? ==> Row(id, r.value) in rows
    ensures r.None? ==> forall x | x in rows :: x.id != id
  {
    if rows == [] then None
    else if rows[0].id == id then Some(rows[0].val)
    else Lookup(rows[1..], id)
  }

  /** The row `super().save()` writes: an UPDATE of the row with that key, else an INSERT. */
  function Upsert<T(==)>(rows: seq<Row<T>>, id: nat, v: T): seq<Row<T>> {
    if rows == [] then [Row(id, v)]
    else if rows[0].id == id then [Row(id, v)] + rows[1..]
    else [rows[0]] + Upsert(rows[1..], id, v)
  }

  /** `DELETE ... WHERE id = id`. */
  function Remove<T(==)>(rows: seq<Row<T>>, id: nat): seq<Row<T>> {
    if rows == [] then []
    else if rows[0].id == id then Remove(rows[1..], id)
    else [rows[0]] + Remove(rows[1..], id)
  }

  /** The rows after an upsert: the written row, and every row with another key, unchanged. */
  lemma {:induction false} UpsertMembers<T>(rows: seq<Row<T>>, id: nat, v: T)
    requires IdsUnique(rows)
    ensures IdsUnique(Upsert(rows, id, v))
    ensures Row(id, v) in Upsert(rows, id, v)
    ensures forall x | x in Upsert(rows, id, v) :: x == Row(id, v) || (x in rows && x.id != id)
    ensures forall x | x in rows && x.id != id :: x in Upsert(rows, id, v)
  {
    if rows != [] {
      UpsertMembers(rows[1..], id, v);
      var up := Upsert(rows, id, v);
      if rows[0].id == id {
        forall x | x in rows[1..] ensures x.id != id {
          var j :| 0 <= j < |rows[1..]| && rows[1..][j] == x;
          assert rows[j + 1] == x;
        }
      } else {
        var tail := Upsert(rows[1..], id, v);
        assert up == [rows[0]] + tail;
        forall x | x in tail ensures x.id != rows[0].id {
          if x.id != id {
            assert x in rows[1..];
            var j :| 0 <= j < |rows[1..]| && rows[1..][j] == x;
            assert rows[j + 1] == x;
          }
        }
        forall i, j | 0 <= i < j < |up| ensures up[i].id != up[j].id {
          if i == 0 {
            assert up[j] in tail;
          } else {
            assert up[i] == tail[i - 1] && up[j] == tail[j - 1];
          }
        }
      }
    }
  }

  lemma UpsertKeepsOther<T>(rows: seq<Row<T>>, id: nat, v: T, x: Row<T>)
    requires IdsUnique(rows) && x in rows && x.id != id
    ensures x in Upsert(rows, id, v)
  {
    UpsertMembers(rows, id, v);
  }

  /** Writing back a row exactly as stored changes nothing. */
  lemma {:induction false} UpsertOfStoredRow<T>(rows: seq<Row<T>>, r: Row<T>)
    requires IdsUnique(rows) && r in rows
    ensures Upsert(rows, r.id, r.val) == rows
  {
    if rows[0] != r {
      assert rows[0].id != r.id by {
        var j :| 0 <= j < |rows| && rows[j] == r;
      }
      assert r in rows[1..];
      UpsertOfStoredRow(rows[1..], r);
      assert rows == [rows[0]] + rows[1..];
    }
  }

  /**
   * An upsert keeps the key space and a unique index valid when no other row
   * holds the written value.
   */
  lemma UpsertKeepsIndex<T>(rows: seq<Row<T>>, bound: nat, id: nat, v: T, key: T -> string)
    requires IdsUnique(rows) && IdsBelow(rows, bound) && KeysUnique(rows, key)
    requires key(v) !in OtherKeys(rows, Some(id), key)
    ensures IdsUnique(Upsert(rows, id, v))
    ensures IdsBelow(Upsert(rows, id, v), if id + 1 > bound then id + 1 else bound)
    ensures KeysUnique(Upsert(rows, id, v), key)
  {
    UpsertMembers(rows, id, v);
    forall b | b in rows && b.id != id ensures key(b.val) != key(v) {
      assert IsOther(b, Some(id));
      assert key(b.val) in OtherKeys(rows, Some(id), key);
    }
  }

  /** The same, for a table without a unique column. */
  lemma UpsertKeepsIds<T>(rows: seq<Row<T>>, bound: nat, id: nat, v: T)
    requires IdsUnique(rows) && IdsBelow(rows, bound)
    ensures IdsUnique(Upsert(rows, id, v))
    ensures IdsBelow(Upsert(rows, id, v), if id + 1 > bound then id + 1 else bound)
  {
    UpsertMembers(rows, id, v);
  }

  /** Raising the id counter keeps every stored key below it. */
  lemma IdsBelowGrow<T>(rows: seq<Row<T>>, bound: nat, bound': nat)
    requires IdsBelow(rows, bound) && bound <= bound'
    ensures IdsBelow(rows, bound')
  {
  }

  /** A delete removes exactly the rows with that key, and keeps the key space unique. */
  lemma {:induction false} RemoveMembers<T>(rows: seq<Row<T>>, id: nat)
    requires IdsUnique(rows)
    ensures IdsUnique(Remove(rows, id))
    ensures forall x | x in Remove(rows, id) :: x in rows && x.id != id
    ensures forall x | x in rows && x.id != id :: x in Remove(rows, id)
  {
    if rows != [] {
      var rest := rows[1..];
      RemoveMembers(rest, id);
      var tail := Remove(rest, id);
      if rows[0].id != id {
        var r := Remove(rows, id);
        assert r == [rows[0]] + tail;
        forall x | x in tail ensures x.id != rows[0].id {
          var j :| 0 <= j < |rest| && rest[j] == x;
          assert rows[j + 1] == x;
        }
        forall i, j | 0 <= i < j < |r| ensures r[i].id != r[j].id {
          if i == 0 {
            assert r[j] == tail[j - 1];
          } else {
            assert r[i] == tail[i - 1] && r[j] == tail[j - 1];
          }
        }
      }
      forall x | x in rows && x.id != id ensures x in Remove(rows, id) {
        if x != rows[0] {
          assert x in rest;
        }
      }
    }
  }
}
