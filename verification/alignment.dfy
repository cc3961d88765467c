/** Generic alignment of fetched rows to requested keys: the find-first and
    filter-group shapes every batch function uses, and the "key in set"
    pre-filter the storage applies before them. */
module Alignment {
  import opened Wrappers
  import opened Entities

  /** `a` is `b` with some elements dropped, the rest kept in order. */
  ghost predicate Subsequence<T>(a: seq<T>, b: seq<T>)
    decreases |b|
  {
    if |a| == 0 then true
    else if |b| == 0 then false
    else (a[0] == b[0] && Subsequence(a[1..], b[1..])) || Subsequence(a, b[1..])
  }

  lemma {:induction false} SubsequenceMember<T>(a: seq<T>, b: seq<T>, x: T)
    requires Subsequence(a, b) && x in a
    ensures x in b
    decreases |b|
  {
    if a[0] == b[0] && Subsequence(a[1..], b[1..]) {
      if x != a[0] {
        assert x in a[1..];
        SubsequenceMember(a[1..], b[1..], x);
      }
    } else {
      SubsequenceMember(a, b[1..], x);
    }
  }

  /** Position `i` holds the first row whose key is `id`. */
  ghost predicate IsFirstMatch<T>(rows: seq<T>, key: T -> Id, id: Id, i: int)
  {
    && 0 <= i < |rows|
    && key(rows[i]) == id
    && forall j :: 0 <= j < i ==> key(rows[j]) != id
  }

  /** No row has key `id`. */
  ghost predicate NoMatch<T>(rows: seq<T>, key: T -> Id, id: Id)
  {
    forall j :: 0 <= j < |rows| ==> key(rows[j]) != id
  }

  /** The first row whose key is `id`, or absent. */
  function FindFirst<T>(rows: seq<T>, key: T -> Id, id: Id): (r: Option<T>)
    ensures r.None? <==> NoMatch(rows, key, id)
    ensures r.Some? ==> exists i :: IsFirstMatch(rows, key, id, i) && rows[i] == r.value
    decreases |rows|
  {
    if |rows| == 0 then None
    else if key(rows[0]) == id then
      assert IsFirstMatch(rows, key, id, 0);
      Some(rows[0])
    else
      var r := FindFirst(rows[1..], key, id);
      assert r.Some? ==> exists i :: IsFirstMatch(rows, key, id, i) && rows[i] == r.value by {
        if r.Some? {
          var i :| IsFirstMatch(rows[1..], key, id, i) && rows[1..][i] == r.value;
          assert IsFirstMatch(rows, key, id, i + 1);
        }
      }
      assert NoMatch(rows[1..], key, id) ==> NoMatch(rows, key, id) by {
        if NoMatch(rows[1..], key, id) {
          forall j | 0 <= j < |rows| ensures key(rows[j]) != id {
            if j > 0 { assert rows[j] == rows[1..][j - 1]; }
          }
        }
      }
      r
  }

  /** The first match is unique: whatever satisfies the find-first
      specification is determined by the rows, the key and the id. */
  lemma FirstMatchUnique<T>(rows: seq<T>, key: T -> Id, id: Id, i: int, j: int)
    requires IsFirstMatch(rows, key, id, i) && IsFirstMatch(rows, key, id, j)
    ensures i == j
  {
  }

  /** `r` is the sub-list of `rows` whose key is `id`: in fetched order, with
      every matching row exactly as often as it was fetched and no other. */
  ghost predicate IsGroup<T>(rows: seq<T>, key: T -> Id, id: Id, r: seq<T>)
  {
    && Subsequence(r, rows)
    && (forall i :: 0 <= i < |r| ==> key(r[i]) == id)
    && (forall i :: 0 <= i < |rows| && key(rows[i]) == id ==> multiset(r)[rows[i]] == multiset(rows)[rows[i]])
  }

  /** The rows whose key is `id`, in fetched order. */
  function FilterByKey<T>(rows: seq<T>, key: T -> Id, id: Id): (r: seq<T>)
    ensures IsGroup(rows, key, id, r)
    decreases |rows|
  {
    if |rows| == 0 then []
    else
      var rest := FilterByKey(rows[1..], key, id);
      assert rows == [rows[0]] + rows[1..];
      assert multiset(rows) == multiset{rows[0]} + multiset(rows[1..]);
      if key(rows[0]) == id then
        var r := [rows[0]] + rest;
        assert r[1..] == rest;
        assert multiset(r) == multiset{rows[0]} + multiset(rest);
        assert multiset(rest)[rows[0]] == multiset(rows[1..])[rows[0]] by {
          if rows[0] in rows[1..] {
            var j :| 0 <= j < |rows[1..]| && rows[1..][j] == rows[0];
          } else if rows[0] in rest {
            SubsequenceMember(rest, rows[1..], rows[0]);
          }
        }
        forall i | 0 <= i < |rows| && key(rows[i]) == id
          ensures multiset(r)[rows[i]] == multiset(rows)[rows[i]]
        {
          if i > 0 && rows[i] != rows[0] {
            assert rows[i] == rows[1..][i - 1];
          }
        }
        r
      else
        rest
  }

  /** Membership view of a group: a row is in the group for `id` exactly when
      it was fetched and its key is `id`. */
  lemma GroupMembership<T>(rows: seq<T>, key: T -> Id, id: Id, r: seq<T>, x: T)
    requires IsGroup(rows, key, id, r)
    ensures x in r <==> x in rows && key(x) == id
  {
    if x in r {
      SubsequenceMember(r, rows, x);
    }
    if x in rows && key(x) == id {
      var i :| 0 <= i < |rows| && rows[i] == x;
      assert multiset(r)[x] > 0;
    }
  }

  /** `r` answers every requested key, in request order, with its first
      matching row or absent. */
  ghost predicate FirstAligned<T>(ids: seq<Id>, rows: seq<T>, key: T -> Id, r: seq<Option<T>>)
  {
    && |r| == |ids|
    && forall i :: 0 <= i < |ids| ==>
         && (r[i].None? <==> NoMatch(rows, key, ids[i]))
         && (r[i].Some? ==> exists j :: IsFirstMatch(rows, key, ids[i], j) && rows[j] == r[i].value)
  }

  /** `r` answers every requested key, in request order, with its group. */
  ghost predicate GroupAligned<T>(ids: seq<Id>, rows: seq<T>, key: T -> Id, r: seq<seq<T>>)
  {
    && |r| == |ids|
    && forall i :: 0 <= i < |ids| ==> IsGroup(rows, key, ids[i], r[i])
  }

  /** Answers each requested key, in key order, with its first matching row,
      or absent when no row has that key. */
  function AlignFirst<T>(ids: seq<Id>, rows: seq<T>, key: T -> Id): (r: seq<Option<T>>)
    ensures FirstAligned(ids, rows, key, r)
    ensures forall i :: 0 <= i < |ids| ==> r[i] == FindFirst(rows, key, ids[i])
    decreases |ids|
  {
    if |ids| == 0 then []
    else
      var rest := AlignFirst(ids[1..], rows, key);
      assert forall i :: 0 < i < |ids| ==> ids[i] == ids[1..][i - 1];
      [FindFirst(rows, key, ids[0])] + rest
  }

  /** Answers each requested key, in key order, with the rows whose key it
      is, in row order. */
  function AlignGroups<T>(ids: seq<Id>, rows: seq<T>, key: T -> Id): (r: seq<seq<T>>)
    ensures GroupAligned(ids, rows, key, r)
    ensures forall i :: 0 <= i < |ids| ==> r[i] == FilterByKey(rows, key, ids[i])
    decreases |ids|
  {
    if |ids| == 0 then []
    else
      var rest := AlignGroups(ids[1..], rows, key);
      assert forall i :: 0 < i < |ids| ==> ids[i] == ids[1..][i - 1];
      [FilterByKey(rows, key, ids[0])] + rest
  }

  /** Two positions requesting the same key get the same answer. */
  lemma {:induction false} FirstAlignedDuplicates<T>(ids: seq<Id>, rows: seq<T>, key: T -> Id,
                                                     r: seq<Option<T>>, i: int, j: int)
    requires FirstAligned(ids, rows, key, r)
    requires 0 <= i < |ids| && 0 <= j < |ids| && ids[i] == ids[j]
    ensures r[i] == r[j]
  {
    if r[i].Some? {
      var a :| IsFirstMatch(rows, key, ids[i], a) && rows[a] == r[i].value;
      var b :| IsFirstMatch(rows, key, ids[j], b) && rows[b] == r[j].value;
      FirstMatchUnique(rows, key, ids[i], a, b);
    }
  }

  /** Every fetched row with a requested key is in the group at each position
      requesting that key, and in no group of another key. */
  lemma GroupAlignedMembership<T>(ids: seq<Id>, rows: seq<T>, key: T -> Id,
                                  r: seq<seq<T>>, i: int, x: T)
    requires GroupAligned(ids, rows, key, r)
    requires 0 <= i < |ids|
    ensures x in r[i] <==> x in rows && key(x) == ids[i]
  {
    GroupMembership(rows, key, ids[i], r[i], x);
  }

  /** The rows of `table` whose key is among `ids`, in table order: what the
      storage returns for a `key in ids` filter. */
  function KeyIn<T>(table: seq<T>, key: T -> Id, ids: seq<Id>): (r: seq<T>)
    ensures forall i :: 0 <= i < |r| ==> key(r[i]) in ids
    ensures forall i :: 0 <= i < |table| && key(table[i]) in ids ==> table[i] in r
    ensures forall i :: 0 <= i < |table| && key(table[i]) in ids ==>
              multiset(r)[table[i]] == multiset(table)[table[i]]
    ensures Subsequence(r, table)
    decreases |table|
  {
    if |table| == 0 then []
    else
      var rest := KeyIn(table[1..], key, ids);
      assert table == [table[0]] + table[1..];
      assert multiset(table) == multiset{table[0]} + multiset(table[1..]);
      if key(table[0]) in ids then
        var r := [table[0]] + rest;
        assert r[1..] == rest;
        assert multiset(r) == multiset{table[0]} + multiset(rest);
        assert multiset(rest)[table[0]] == multiset(table[1..])[table[0]] by {
          if table[0] in table[1..] {
            var j :| 0 <= j < |table[1..]| && table[1..][j] == table[0];
          } else if table[0] in rest {
            SubsequenceMember(rest, table[1..], table[0]);
          }
        }
        forall i | 0 <= i < |table| && key(table[i]) in ids
          ensures multiset(r)[table[i]] == multiset(table)[table[i]]
        {
          if i > 0 && table[i] != table[0] {
            assert table[i] == table[1..][i - 1];
          }
        }
        r
      else
        forall i | 0 <= i < |table| && key(table[i]) in ids
          ensures multiset(rest)[table[i]] == multiset(table)[table[i]]
        {
          assert table[i] == table[1..][i - 1];
        }
        rest
  }

  lemma {:induction false} FindFirstKeyIn<T>(table: seq<T>, key: T -> Id, ids: seq<Id>, id: Id)
    requires id in ids
    ensures FindFirst(KeyIn(table, key, ids), key, id) == FindFirst(table, key, id)
    decreases |table|
  {
    if |table| > 0 {
      FindFirstKeyIn(table[1..], key, ids, id);
      if key(table[0]) in ids {
        assert KeyIn(table, key, ids)[1..] == KeyIn(table[1..], key, ids);
      }
    }
  }

  lemma {:induction false} FilterByKeyKeyIn<T>(table: seq<T>, key: T -> Id, ids: seq<Id>, id: Id)
    requires id in ids
    ensures FilterByKey(KeyIn(table, key, ids), key, id) == FilterByKey(table, key, id)
    decreases |table|
  {
    if |table| > 0 {
      FilterByKeyKeyIn(table[1..], key, ids, id);
      if key(table[0]) in ids {
        assert KeyIn(table, key, ids)[1..] == KeyIn(table[1..], key, ids);
      }
    }
  }

  /** Find-first alignment against the pre-filtered rows equals alignment
      against the whole table. */
  lemma AlignFirstKeyIn<T>(ids: seq<Id>, table: seq<T>, key: T -> Id)
    ensures AlignFirst(ids, KeyIn(table, key, ids), key) == AlignFirst(ids, table, key)
  {
    var a := AlignFirst(ids, KeyIn(table, key, ids), key);
    var b := AlignFirst(ids, table, key);
    forall i | 0 <= i < |ids| ensures a[i] == b[i] {
      FindFirstKeyIn(table, key, ids, ids[i]);
    }
  }

  /** Filter-group alignment against the pre-filtered rows equals alignment
      against the whole table. */
  lemma AlignGroupsKeyIn<T>(ids: seq<Id>, table: seq<T>, key: T -> Id)
    ensures AlignGroups(ids, KeyIn(table, key, ids), key) == AlignGroups(ids, table, key)
  {
    var a := AlignGroups(ids, KeyIn(table, key, ids), key);
    var b := AlignGroups(ids, table, key);
    forall i | 0 <= i < |ids| ensures a[i] == b[i] {
      FilterByKeyKeyIn(table, key, ids, ids[i]);
    }
  }

  /** Rows whose key is not requested never affect either alignment: two
      tables that agree on their requested rows give the same answers. */
  lemma UnrequestedRowsIrrelevant<T>(ids: seq<Id>, t1: seq<T>, t2: seq<T>, key: T -> Id)
    requires KeyIn(t1, key, ids) == KeyIn(t2, key, ids)
    ensures AlignFirst(ids, t1, key) == AlignFirst(ids, t2, key)
    ensures AlignGroups(ids, t1, key) == AlignGroups(ids, t2, key)
  {
    AlignFirstKeyIn(ids, t1, key);
    AlignFirstKeyIn(ids, t2, key);
    AlignGroupsKeyIn(ids, t1, key);
    AlignGroupsKeyIn(ids, t2, key);
  }
}
