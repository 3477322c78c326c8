/** Grouping rows into columns by key, as the OTLP timeline is built: src/otlp/mod.rs, lines 301-339. */
module Grouping {
  import opened Machine

  datatype Row<K> = Row(key: K, value: int, time: u64)
  datatype Group<K> = Group(key: K, values: seq<int>, times: seq<u64>)

  predicate Aligned<K>(g: Group<K>) {
    |g.values| == |g.times| > 0
  }

  /** A group read back row by row. */
  function RowsOf<K>(g: Group<K>): (r: seq<Row<K>>)
    requires Aligned(g)
    ensures |r| == |g.values|
  {
    seq(|g.values|, i requires 0 <= i < |g.values| => Row(g.key, g.values[i], g.times[i]))
  }

  function AllRows<K>(gs: seq<Group<K>>): seq<Row<K>>
    requires forall j :: 0 <= j < |gs| ==> Aligned(gs[j])
  {
    if gs == [] then [] else AllRows(gs[..|gs| - 1]) + RowsOf(gs[|gs| - 1])
  }

  /** The rows with a key, in their order. */
  function Matching<K(==)>(rows: seq<Row<K>>, key: K): seq<Row<K>> {
    if rows == [] then []
    else
      var n := |rows| - 1;
      Matching(rows[..n], key) + (if rows[n].key == key then [rows[n]] else [])
  }

  predicate HasGroup<K(==)>(gs: seq<Group<K>>, key: K) {
    exists j :: 0 <= j < |gs| && gs[j].key == key
  }

  /** One group a key, holding exactly that key's rows in order; no row without its group. */
  predicate GroupedBy<K(==)>(gs: seq<Group<K>>, rows: seq<Row<K>>) {
    && (forall j :: 0 <= j < |gs| ==> Aligned(gs[j]) && RowsOf(gs[j]) == Matching(rows, gs[j].key))
    && (forall j, k :: 0 <= j < k < |gs| ==> gs[j].key != gs[k].key)
    && (forall i :: 0 <= i < |rows| ==> HasGroup(gs, rows[i].key))
  }

  /** The index map beside the groups. */
  predicate IndexedBy<K>(gs: seq<Group<K>>, index: map<K, nat>) {
    && (forall k :: k in index ==> index[k] < |gs| && gs[index[k]].key == k)
    && (forall j :: 0 <= j < |gs| ==> gs[j].key in index && index[gs[j].key] == j)
  }

  lemma {:induction false} MatchingNone<K>(rows: seq<Row<K>>, key: K)
    requires forall i :: 0 <= i < |rows| ==> rows[i].key != key
    ensures Matching(rows, key) == []
  {
    if rows != [] {
      MatchingNone(rows[..|rows| - 1], key);
    }
  }

  lemma MatchingPush<K>(rows: seq<Row<K>>, row: Row<K>, key: K)
    ensures Matching(rows + [row], key) == Matching(rows, key) + (if row.key == key then [row] else [])
  {
    assert (rows + [row])[..|rows|] == rows;
  }

  /** A row whose key is new opens a group. */
  lemma OpenGroup<K>(gs: seq<Group<K>>, rows: seq<Row<K>>, row: Row<K>)
    requires GroupedBy(gs, rows) && forall j :: 0 <= j < |gs| ==> gs[j].key != row.key
    ensures GroupedBy(gs + [Group(row.key, [row.value], [row.time])], rows + [row])
  {
    var hs := gs + [Group(row.key, [row.value], [row.time])];
    var more := rows + [row];
    assert forall j :: 0 <= j < |gs| ==> hs[j] == gs[j];
    forall j | 0 <= j < |gs|
      ensures RowsOf(hs[j]) == Matching(more, hs[j].key)
    {
      MatchingPush(rows, row, gs[j].key);
    }
    MatchingNone(rows, row.key);
    MatchingPush(rows, row, row.key);
    forall i | 0 <= i < |more|
      ensures HasGroup(hs, more[i].key)
    {
      if i == |rows| {
        assert hs[|gs|].key == row.key;
      } else {
        assert more[i] == rows[i];
        var j :| 0 <= j < |gs| && gs[j].key == rows[i].key;
        assert hs[j].key == more[i].key;
      }
    }
  }

  /** A row whose key has a group joins it. */
  lemma JoinGroup<K>(gs: seq<Group<K>>, rows: seq<Row<K>>, row: Row<K>, n: nat)
    requires GroupedBy(gs, rows) && n < |gs| && gs[n].key == row.key
    ensures GroupedBy(gs[n := Group(row.key, gs[n].values + [row.value], gs[n].times + [row.time])], rows + [row])
  {
    var hs := gs[n := Group(row.key, gs[n].values + [row.value], gs[n].times + [row.time])];
    var more := rows + [row];
    assert RowsOf(hs[n]) == RowsOf(gs[n]) + [row];
    forall j | 0 <= j < |gs|
      ensures RowsOf(hs[j]) == Matching(more, hs[j].key)
    {
      MatchingPush(rows, row, gs[j].key);
    }
    forall i | 0 <= i < |more|
      ensures HasGroup(hs, more[i].key)
    {
      if i == |rows| {
        assert hs[n].key == row.key;
      } else {
        assert more[i] == rows[i];
        var j :| 0 <= j < |gs| && gs[j].key == rows[i].key;
        assert hs[j].key == more[i].key;
      }
    }
  }

  // Nothing is lost or invented by grouping.

  lemma {:induction false} MatchingCount<K>(rows: seq<Row<K>>, r: Row<K>)
    ensures multiset(Matching(rows, r.key))[r] == multiset(rows)[r]
  {
    if rows != [] {
      var n := |rows| - 1;
      MatchingCount(rows[..n], r);
      assert rows == rows[..n] + [rows[n]];
    }
  }

  lemma OtherKey<K>(g: Group<K>, r: Row<K>)
    requires Aligned(g) && g.key != r.key
    ensures multiset(RowsOf(g))[r] == 0
  {
    assert r !in RowsOf(g);
  }

  lemma {:induction false} AllRowsCount<K>(gs: seq<Group<K>>, r: Row<K>, n: nat)
    requires forall j :: 0 <= j < |gs| ==> Aligned(gs[j])
    requires n < |gs| && forall j :: 0 <= j < |gs| && j != n ==> gs[j].key != r.key
    ensures multiset(AllRows(gs))[r] == multiset(RowsOf(gs[n]))[r]
  {
    var m := |gs| - 1;
    if n == m {
      AllRowsNone(gs[..m], r);
    } else {
      AllRowsCount(gs[..m], r, n);
      OtherKey(gs[m], r);
    }
  }

  lemma {:induction false} AllRowsNone<K>(gs: seq<Group<K>>, r: Row<K>)
    requires forall j :: 0 <= j < |gs| ==> Aligned(gs[j]) && gs[j].key != r.key
    ensures multiset(AllRows(gs))[r] == 0
  {
    if gs != [] {
      AllRowsNone(gs[..|gs| - 1], r);
      OtherKey(gs[|gs| - 1], r);
    }
  }

  lemma RowCount<K>(gs: seq<Group<K>>, rows: seq<Row<K>>, r: Row<K>)
    requires GroupedBy(gs, rows)
    ensures multiset(AllRows(gs))[r] == multiset(rows)[r]
  {
    hide AllRows, Matching;
    if n :| 0 <= n < |gs| && gs[n].key == r.key {
      AllRowsCount(gs, r, n);
      MatchingCount(rows, r);
    } else {
      AllRowsNone(gs, r);
      assert r !in rows;
    }
  }

  /** The groups hold the rows, each as often as it was given. */
  lemma GroupingConserves<K(!new)>(gs: seq<Group<K>>, rows: seq<Row<K>>)
    requires GroupedBy(gs, rows)
    ensures multiset(AllRows(gs)) == multiset(rows)
  {
    hide AllRows, Matching, RowsOf;
    var all := multiset(AllRows(gs));
    forall r: Row<K>
      ensures all[r] == multiset(rows)[r]
    {
      RowCount(gs, rows, r);
    }
  }

  // Reading keys through an injective meaning.

  function MapRow<K, L>(f: K -> L, r: Row<K>): Row<L> {
    Row(f(r.key), r.value, r.time)
  }

  function MapRows<K, L>(f: K -> L, rows: seq<Row<K>>): (r: seq<Row<L>>)
    ensures |r| == |rows|
  {
    seq(|rows|, i requires 0 <= i < |rows| => MapRow(f, rows[i]))
  }

  function MapGroup<K, L>(f: K -> L, g: Group<K>): Group<L> {
    Group(f(g.key), g.values, g.times)
  }

  function MapGroups<K, L>(f: K -> L, gs: seq<Group<K>>): (r: seq<Group<L>>)
    ensures |r| == |gs|
  {
    seq(|gs|, i requires 0 <= i < |gs| => MapGroup(f, gs[i]))
  }

  lemma {:induction false} MatchingMap<K, L>(f: K -> L, rows: seq<Row<K>>, key: K)
    requires forall i :: 0 <= i < |rows| && f(rows[i].key) == f(key) ==> rows[i].key == key
    ensures Matching(MapRows(f, rows), f(key)) == MapRows(f, Matching(rows, key))
  {
    if rows != [] {
      var n := |rows| - 1;
      MatchingMap(f, rows[..n], key);
      assert MapRows(f, rows)[..n] == MapRows(f, rows[..n]);
      assert MapRows(f, rows)[n] == MapRow(f, rows[n]);
    }
  }

  lemma GroupMeaning<K, L>(f: K -> L, gs: seq<Group<K>>, rows: seq<Row<K>>, j: nat)
    requires GroupedBy(gs, rows) && j < |gs|
    requires forall j, k :: 0 <= j < |gs| && 0 <= k < |gs| && f(gs[j].key) == f(gs[k].key) ==> gs[j].key == gs[k].key
    ensures var h := MapGroup(f, gs[j]);
            Aligned(h) && h.key == f(gs[j].key) && RowsOf(h) == Matching(MapRows(f, rows), h.key)
  {
    forall i | 0 <= i < |rows| && f(rows[i].key) == f(gs[j].key)
      ensures rows[i].key == gs[j].key
    {
      assert HasGroup(gs, rows[i].key);
      var k :| 0 <= k < |gs| && gs[k].key == rows[i].key;
    }
    MatchingMap(f, rows, gs[j].key);
    assert RowsOf(MapGroup(f, gs[j])) == MapRows(f, RowsOf(gs[j]));
  }

  lemma RowMeaning<K, L>(f: K -> L, gs: seq<Group<K>>, rows: seq<Row<K>>, i: nat)
    requires GroupedBy(gs, rows) && i < |rows|
    ensures HasGroup(MapGroups(f, gs), MapRows(f, rows)[i].key)
  {
    assert HasGroup(gs, rows[i].key);
    var j :| 0 <= j < |gs| && gs[j].key == rows[i].key;
    assert MapGroups(f, gs)[j] == MapGroup(f, gs[j]) && MapRows(f, rows)[i] == MapRow(f, rows[i]);
  }

  lemma GroupedMeaning<K, L>(f: K -> L, gs: seq<Group<K>>, rows: seq<Row<K>>)
    requires GroupedBy(gs, rows)
    requires forall j, k :: 0 <= j < |gs| && 0 <= k < |gs| && f(gs[j].key) == f(gs[k].key) ==> gs[j].key == gs[k].key
    ensures GroupedBy(MapGroups(f, gs), MapRows(f, rows))
  {
    var hs, more := MapGroups(f, gs), MapRows(f, rows);
    forall j | 0 <= j < |hs|
      ensures Aligned(hs[j]) && hs[j].key == f(gs[j].key) && RowsOf(hs[j]) == Matching(more, hs[j].key)
    {
      GroupMeaning(f, gs, rows, j);
      assert hs[j] == MapGroup(f, gs[j]);
    }
    assert forall j, k :: 0 <= j < k < |hs| ==> gs[j].key != gs[k].key;
    forall i | 0 <= i < |more|
      ensures HasGroup(hs, more[i].key)
    {
      RowMeaning(f, gs, rows, i);
    }
    hide Aligned, HasGroup, RowsOf, Matching, MapGroups, MapRows;
  }
}
