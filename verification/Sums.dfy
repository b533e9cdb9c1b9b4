/** Sums over rows, and over the groups a query makes of them. */
module Sums {

  datatype Cell<K> = Cell(key: K, value: int)

  function SumOf<K>(cells: seq<Cell<K>>, keep: K -> bool): int {
    if cells == [] then 0
    else
      var c := cells[|cells| - 1];
      SumOf(cells[..|cells| - 1], keep) + (if keep(c.key) then c.value else 0)
  }

  function Is<K(==)>(key: K): K -> bool { k => k == key }

  function Others<K(==)>(cells: seq<Cell<K>>, key: K): seq<Cell<K>> {
    if cells == [] then []
    else
      var c := cells[|cells| - 1];
      Others(cells[..|cells| - 1], key) + (if c.key == key then [] else [c])
  }

  /** Each key once, with the sum of its rows, and no row's key missing. A key
      without rows may be there too, with zero. */
  ghost predicate Covers<K(!new)>(gs: seq<Cell<K>>, rows: seq<Cell<K>>) {
    && (forall i, j | 0 <= i < j < |gs| :: gs[i].key != gs[j].key)
    && (forall g | g in gs :: g.value == SumOf(rows, Is(g.key)))
    && (forall r | r in rows :: exists g | g in gs :: g.key == r.key)
  }

  /** The rows of a GROUP BY: it covers, and has no key without a row. */
  ghost predicate Grouped<K(!new)>(gs: seq<Cell<K>>, rows: seq<Cell<K>>) {
    Covers(gs, rows) && forall g | g in gs :: exists r | r in rows :: r.key == g.key
  }

  lemma SumStep<K>(cells: seq<Cell<K>>, c: Cell<K>, keep: K -> bool)
    ensures SumOf(cells + [c], keep) == SumOf(cells, keep) + (if keep(c.key) then c.value else 0)
  {
    assert (cells + [c])[..|cells|] == cells;
  }

  lemma {:induction false} SplitSum<K(!new)>(rows: seq<Cell<K>>, key: K, keep: K -> bool)
    ensures SumOf(rows, keep) == SumOf(Others(rows, key), keep) + (if keep(key) then SumOf(rows, Is(key)) else 0)
  {
    if rows != [] {
      var front, c := rows[..|rows| - 1], rows[|rows| - 1];
      SplitSum(front, key, keep);
      if c.key != key { SumStep(Others(front, key), c, keep); }
      else { assert Others(rows, key) == Others(front, key); }
    }
  }

  lemma {:induction false} OthersMembers<K>(rows: seq<Cell<K>>, key: K)
    ensures forall r :: r in Others(rows, key) <==> r in rows && r.key != key
  {
    if rows != [] {
      var front, c := rows[..|rows| - 1], rows[|rows| - 1];
      OthersMembers(front, key);
      assert rows == front + [c];
    }
  }

  lemma CoversOthers<K(!new)>(gs: seq<Cell<K>>, rows: seq<Cell<K>>)
    requires gs != [] && Covers(gs, rows)
    ensures Covers(gs[..|gs| - 1], Others(rows, gs[|gs| - 1].key))
  {
    var front, last := gs[..|gs| - 1], gs[|gs| - 1];
    var rest := Others(rows, last.key);
    OthersMembers(rows, last.key);
    forall g | g in front ensures g.value == SumOf(rest, Is(g.key)) {
      SplitSum(rows, last.key, Is(g.key));
      assert g in gs;
    }
    forall r | r in rest ensures exists g | g in front :: g.key == r.key {
      var g :| g in gs && g.key == r.key;
      assert g in front;
    }
  }

  /** Summing groups is summing rows, whatever part of the keys is kept. */
  lemma {:induction false} GroupsSumAlike<K(!new)>(gs: seq<Cell<K>>, rows: seq<Cell<K>>, keep: K -> bool)
    requires Covers(gs, rows)
    ensures SumOf(gs, keep) == SumOf(rows, keep)
  {
    if gs == [] {
      NoRows(gs, rows);
    } else {
      var last := gs[|gs| - 1];
      CoversOthers(gs, rows);
      GroupsSumAlike(gs[..|gs| - 1], Others(rows, last.key), keep);
      SplitSum(rows, last.key, keep);
      assert last in gs;
    }
  }

  lemma NoRows<K(!new)>(gs: seq<Cell<K>>, rows: seq<Cell<K>>)
    requires Covers(gs, rows)
    ensures rows != [] ==> gs != []
  {
    if rows != [] {
      assert rows[0] in rows;
      var g :| g in gs && g.key == rows[0].key;
    }
  }

  lemma {:induction false} SumSame<K(!new)>(cells: seq<Cell<K>>, a: K -> bool, b: K -> bool)
    requires forall c | c in cells :: a(c.key) == b(c.key)
    ensures SumOf(cells, a) == SumOf(cells, b)
  {
    if cells != [] {
      assert cells == cells[..|cells| - 1] + [cells[|cells| - 1]];
      SumSame(cells[..|cells| - 1], a, b);
    }
  }

  lemma {:induction false} SumNone<K(!new)>(cells: seq<Cell<K>>, keep: K -> bool)
    requires forall c | c in cells :: !keep(c.key)
    ensures SumOf(cells, keep) == 0
  {
    if cells != [] {
      assert cells == cells[..|cells| - 1] + [cells[|cells| - 1]];
      SumNone(cells[..|cells| - 1], keep);
    }
  }
}
