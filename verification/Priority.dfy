/** The order in which enabled instances are tried, moved through two views: the list of enabled rows and the list of
    all rows. */
module Priority {
  import opened Options

  datatype Row = Row(id: string, enabled: bool, settings: string)

  /** `rows.filter((r) => r.enabled)` */
  function Enabled(rows: seq<Row>): seq<Row> {
    if rows == [] then []
    else Enabled(rows[..|rows| - 1]) + if rows[|rows| - 1].enabled then [rows[|rows| - 1]] else []
  }

  /** `rows.findIndex((r) => r.id === id)` */
  function FindIndex(rows: seq<Row>, id: string): (p: Option<nat>)
    ensures p.Some? ==> p.value < |rows| && rows[p.value].id == id
    ensures p.None? ==> forall i :: 0 <= i < |rows| ==> rows[i].id != id
  {
    if rows == [] then None
    else
      var front := FindIndex(rows[..|rows| - 1], id);
      if front.Some? then front
      else if rows[|rows| - 1].id == id then Some(|rows| - 1)
      else
        assert forall i :: 0 <= i < |rows| - 1 ==> rows[i] == rows[..|rows| - 1][i];
        None
  }

  ghost predicate DistinctIds(rows: seq<Row>) {
    forall i, j :: 0 <= i < j < |rows| ==> rows[i].id != rows[j].id
  }

  function Swap<T>(s: seq<T>, i: nat, j: nat): (r: seq<T>)
    requires i < |s| && j < |s|
    ensures |r| == |s|
  {
    s[i := s[j]][j := s[i]]
  }

  // ---- the handlers ----

  /** `move`: one step up (-1) or down (1) among the enabled rows. */
  method Move(rows: seq<Row>, idx: nat, dir: int) returns (next: seq<Row>)
    requires idx < |Enabled(rows)| && (dir == 1 || dir == -1)
    ensures multiset(next) == multiset(rows)
    ensures !(0 <= idx + dir < |Enabled(rows)|) ==> next == rows
    ensures DistinctIds(rows) && 0 <= idx + dir < |Enabled(rows)| ==>
              Enabled(next) == Swap(Enabled(rows), idx, idx + dir) && DisabledStay(rows, next)
  {
    var enabledRows := Enabled(rows);
    var target := idx + dir;
    if target < 0 || target >= |enabledRows| { return rows; }
    var a, b := enabledRows[idx].id, enabledRows[target].id;
    var ia, ib := FindIndex(rows, a), FindIndex(rows, b);
    if ia.None? || ib.None? {
      next := rows;
    } else {
      next := rows;
      next := next[ia.value := rows[ib.value]][ib.value := rows[ia.value]];
    }
    if DistinctIds(rows) {
      FoundAtItsRank(rows, idx);
      FoundAtItsRank(rows, target);
      SwapMovesRanks(rows, ia.value, ib.value);
    }
  }

  /** `moveInstance`: one step among all rows. The priority order changes exactly when the row and its neighbour in
      that direction are both enabled, and then by swapping the two, which are neighbours in it. */
  method MoveInstance(rows: seq<Row>, id: string, dir: int) returns (next: seq<Row>)
    requires dir == 1 || dir == -1
    ensures multiset(next) == multiset(rows)
    ensures var p := FindIndex(rows, id);
            if p.Some? && 0 <= p.value + dir < |rows| then next == Swap(rows, p.value, p.value + dir) else next == rows
    ensures DistinctIds(rows) ==> (Enabled(next) != Enabled(rows) <==> BothEnabled(rows, FindIndex(rows, id), dir))
    ensures DistinctIds(rows) && Enabled(next) != Enabled(rows) ==>
              var p := FindIndex(rows, id).value;
              var r := Rank(rows, if dir == 1 then p else p - 1);
              r + 1 < |Enabled(rows)| && Enabled(next) == Swap(Enabled(rows), r, r + 1)
  {
    hide Enabled, FindIndex, DistinctIds, Rank;
    var i := FindIndex(rows, id);
    if i.None? || i.value + dir < 0 || i.value + dir >= |rows| { return rows; }
    var j := i.value + dir;
    next := rows;
    next := next[i.value := rows[j]][j := rows[i.value]];
    SwapEitherWay(rows, i.value, j);
    if DistinctIds(rows) { StepAmongAllRows(rows, if dir == 1 then i.value else j); }
  }

  lemma {:induction false} SwapEitherWay<T>(rows: seq<T>, p: nat, q: nat)
    requires p < |rows| && q < |rows|
    ensures Swap(rows, p, q) == Swap(rows, q, p) && multiset(Swap(rows, p, q)) == multiset(rows)
  {
    assert Swap(rows, p, q) == Swap(rows, q, p);
  }

  /** The row found and its neighbour in that direction both take part in the priority order. */
  predicate BothEnabled(rows: seq<Row>, p: Option<nat>, dir: int)
    requires p.Some? ==> p.value < |rows|
  {
    p.Some? && 0 <= p.value + dir < |rows| && rows[p.value].enabled && rows[p.value + dir].enabled
  }

  // ---- what the moves do to the priority order ----

  /** Disabled rows keep their places, and no other row takes one. */
  ghost predicate DisabledStay(rows: seq<Row>, next: seq<Row>) {
    |next| == |rows|
    && forall p :: 0 <= p < |rows| ==>
         next[p].enabled == rows[p].enabled && (!rows[p].enabled ==> next[p] == rows[p])
  }

  /** How many enabled rows come before place p. */
  function Rank(rows: seq<Row>, p: nat): nat
    requires p <= |rows|
  {
    |Enabled(rows[..p])|
  }

  lemma {:induction false} EnabledAdds(a: seq<Row>, b: seq<Row>)
    ensures Enabled(a + b) == Enabled(a) + Enabled(b)
    decreases |b|
  {
    if b == [] {
      assert a + b == a;
    } else {
      assert (a + b)[..|a + b| - 1] == a + b[..|b| - 1];
      EnabledAdds(a, b[..|b| - 1]);
    }
  }

  lemma {:induction false} RankIsPlace(rows: seq<Row>, p: nat)
    requires p < |rows| && rows[p].enabled
    ensures Rank(rows, p) < |Enabled(rows)| && Enabled(rows)[Rank(rows, p)] == rows[p]
  {
    assert rows == rows[..p] + ([rows[p]] + rows[p + 1..]);
    EnabledAdds(rows[..p], [rows[p]] + rows[p + 1..]);
    EnabledAdds([rows[p]], rows[p + 1..]);
    assert Enabled([rows[p]]) == [rows[p]] by { assert [rows[p]][..0] == []; }
  }

  /** Every enabled row has a place. */
  lemma {:induction false} PlaceOfRank(rows: seq<Row>, k: nat) returns (p: nat)
    requires k < |Enabled(rows)|
    ensures p < |rows| && rows[p].enabled && Rank(rows, p) == k && Enabled(rows)[k] == rows[p]
  {
    var front := rows[..|rows| - 1];
    if k < |Enabled(front)| {
      p := PlaceOfRank(front, k);
      assert rows[..p] == front[..p];
    } else {
      p := |rows| - 1;
    }
  }

  /** With distinct ids, looking an enabled row up by its id finds its own place. */
  lemma {:induction false} FoundAtItsRank(rows: seq<Row>, k: nat)
    requires DistinctIds(rows) && k < |Enabled(rows)|
    ensures var p := FindIndex(rows, Enabled(rows)[k].id);
            p.Some? && rows[p.value].enabled && Rank(rows, p.value) == k
  {
    var p := PlaceOfRank(rows, k);
    FoundAtItsPlace(rows, p);
  }

  /** What is enabled among rows cut into five pieces. */
  lemma {:induction false} EnabledOfFive(a: seq<Row>, x: Row, b: seq<Row>, y: Row, c: seq<Row>)
    ensures Enabled(a + [x] + b + [y] + c)
            == Enabled(a) + (if x.enabled then [x] else []) + Enabled(b) + (if y.enabled then [y] else []) + Enabled(c)
  {
    EnabledAdds(a, [x]);
    EnabledAdds(a + [x], b);
    EnabledAdds(a + [x] + b, [y]);
    EnabledAdds(a + [x] + b + [y], c);
    assert [x][..0] == [] && [y][..0] == [];
  }

  /** Swapping two enabled places swaps their ranks and nothing else. */
  lemma {:induction false} SwapMovesRanks(rows: seq<Row>, p: nat, q: nat)
    requires p < |rows| && q < |rows| && rows[p].enabled && rows[q].enabled
    ensures Rank(rows, p) < |Enabled(rows)| && Rank(rows, q) < |Enabled(rows)|
    ensures Enabled(Swap(rows, p, q)) == Swap(Enabled(rows), Rank(rows, p), Rank(rows, q))
    ensures DisabledStay(rows, Swap(rows, p, q)) && multiset(Swap(rows, p, q)) == multiset(rows)
  {
    hide Enabled;
    RankIsPlace(rows, p);
    RankIsPlace(rows, q);
    if p < q {
      SwapAscending(rows, p, q);
    } else if q < p {
      SwapAscending(rows, q, p);
      SwapEitherWay(rows, p, q);
      SwapEitherWay(Enabled(rows), Rank(rows, p), Rank(rows, q));
    } else {
      assert Swap(rows, p, q) == rows;
    }
  }

  lemma {:induction false} SwapAscending(rows: seq<Row>, p: nat, q: nat)
    requires p < q < |rows| && rows[p].enabled && rows[q].enabled
    requires Rank(rows, p) < |Enabled(rows)| && Rank(rows, q) < |Enabled(rows)|
    ensures Enabled(Swap(rows, p, q)) == Swap(Enabled(rows), Rank(rows, p), Rank(rows, q))
  {
    hide Enabled;
    var a, x, b, y, c := rows[..p], rows[p], rows[p + 1..q], rows[q], rows[q + 1..];
    assert rows == a + [x] + b + [y] + c;
    assert Swap(rows, p, q) == a + [y] + b + [x] + c;
    EnabledOfFive(a, x, b, y, c);
    EnabledOfFive(a, y, b, x, c);
    assert rows[..q] == a + ([x] + b);
    RankAfter(a, x, b);
  }

  lemma {:induction false} RankAfter(a: seq<Row>, x: Row, b: seq<Row>)
    requires x.enabled
    ensures |Enabled(a + ([x] + b))| == |Enabled(a)| + 1 + |Enabled(b)|
  {
    EnabledAdds(a, [x] + b);
    EnabledAdds([x], b);
    assert [x][..0] == [];
  }

  lemma {:induction false} NeighboursSwap(rows: seq<Row>, p: nat)
    requires p + 1 < |rows| && rows[p].enabled && rows[p + 1].enabled && rows[p] != rows[p + 1]
    ensures var next, r := Swap(rows, p, p + 1), Rank(rows, p);
            r + 1 < |Enabled(rows)| && Enabled(next) == Swap(Enabled(rows), r, r + 1) && Enabled(next) != Enabled(rows)
  {
    hide Enabled, DisabledStay;
    SwapMovesRanks(rows, p, p + 1);
    RankIsPlace(rows, p);
    RankIsPlace(rows, p + 1);
    NextRank(rows, p);
    var r := Rank(rows, p);
    assert Swap(Enabled(rows), r, r + 1)[r] == rows[p + 1];
  }

  lemma {:induction false} NextRank(rows: seq<Row>, p: nat)
    requires p < |rows|
    ensures Rank(rows, p + 1) == Rank(rows, p) + if rows[p].enabled then 1 else 0
  {
    assert rows[..p + 1][..p] == rows[..p];
  }

  lemma {:induction false} NotBothEnabled(rows: seq<Row>, p: nat)
    requires p + 1 < |rows| && !(rows[p].enabled && rows[p + 1].enabled)
    ensures Enabled(Swap(rows, p, p + 1)) == Enabled(rows)
  {
    hide Enabled;
    var a, x, y, c := rows[..p], rows[p], rows[p + 1], rows[p + 2..];
    assert rows == a + [x] + [] + [y] + c;
    assert Swap(rows, p, p + 1) == a + [y] + [] + [x] + c;
    EnabledOfFive(a, x, [], y, c);
    EnabledOfFive(a, y, [], x, c);
    NoneEnabled();
  }

  lemma {:induction false} NoneEnabled()
    ensures Enabled([]) == []
  {
  }

  /** A step among all rows swaps two neighbours of the priority order exactly when both rows are enabled, and leaves
      the order alone otherwise. */
  lemma {:induction false} StepAmongAllRows(rows: seq<Row>, p: nat)
    requires p + 1 < |rows| && DistinctIds(rows)
    ensures var next, r := Swap(rows, p, p + 1), Rank(rows, p);
            (Enabled(next) != Enabled(rows) <==> rows[p].enabled && rows[p + 1].enabled)
            && (rows[p].enabled && rows[p + 1].enabled ==>
                  r + 1 < |Enabled(rows)| && Enabled(next) == Swap(Enabled(rows), r, r + 1))
  {
    hide Enabled, Swap;
    if rows[p].enabled && rows[p + 1].enabled { NeighboursSwap(rows, p); } else { NotBothEnabled(rows, p); }
  }

  /** A step past a disabled neighbour moves the row in the list and nothing in the priority order. */
  lemma {:induction false} StepPastADisabledRow(on: Row, off: Row)
    requires on.enabled && !off.enabled
    ensures Swap([on, off], 0, 1) == [off, on] != [on, off]
    ensures Enabled([off, on]) == Enabled([on, off]) == [on]
  {
    assert Swap([on, off], 0, 1) == [off, on];
    NotBothEnabled([on, off], 0);
    EnabledOfFive([], on, [], off, []);
    assert [] + [on] + [] + [off] + [] == [on, off];
    NoneEnabled();
    assert [off, on][0] != [on, off][0];
  }

  lemma {:induction false} FoundAtItsPlace(rows: seq<Row>, p: nat)
    requires DistinctIds(rows) && p < |rows|
    ensures FindIndex(rows, rows[p].id) == Some(p)
  {
  }

  lemma {:induction false} SwapKeepsDistinct(rows: seq<Row>, p: nat, q: nat)
    requires DistinctIds(rows) && p < |rows| && q < |rows|
    ensures DistinctIds(Swap(rows, p, q))
  {
  }

  /** The opposite step puts everything back. */
  lemma {:induction false} StepsBackAndForth(rows: seq<Row>, id: string, p: nat)
    requires DistinctIds(rows) && FindIndex(rows, id) == Some(p) && p + 1 < |rows|
    ensures var down := Swap(rows, p, p + 1);
            FindIndex(down, id) == Some(p + 1) && Swap(down, p + 1, p) == rows
  {
    var down := Swap(rows, p, p + 1);
    SwapKeepsDistinct(rows, p, p + 1);
    FoundAtItsPlace(down, p + 1);
  }
}
