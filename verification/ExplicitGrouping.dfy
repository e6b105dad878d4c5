/** Grouping by the stored `turn_group_number`, the choice between it and the
    positional grouping, and how the two relate. */
module ExplicitGrouping {
  import opened Seqs
  import opened CanonicalRows
  import opened PositionalGrouping

  ghost function Numbers(rows: seq<Row>): set<int> {
    set r | r in rows :: NumberOf(r)
  }

  ghost function PairsOf(keys: seq<int>, rows: seq<Row>): seq<(int, seq<Row>)> {
    if keys == [] then [] else [(keys[0], RowsOf(rows, keys[0]))] + PairsOf(keys[1..], rows)
  }

  /** Ascending group numbers, each with its rows in their original order. */
  ghost function ByNumber(rows: seq<Row>): seq<(int, seq<Row>)> {
    PairsOf(Sorted(Numbers(rows)), rows)
  }

  predicate AllNumbered(rows: seq<Row>) {
    forall r :: r in rows ==> NumberOf(r) >= 0
  }

  /** Stored numbers are used only when every row has one. */
  ghost function Grouped(rows: seq<Row>): seq<(int, seq<Row>)> {
    if rows != [] && AllNumbered(rows) then ByNumber(rows) else Numbered(Groups(rows))
  }

  lemma {:induction false} PairsOfAt(keys: seq<int>, rows: seq<Row>)
    ensures |PairsOf(keys, rows)| == |keys|
    ensures forall i :: 0 <= i < |keys| ==> PairsOf(keys, rows)[i] == (keys[i], RowsOf(rows, keys[i]))
  {
    if keys != [] {
      PairsOfAt(keys[1..], rows);
    }
  }

  /** `sorted` on dictionary keys. */
  method SortKeys(keys: set<int>) returns (r: seq<int>)
    ensures r == Sorted(keys)
  {
    var todo := keys;
    r := [];
    while todo != {}
      invariant Ascending(r)
      invariant todo <= keys
      invariant forall x :: x in r <==> x in keys - todo
      invariant forall x, y :: x in r && y in todo ==> x < y
    {
      LeastExists(todo);
      var m :| m in todo && forall x :: x in todo ==> m <= x;
      assert forall i :: 0 <= i < |r| ==> r[i] in r;
      todo := todo - {m};
      r := r + [m];
    }
    AscendingUnique(r, Sorted(keys));
  }

  ghost predicate DictOf(d: map<int, seq<Row>>, rows: seq<Row>) {
    && d.Keys == Numbers(rows)
    && forall k :: k in d ==> d[k] == RowsOf(rows, k)
  }

  /** `setdefault(number, []).append(row)` */
  function SetDefaultAppend(d: map<int, seq<Row>>, row: Row): map<int, seq<Row>> {
    var n := NumberOf(row);
    d[n := (if n in d then d[n] else []) + [row]]
  }

  lemma NumbersSnoc(done: seq<Row>, row: Row)
    ensures Numbers(done + [row]) == Numbers(done) + {NumberOf(row)}
  {
    assert forall r :: r in done + [row] <==> r in done || r == row;
  }

  lemma UnknownNumber(done: seq<Row>, k: int)
    requires k !in Numbers(done)
    ensures RowsOf(done, k) == []
  {
    RowsOfMembers(done, k);
    NoneMeansEmpty(RowsOf(done, k));
  }

  lemma DictStep(d: map<int, seq<Row>>, done: seq<Row>, row: Row)
    requires DictOf(d, done)
    ensures DictOf(SetDefaultAppend(d, row), done + [row])
  {
    var d' := SetDefaultAppend(d, row);
    NumbersSnoc(done, row);
    forall k | k in d' ensures d'[k] == RowsOf(done + [row], k) {
      RowsOfSnoc(done, row, k);
      if k !in d {
        UnknownNumber(done, k);
      }
    }
  }

  /** The dictionary pass, then the items sorted by number. */
  method GroupByNumber(rows: seq<Row>) returns (pairs: seq<(int, seq<Row>)>)
    ensures pairs == ByNumber(rows)
  {
    var grouped: map<int, seq<Row>> := map[];
    for i := 0 to |rows|
      invariant DictOf(grouped, rows[..i])
    {
      DictStep(grouped, rows[..i], rows[i]);
      assert rows[..i + 1] == rows[..i] + [rows[i]];
      grouped := SetDefaultAppend(grouped, rows[i]);
    }
    assert rows[..|rows|] == rows;
    pairs := SortedItems(grouped, rows);
  }

  method SortedItems(grouped: map<int, seq<Row>>, ghost rows: seq<Row>) returns (pairs: seq<(int, seq<Row>)>)
    requires DictOf(grouped, rows)
    ensures pairs == ByNumber(rows)
  {
    var keys := SortKeys(grouped.Keys);
    pairs := [];
    for i := 0 to |keys|
      invariant |pairs| == i
      invariant forall j :: 0 <= j < i ==> pairs[j] == (keys[j], RowsOf(rows, keys[j]))
    {
      assert keys[i] in keys;
      pairs := pairs + [(keys[i], grouped[keys[i]])];
    }
    PairsOfAt(keys, rows);
  }

  method GroupCanonicalRows(rows: seq<Row>) returns (pairs: seq<(int, seq<Row>)>)
    ensures pairs == Grouped(rows)
  {
    if rows != [] && forall r :: r in rows ==> NumberOf(r) >= 0 {
      pairs := GroupByNumber(rows);
    } else {
      pairs := GroupByPosition(rows);
    }
  }

  // ---- group numbers ascend, whichever way they were made ----

  predicate AscendingPairs(pairs: seq<(int, seq<Row>)>) {
    forall i, j :: 0 <= i < j < |pairs| ==> pairs[i].0 < pairs[j].0
  }

  lemma GroupedAscends(rows: seq<Row>)
    ensures AscendingPairs(Grouped(rows))
    ensures forall p :: p in Grouped(rows) ==> p.0 >= 0 && p.1 != []
    ensures forall p, r :: p in Grouped(rows) && r in p.1 ==> r in rows
  {
    if rows != [] && AllNumbered(rows) {
      NumbersAscend(rows);
    } else {
      PositionsAscend(rows);
    }
  }

  lemma NumbersAscend(rows: seq<Row>)
    requires AllNumbered(rows)
    ensures AscendingPairs(ByNumber(rows))
    ensures forall p :: p in ByNumber(rows) ==> p.0 >= 0 && p.1 != []
    ensures forall p, r :: p in ByNumber(rows) && r in p.1 ==> r in rows
  {
    var keys := Sorted(Numbers(rows));
    PairsOfAt(keys, rows);
    forall p | p in ByNumber(rows) ensures p.0 >= 0 && p.1 != [] && forall r :: r in p.1 ==> r in rows {
      var i :| 0 <= i < |keys| && ByNumber(rows)[i] == p;
      assert keys[i] in Numbers(rows);
      var r :| r in rows && NumberOf(r) == keys[i];
      RowsOfMembers(rows, keys[i]);
      assert r in p.1;
    }
  }

  lemma PositionsAscend(rows: seq<Row>)
    ensures AscendingPairs(Numbered(Groups(rows)))
    ensures forall p :: p in Numbered(Groups(rows)) ==> p.0 >= 0 && p.1 != []
    ensures forall p, r :: p in Numbered(Groups(rows)) && r in p.1 ==> r in rows
  {
    NumberedFromAt(0, Groups(rows));
    GroupShapes(rows);
    GroupMembers(rows);
    forall p | p in Numbered(Groups(rows)) ensures p.0 >= 0 && p.1 in Groups(rows) {
      var i :| 0 <= i < |Groups(rows)| && Numbered(Groups(rows))[i] == p;
    }
  }

  // ---- stamping positional numbers and regrouping ----

  function StampedGroups(gs: seq<seq<Row>>): seq<seq<Row>> {
    seq(|gs|, i requires 0 <= i < |gs| => StampedGroup(gs[i], i))
  }

  function Upto(n: nat): (r: seq<int>)
    ensures |r| == n && forall i :: 0 <= i < n ==> r[i] == i
  {
    seq(n, i => i)
  }

  lemma SortedUpto(s: set<int>, n: nat)
    requires forall x :: x in s <==> 0 <= x < n
    ensures Sorted(s) == Upto(n)
  {
    forall x ensures x in Upto(n) <==> 0 <= x < n {
      if 0 <= x < n { assert Upto(n)[x] == x; }
    }
    AscendingUnique(Sorted(s), Upto(n));
  }

  lemma StampNumbers(rows: seq<Row>)
    ensures forall k :: k in Numbers(Stamp(rows)) <==> 0 <= k < |Groups(rows)|
  {
    StampIsGrouping(rows);
    GroupShapes(rows);
    var s, gs := Stamp(rows), Groups(rows);
    forall k | 0 <= k < |gs| ensures k in Numbers(s) {
      assert gs[k] in gs;
      RowsOfMembers(s, k);
      assert StampedGroup(gs[k], k)[0] in RowsOf(s, k);
    }
  }

  lemma StampPairs(rows: seq<Row>)
    ensures PairsOf(Upto(|Groups(rows)|), Stamp(rows)) == Numbered(StampedGroups(Groups(rows)))
  {
    var gs := Groups(rows);
    StampIsGrouping(rows);
    PairsOfAt(Upto(|gs|), Stamp(rows));
    NumberedFromAt(0, StampedGroups(gs));
    forall k | 0 <= k < |gs|
      ensures PairsOf(Upto(|gs|), Stamp(rows))[k] == Numbered(StampedGroups(gs))[k]
    {
    }
  }

  /** Storing positional numbers on the rows and grouping by them gives the
      positional groups back, in the same order and under the same numbers. */
  lemma StampRegroups(rows: seq<Row>)
    ensures Grouped(Stamp(rows)) == Numbered(StampedGroups(Groups(rows)))
  {
    var s, n := Stamp(rows), |Groups(rows)|;
    StampNumbers(rows);
    SortedUpto(Numbers(s), n);
    StampPairs(rows);
    if s == [] {
      assert 0 !in Numbers(s);
      assert n == 0;
    } else {
      StampIsGrouping(rows);
    }
  }

  // ---- the groups, read off the stored numbers ----

  lemma {:induction false} RowsOfIsFilter(rows: seq<Row>, k: int)
    requires k >= 0
    ensures RowsOf(rows, k) == Filter(rows, (r: Row) => r.group == Some(k))
  {
    if rows != [] {
      RowsOfIsFilter(rows[1..], k);
    }
  }

  predicate EveryRowNumbered(rows: seq<Row>) {
    forall i :: 0 <= i < |rows| ==> rows[i].group.Some? && rows[i].group.value >= 0
  }

  /** When every row has a number that is not negative, each number is listed
      once, in ascending order, with its rows; otherwise the groups are the
      positional ones, counted from 0. */
  lemma GroupedExactly(rows: seq<Row>)
    ensures AscendingPairs(Grouped(rows))
    ensures EveryRowNumbered(rows) ==>
              forall k, g :: (k, g) in Grouped(rows) <==>
                (exists i :: 0 <= i < |rows| && rows[i].group == Some(k)) && g == Filter(rows, (r: Row) => r.group == Some(k))
    ensures !EveryRowNumbered(rows) ==>
              |Grouped(rows)| == |Groups(rows)| && forall k :: 0 <= k < |Groups(rows)| ==> Grouped(rows)[k] == (k, Groups(rows)[k])
  {
    GroupedAscends(rows);
    assert forall i :: 0 <= i < |rows| ==> rows[i] in rows;
    if EveryRowNumbered(rows) {
      if rows != [] {
        assert Grouped(rows) == ByNumber(rows);
      }
      forall k, g
        ensures (k, g) in Grouped(rows) <==>
                (exists i :: 0 <= i < |rows| && rows[i].group == Some(k)) && g == Filter(rows, (r: Row) => r.group == Some(k))
      {
        PairIn(rows, k, g);
      }
    } else {
      NumberedFromAt(0, Groups(rows));
    }
  }

  lemma PairIn(rows: seq<Row>, k: int, g: seq<Row>)
    requires EveryRowNumbered(rows)
    ensures rows != [] ==> AllNumbered(rows)
    ensures (k, g) in Grouped(rows) <==>
            (exists i :: 0 <= i < |rows| && rows[i].group == Some(k)) && g == Filter(rows, (r: Row) => r.group == Some(k))
  {
    NumberStored(rows, k);
    if k >= 0 {
      RowsOfIsFilter(rows, k);
    }
    if rows != [] {
      PairListed(rows, k, g);
    }
  }

  lemma NumberStored(rows: seq<Row>, k: int)
    requires EveryRowNumbered(rows)
    ensures k in Numbers(rows) <==> exists i :: 0 <= i < |rows| && rows[i].group == Some(k)
    ensures k in Numbers(rows) ==> k >= 0
  {
    if k in Numbers(rows) {
      var r :| r in rows && NumberOf(r) == k;
      var i :| 0 <= i < |rows| && rows[i] == r;
      assert rows[i].group == Some(k);
    }
    if i :| 0 <= i < |rows| && rows[i].group == Some(k) {
      assert rows[i] in rows;
    }
  }

  lemma PairListed(rows: seq<Row>, k: int, g: seq<Row>)
    requires rows != [] && AllNumbered(rows)
    ensures (k, g) in Grouped(rows) <==> k in Numbers(rows) && g == RowsOf(rows, k)
  {
    var keys := Sorted(Numbers(rows));
    PairsOfAt(keys, rows);
    if (k, g) in Grouped(rows) {
      var i :| 0 <= i < |keys| && PairsOf(keys, rows)[i] == (k, g);
      assert keys[i] in keys;
    }
    if k in Numbers(rows) && g == RowsOf(rows, k) {
      var i :| 0 <= i < |keys| && keys[i] == k;
      assert PairsOf(keys, rows)[i] == (k, g);
    }
  }
}
