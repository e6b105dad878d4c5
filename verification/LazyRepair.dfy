/** The stores' one-shot repair of legacy rows: it numbers every row, by
    non-blank halves, and so counts content-free rows as groups. */
module LazyRepair {
  import opened Seqs
  import opened Text
  import opened CanonicalRows
  import opened PositionalGrouping
  import opened ExplicitGrouping

  predicate UserHalf(r: Row) { !Blank(r.user) && Blank(r.assistant) }

  predicate AssistantHalf(r: Row) { Blank(r.user) && !Blank(r.assistant) }

  predicate TakesNumber(rows: seq<Row>, i: nat)
    requires i < |rows|
  {
    !(i > 0 && UserHalf(rows[i - 1]) && AssistantHalf(rows[i]))
  }

  function Taken(rows: seq<Row>): nat {
    if rows == [] then 0
    else Taken(rows[..|rows| - 1]) + if TakesNumber(rows, |rows| - 1) then 1 else 0
  }

  function Repaired(rows: seq<Row>): seq<Row> {
    if rows == [] then []
    else Repaired(rows[..|rows| - 1]) + [Stamped(rows[|rows| - 1], Taken(rows) - 1)]
  }

  /** What the stores read after the repair; nothing happens once any row is
      numbered. */
  function AfterRepair(rows: seq<Row>): seq<Row> {
    if exists x :: x in rows && NumberOf(x) >= 0 then rows else Repaired(rows)
  }

  lemma TakenSnoc(rows: seq<Row>, i: nat)
    requires i < |rows|
    ensures Taken(rows[..i + 1]) == Taken(rows[..i]) + if TakesNumber(rows, i) then 1 else 0
    ensures Repaired(rows[..i + 1]) == Repaired(rows[..i]) + [Stamped(rows[i], Taken(rows[..i + 1]) - 1)]
  {
    var next := rows[..i + 1];
    assert next[..i] == rows[..i] && next[i] == rows[i];
    assert i > 0 ==> next[i - 1] == rows[i - 1];
  }

  /** `_backfill_all_legacy_groups` */
  method RepairLegacyGroups(rows: seq<Row>) returns (r: seq<Row>)
    ensures r == AfterRepair(rows)
  {
    if exists x :: x in rows && NumberOf(x) >= 0 {
      return rows;
    }
    r := [];
    var current, pending := -1, -1;
    for i := 0 to |rows|
      invariant current == Taken(rows[..i]) - 1
      invariant pending == if i > 0 && UserHalf(rows[i - 1]) then current else -1
      invariant i > 0 ==> current >= 0
      invariant r == Repaired(rows[..i])
    {
      var user, assistant := !Blank(rows[i].user), !Blank(rows[i].assistant);
      TakenSnoc(rows, i);
      var group;
      if assistant && !user && pending >= 0 {
        group, pending := pending, -1;
      } else {
        current := current + 1;
        group := current;
        pending := if user && !assistant then current else -1;
      }
      r := r + [Stamped(rows[i], group)];
    }
    assert rows[..|rows|] == rows;
  }

  // ---- when the repair keeps the positional groups ----

  /** The repair counts a row exactly where the grouping opens a group. */
  predicate CountsOpenings(rows: seq<Row>) {
    forall i :: 0 <= i < |rows| ==> HasContent(rows[i]) && (TakesNumber(rows, i) <==> Opens(rows, i))
  }

  lemma CountsSnoc(front: seq<Row>, r: Row)
    ensures var rows := front + [r];
            CountsOpenings(rows) <==>
              CountsOpenings(front) && HasContent(r) && (TakesNumber(rows, |front|) <==> Opens(rows, |front|))
  {
    var rows := front + [r];
    forall i | 0 <= i < |front|
      ensures rows[i] == front[i] && (TakesNumber(rows, i) <==> TakesNumber(front, i)) && (Opens(rows, i) <==> Opens(front, i))
    {
    }
    if CountsOpenings(rows) {
      assert HasContent(rows[|front|]);
      forall i | 0 <= i < |front| ensures HasContent(front[i]) && (TakesNumber(front, i) <==> Opens(front, i)) {
        assert HasContent(rows[i]);
      }
    }
  }

  lemma {:induction false} StampLength(rows: seq<Row>)
    ensures |Stamp(rows)| <= |rows| && |Repaired(rows)| == |rows|
    decreases |rows|
  {
    if rows != [] {
      StampLength(rows[..|rows| - 1]);
    }
  }

  lemma {:induction false} RepairedIsStamp(rows: seq<Row>)
    ensures Repaired(rows) == Stamp(rows) <==> CountsOpenings(rows)
    ensures CountsOpenings(rows) ==> Taken(rows) == Openings(rows)
    decreases |rows|
  {
    if rows != [] {
      var front, r := rows[..|rows| - 1], rows[|rows| - 1];
      assert rows == front + [r];
      RepairedIsStamp(front);
      CountsSnoc(front, r);
      StampLength(front);
      var x, y := Stamped(r, Taken(rows) - 1), Stamped(r, Openings(rows) - 1);
      if HasContent(r) {
        LastsEqual(Repaired(front), x, Stamp(front), y);
      }
    }
  }

  lemma LastsEqual<T>(a: seq<T>, x: T, b: seq<T>, y: T)
    ensures a + [x] == b + [y] <==> a == b && x == y
  {
    if a + [x] == b + [y] {
      assert (a + [x])[..|a|] == a && (b + [y])[..|b|] == b;
      assert (a + [x])[|a|] == x && (b + [y])[|b|] == y;
    }
  }

  // ---- numbers that never fall ----

  predicate Climbs(rows: seq<Row>) {
    forall i, j :: 0 <= i < j < |rows| ==> NumberOf(rows[i]) <= NumberOf(rows[j])
  }

  lemma ClimbsSnoc(rows: seq<Row>, r: Row)
    requires Climbs(rows) && forall x :: x in rows ==> NumberOf(x) <= NumberOf(r)
    ensures Climbs(rows + [r])
  {
    forall i | 0 <= i < |rows| ensures NumberOf(rows[i]) <= NumberOf(r) {
      assert rows[i] in rows;
    }
  }

  lemma {:induction false} BothClimb(rows: seq<Row>)
    ensures Climbs(Repaired(rows)) && forall x :: x in Repaired(rows) ==> 0 <= NumberOf(x) < Taken(rows)
    ensures Climbs(Stamp(rows)) && forall x :: x in Stamp(rows) ==> NumberOf(x) < Openings(rows)
    ensures rows != [] ==> Taken(rows) > 0
    decreases |rows|
  {
    if rows != [] {
      var front, r := rows[..|rows| - 1], rows[|rows| - 1];
      BothClimb(front);
      ClimbsSnoc(Repaired(front), Stamped(r, Taken(rows) - 1));
      if HasContent(r) {
        StampClimbs(front, r, Openings(rows) - 1);
      }
    }
  }

  lemma StampClimbs(front: seq<Row>, r: Row, n: int)
    requires Climbs(Stamp(front)) && forall x :: x in Stamp(front) ==> NumberOf(x) < Openings(front)
    requires n >= Openings(front) - 1
    ensures Climbs(Stamp(front) + [Stamped(r, n)])
  {
    ClimbsSnoc(Stamp(front), Stamped(r, n));
  }

  ghost predicate SameRows(a: seq<Row>, b: seq<Row>) {
    forall k :: RowsOf(a, k) == RowsOf(b, k)
  }

  lemma SharedNumber(a: seq<Row>, b: seq<Row>)
    requires a != [] && Climbs(b) && SameRows(a, b)
    ensures b != [] && NumberOf(b[|b| - 1]) >= NumberOf(a[|a| - 1])
  {
    var x := a[|a| - 1];
    assert RowsOf(a, NumberOf(x)) == RowsOf(b, NumberOf(x));
    RowsOfMembers(a, NumberOf(x));
    RowsOfMembers(b, NumberOf(x));
    assert x in RowsOf(a, NumberOf(x));
    var i :| 0 <= i < |b| && b[i] == x;
  }

  lemma FrontsMatch(fa: seq<Row>, x: Row, fb: seq<Row>, y: Row, k: int)
    requires NumberOf(x) == NumberOf(y) && RowsOf(fa + [x], k) == RowsOf(fb + [y], k)
    ensures RowsOf(fa, k) == RowsOf(fb, k) && (k == NumberOf(x) ==> x == y)
  {
    RowsOfSnoc(fa, x, k);
    RowsOfSnoc(fb, y, k);
    if k == NumberOf(x) {
      LastsEqual(RowsOf(fa, k), x, RowsOf(fb, k), y);
    } else {
      assert RowsOf(fa, k) + [] == RowsOf(fa, k) && RowsOf(fb, k) + [] == RowsOf(fb, k);
    }
  }

  lemma FrontsSame(fa: seq<Row>, x: Row, fb: seq<Row>, y: Row)
    requires SameRows(fa + [x], fb + [y]) && NumberOf(x) == NumberOf(y)
    ensures SameRows(fa, fb) && x == y
  {
    assert RowsOf(fa + [x], NumberOf(x)) == RowsOf(fb + [y], NumberOf(x));
    FrontsMatch(fa, x, fb, y, NumberOf(x));
    forall k ensures RowsOf(fa, k) == RowsOf(fb, k) {
      assert RowsOf(fa + [x], k) == RowsOf(fb + [y], k);
      FrontsMatch(fa, x, fb, y, k);
    }
  }

  lemma LastsShare(a: seq<Row>, b: seq<Row>)
    requires a != [] && Climbs(a) && Climbs(b) && SameRows(a, b)
    ensures b != [] && NumberOf(b[|b| - 1]) == NumberOf(a[|a| - 1])
  {
    SharedNumber(a, b);
    SharedNumber(b, a);
  }

  lemma ClimbsFront(rows: seq<Row>)
    requires rows != [] && Climbs(rows)
    ensures Climbs(rows[..|rows| - 1])
  {
  }

  lemma FirstIsFound(b: seq<Row>)
    ensures b == [] || RowsOf(b, NumberOf(b[0])) != []
  {
  }

  /** Climbing lists with the same rows under every number are the same. */
  lemma {:induction false} ClimbingUnique(a: seq<Row>, b: seq<Row>)
    requires Climbs(a) && Climbs(b) && SameRows(a, b)
    ensures a == b
    decreases |a|
  {
    if a == [] {
      FirstIsFound(b);
    } else {
      LastsShare(a, b);
      var fa, x, fb, y := a[..|a| - 1], a[|a| - 1], b[..|b| - 1], b[|b| - 1];
      assert a == fa + [x] && b == fb + [y];
      FrontsSame(fa, x, fb, y);
      ClimbsFront(a);
      ClimbsFront(b);
      ClimbingUnique(fa, fb);
    }
  }

  // ---- the repaired groups ----

  lemma {:induction false} RepairedNumbers(rows: seq<Row>)
    ensures forall k :: k in Numbers(Repaired(rows)) <==> 0 <= k < Taken(rows)
    ensures |Repaired(rows)| == |rows|
    ensures rows != [] ==> Taken(rows) > 0
    decreases |rows|
  {
    if rows != [] {
      var front := rows[..|rows| - 1];
      RepairedNumbers(front);
      var s := Stamped(rows[|rows| - 1], Taken(rows) - 1);
      forall k ensures k in Numbers(Repaired(rows)) <==> k in Numbers(Repaired(front)) || k == Taken(rows) - 1 {
        assert s in Repaired(rows) && NumberOf(s) == Taken(rows) - 1;
        if k in Numbers(Repaired(front)) {
          var r :| r in Repaired(front) && NumberOf(r) == k;
          assert r in Repaired(rows);
        }
      }
    }
  }

  lemma RepairedAllNumbered(rows: seq<Row>)
    ensures Grouped(Repaired(rows)) == if rows == [] then [] else ByNumber(Repaired(rows))
  {
    BothClimb(rows);
    StampLength(rows);
  }

  lemma RepairedGroups(rows: seq<Row>)
    ensures |Grouped(Repaired(rows))| == Taken(rows)
    ensures forall k :: 0 <= k < Taken(rows) ==> Grouped(Repaired(rows))[k] == (k, RowsOf(Repaired(rows), k))
  {
    RepairedAllNumbered(rows);
    RepairedNumbers(rows);
    if rows != [] {
      SortedUpto(Numbers(Repaired(rows)), Taken(rows));
      PairsOfAt(Upto(Taken(rows)), Repaired(rows));
    }
  }

  lemma NoOtherRows(rows: seq<Row>, n: nat, k: int)
    requires forall x :: x in rows ==> 0 <= NumberOf(x) < n
    requires !(0 <= k < n)
    ensures RowsOf(rows, k) == []
  {
    RowsOfMembers(rows, k);
    NoneMeansEmpty(RowsOf(rows, k));
  }

  lemma SameGroupsSameRows(rows: seq<Row>)
    requires Grouped(Repaired(rows)) == Numbered(StampedGroups(Groups(rows)))
    ensures Repaired(rows) == Stamp(rows)
  {
    RepairedGroups(rows);
    NumberedFromAt(0, StampedGroups(Groups(rows)));
    StampIsGrouping(rows);
    BothClimb(rows);
    var n := |Groups(rows)|;
    forall k ensures RowsOf(Repaired(rows), k) == RowsOf(Stamp(rows), k) {
      if 0 <= k < n {
        assert Grouped(Repaired(rows))[k] == (k, RowsOf(Repaired(rows), k));
      } else {
        NoOtherRows(Repaired(rows), n, k);
        NoOtherRows(Stamp(rows), n, k);
      }
    }
    ClimbingUnique(Repaired(rows), Stamp(rows));
  }

  /** The repaired rows regroup to the positional groups exactly when every
      row has content and the blank test sees the openings truthiness sees: a
      content-free row takes a number away from the turns after it, and a
      whitespace-only half can split a turn or join two. */
  lemma RepairKeepsGroups(rows: seq<Row>)
    ensures Grouped(Repaired(rows)) == Numbered(StampedGroups(Groups(rows))) <==> CountsOpenings(rows)
  {
    RepairedIsStamp(rows);
    StampRegroups(rows);
    if Grouped(Repaired(rows)) == Numbered(StampedGroups(Groups(rows))) {
      SameGroupsSameRows(rows);
    }
  }

  /** Without whitespace-only halves that is: every row has content. */
  lemma CleanRepairKeepsGroups(rows: seq<Row>)
    requires forall r :: r in rows ==> (r.user == "" || !Blank(r.user)) && (r.assistant == "" || !Blank(r.assistant))
    ensures CountsOpenings(rows) <==> forall r :: r in rows ==> HasContent(r)
  {
    forall i | 0 <= i < |rows| ensures rows[i] in rows {
    }
    if forall r :: r in rows ==> HasContent(r) {
      forall i | 0 <= i < |rows| ensures TakesNumber(rows, i) <==> Opens(rows, i) {
        assert rows[i] in rows && (i > 0 ==> rows[i - 1] in rows);
      }
    }
  }

  // ---- the repaired numbers, read off the texts ----

  /** Row `i` says something as the assistant only, right after one that does
      so as the user only. */
  predicate Follows(rows: seq<Row>, i: int) {
    && 0 < i < |rows| && Strip(rows[i - 1].user) != "" && Strip(rows[i - 1].assistant) == ""
    && Strip(rows[i].user) == "" && Strip(rows[i].assistant) != ""
  }

  function FirstFlags(rows: seq<Row>): (r: seq<bool>)
    ensures |r| == |rows|
  {
    seq(|rows|, i requires 0 <= i < |rows| => !Follows(rows, i))
  }

  lemma FollowsIs(rows: seq<Row>, i: nat)
    requires i < |rows|
    ensures TakesNumber(rows, i) <==> !Follows(rows, i)
  {
    StripBlank(rows[i].user);
    StripBlank(rows[i].assistant);
    if i > 0 {
      StripBlank(rows[i - 1].user);
      StripBlank(rows[i - 1].assistant);
    }
  }

  lemma {:induction false} TakenCounts(rows: seq<Row>, n: nat)
    requires n <= |rows|
    ensures Taken(rows[..n]) == Count(FirstFlags(rows)[..n])
  {
    if n > 0 {
      TakenCounts(rows, n - 1);
      TakenSnoc(rows, n - 1);
      FollowsIs(rows, n - 1);
      CountSnoc(FirstFlags(rows), n - 1);
    }
  }

  lemma {:induction false} RepairedAt(rows: seq<Row>, n: nat, i: nat)
    requires i < n <= |rows|
    ensures |Repaired(rows[..n])| == n && Repaired(rows[..n])[i] == Stamped(rows[i], Taken(rows[..i + 1]) - 1)
    decreases n
  {
    TakenSnoc(rows, n - 1);
    StampLength(rows[..n - 1]);
    if i < n - 1 {
      RepairedAt(rows, n - 1, i);
    }
  }

  /** A table with a number anywhere is left alone; otherwise row `i` gets the
      count, from 0, of the rows up to it that follow none. */
  lemma RepairedExactly(rows: seq<Row>)
    ensures (exists i :: 0 <= i < |rows| && rows[i].group.Some? && rows[i].group.value >= 0) ==> AfterRepair(rows) == rows
    ensures (forall i :: 0 <= i < |rows| && rows[i].group.Some? ==> rows[i].group.value < 0) ==>
              && |AfterRepair(rows)| == |rows|
              && forall i :: 0 <= i < |rows| ==>
                   AfterRepair(rows)[i] == rows[i].(group := Some(Count(FirstFlags(rows)[..i + 1]) - 1))
  {
    if i :| 0 <= i < |rows| && rows[i].group.Some? && rows[i].group.value >= 0 {
      assert rows[i] in rows;
    }
    assert rows[..|rows|] == rows;
    StampLength(rows);
    forall i | 0 <= i < |rows| ensures Repaired(rows)[i] == rows[i].(group := Some(Count(FirstFlags(rows)[..i + 1]) - 1)) {
      RepairedAt(rows, |rows|, i);
      TakenCounts(rows, i + 1);
    }
  }
}
