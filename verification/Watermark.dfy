/** The compaction watermark: `_canonical_prefix_watermark`. */
module Watermark {
  import opened Seqs
  import opened Text
  import opened CanonicalRows
  import opened PositionalGrouping
  import opened ExplicitGrouping

  function UserHalves(rows: seq<Row>): nat {
    if rows == [] then 0 else (if Blank(rows[0].user) then 0 else 1) + UserHalves(rows[1..])
  }

  function AssistantHalves(rows: seq<Row>): nat {
    if rows == [] then 0 else (if Blank(rows[0].assistant) then 0 else 1) + AssistantHalves(rows[1..])
  }

  function Halves(rows: seq<Row>): nat {
    UserHalves(rows) + AssistantHalves(rows)
  }

  /** A group the watermark can pass: some half is not blank and every row is
      compacted. */
  predicate Closed(rows: seq<Row>) {
    Halves(rows) > 0 && AllCompacted(rows)
  }

  function TotalHalves(pairs: seq<(int, seq<Row>)>): nat {
    if pairs == [] then 0 else TotalHalves(pairs[..|pairs| - 1]) + Halves(pairs[|pairs| - 1].1)
  }

  /** `k` is the length of the longest prefix of closed groups. */
  predicate ClosedPrefix(pairs: seq<(int, seq<Row>)>, k: nat) {
    && k <= |pairs|
    && (forall i :: 0 <= i < k ==> Closed(pairs[i].1))
    && (k < |pairs| ==> !Closed(pairs[k].1))
  }

  lemma ClosedPrefixUnique(pairs: seq<(int, seq<Row>)>, j: nat, k: nat)
    requires ClosedPrefix(pairs, j) && ClosedPrefix(pairs, k)
    ensures j == k
  {
  }

  /** The watermark when the longest closed prefix has length `k`. */
  function MarkAt(pairs: seq<(int, seq<Row>)>, k: nat): (int, int)
    requires k <= |pairs|
  {
    if k == 0 || pairs[k - 1].0 < 0 then (0, -1) else (TotalHalves(pairs[..k]), pairs[k - 1].0)
  }

  ghost predicate IsWatermark(pairs: seq<(int, seq<Row>)>, mark: (int, int)) {
    exists k: nat :: ClosedPrefix(pairs, k) && mark == MarkAt(pairs, k)
  }

  method CountHalves(rows: seq<Row>) returns (n: nat)
    ensures n == Halves(rows)
  {
    var user, assistant := 0, 0;
    for i := |rows| downto 0
      invariant user == UserHalves(rows[i..])
      invariant assistant == AssistantHalves(rows[i..])
    {
      assert rows[i..][1..] == rows[i + 1..];
      user := user + if Blank(rows[i].user) then 0 else 1;
      assistant := assistant + if Blank(rows[i].assistant) then 0 else 1;
    }
    n := user + assistant;
  }

  method CanonicalPrefixWatermark(pairs: seq<(int, seq<Row>)>) returns (mark: (int, int))
    ensures IsWatermark(pairs, mark)
  {
    var compactedMessages, lastPrefixTurn := 0, -1;
    var i := 0;
    while i < |pairs|
      invariant 0 <= i <= |pairs|
      invariant forall j :: 0 <= j < i ==> Closed(pairs[j].1)
      invariant compactedMessages == TotalHalves(pairs[..i])
      invariant lastPrefixTurn == if i == 0 then -1 else pairs[i - 1].0
    {
      var halves := CountHalves(pairs[i].1);
      if halves > 0 && forall r :: r in pairs[i].1 ==> r.compacted {
        assert pairs[..i + 1][..i] == pairs[..i];
        compactedMessages := compactedMessages + halves;
        lastPrefixTurn := pairs[i].0;
        i := i + 1;
      } else {
        break;
      }
    }
    assert ClosedPrefix(pairs, i);
    if lastPrefixTurn < 0 {
      return (0, -1);
    }
    return (compactedMessages, lastPrefixTurn);
  }

  // ---- compacting more rows never lowers it ----

  /** The same rows with some more of them compacted. */
  predicate MoreCompacted(a: seq<Row>, b: seq<Row>) {
    && |a| == |b|
    && forall i :: 0 <= i < |a| ==> b[i] == a[i].(compacted := b[i].compacted) && (a[i].compacted ==> b[i].compacted)
  }

  predicate PairsMoreCompacted(p: seq<(int, seq<Row>)>, q: seq<(int, seq<Row>)>) {
    && |p| == |q|
    && forall i :: 0 <= i < |p| ==> p[i].0 == q[i].0 && MoreCompacted(p[i].1, q[i].1)
  }

  lemma {:induction false} SameHalves(a: seq<Row>, b: seq<Row>)
    requires MoreCompacted(a, b)
    ensures Halves(a) == Halves(b)
    ensures Closed(a) ==> Closed(b)
  {
    if a != [] {
      SameHalves(a[1..], b[1..]);
    }
  }

  lemma {:induction false} GroupsMoreCompacted(a: seq<Row>, b: seq<Row>)
    requires MoreCompacted(a, b)
    ensures |Groups(a)| == |Groups(b)|
    ensures forall i :: 0 <= i < |Groups(a)| ==> MoreCompacted(Groups(a)[i], Groups(b)[i])
    decreases |a|
  {
    if a != [] {
      var k := if HasContent(a[0]) && |a| >= 2 && Completes(a[0], a[1]) then 2 else 1;
      GroupsMoreCompacted(a[k..], b[k..]);
      assert MoreCompacted(a[..k], b[..k]);
    }
  }

  lemma {:induction false} RowsOfMoreCompacted(a: seq<Row>, b: seq<Row>, n: int)
    requires MoreCompacted(a, b)
    ensures MoreCompacted(RowsOf(a, n), RowsOf(b, n))
  {
    if a != [] {
      RowsOfMoreCompacted(a[1..], b[1..], n);
    }
  }

  lemma SameNumbers(a: seq<Row>, b: seq<Row>)
    requires MoreCompacted(a, b)
    ensures Numbers(a) == Numbers(b) && AllNumbered(a) == AllNumbered(b)
  {
    forall i | 0 <= i < |a|
      ensures NumberOf(a[i]) == NumberOf(b[i]) && a[i] in a && b[i] in b
    {
    }
  }

  lemma GroupedMoreCompacted(a: seq<Row>, b: seq<Row>)
    requires MoreCompacted(a, b)
    ensures PairsMoreCompacted(Grouped(a), Grouped(b))
  {
    SameNumbers(a, b);
    if a != [] && AllNumbered(a) {
      var keys := Sorted(Numbers(a));
      PairsOfAt(keys, a);
      PairsOfAt(keys, b);
      forall i | 0 <= i < |keys| ensures MoreCompacted(RowsOf(a, keys[i]), RowsOf(b, keys[i])) {
        RowsOfMoreCompacted(a, b, keys[i]);
      }
    } else {
      GroupsMoreCompacted(a, b);
      NumberedFromAt(0, Groups(a));
      NumberedFromAt(0, Groups(b));
    }
  }

  lemma {:induction false} TotalHalvesGrows(p: seq<(int, seq<Row>)>, q: seq<(int, seq<Row>)>, j: nat, k: nat)
    requires PairsMoreCompacted(p, q) && j <= k <= |p|
    ensures TotalHalves(p[..j]) <= TotalHalves(q[..k])
    decreases k
  {
    if k > 0 {
      assert q[..k][..k - 1] == q[..k - 1];
      if j == k {
        assert p[..k][..k - 1] == p[..k - 1];
        SameHalves(p[k - 1].1, q[k - 1].1);
        TotalHalvesGrows(p, q, j - 1, k - 1);
      } else {
        TotalHalvesGrows(p, q, j, k - 1);
      }
    }
  }

  lemma PrefixGrows(p: seq<(int, seq<Row>)>, q: seq<(int, seq<Row>)>, j: nat, k: nat)
    requires PairsMoreCompacted(p, q) && ClosedPrefix(p, j) && ClosedPrefix(q, k)
    ensures j <= k
  {
    if k < j {
      SameHalves(p[k].1, q[k].1);
    }
  }

  /** Marking more rows compacted lowers neither part of the watermark,
      whichever way the rows are grouped. */
  lemma {:induction false} WatermarkMonotone(a: seq<Row>, b: seq<Row>, m: (int, int), later: (int, int))
    requires MoreCompacted(a, b)
    requires IsWatermark(Grouped(a), m) && IsWatermark(Grouped(b), later)
    ensures m.0 <= later.0 && m.1 <= later.1
  {
    var p, q := Grouped(a), Grouped(b);
    GroupedMoreCompacted(a, b);
    GroupedAscends(a);
    GroupedAscends(b);
    var j: nat :| ClosedPrefix(p, j) && m == MarkAt(p, j);
    var k: nat :| ClosedPrefix(q, k) && later == MarkAt(q, k);
    PrefixGrows(p, q, j, k);
    TotalHalvesGrows(p, q, j, k);
    LastGrows(p, q, j, k);
  }

  lemma LastGrows(p: seq<(int, seq<Row>)>, q: seq<(int, seq<Row>)>, j: nat, k: nat)
    requires PairsMoreCompacted(p, q) && j <= k <= |q| && j <= |p|
    requires AscendingPairs(q) && forall x :: x in q ==> x.0 >= 0
    ensures MarkAt(p, j).1 <= MarkAt(q, k).1
  {
    if k > 0 {
      assert q[k - 1] in q;
      if 0 < j < k {
        assert q[j - 1].0 < q[k - 1].0;
      }
    }
  }

  // ---- appending one row by position ----

  lemma PrefixSnoc(ps: seq<(int, seq<Row>)>, p: (int, seq<Row>), k: nat)
    requires ClosedPrefix(ps + [p], k)
    ensures k < |ps| ==> ClosedPrefix(ps, k)
    ensures k >= |ps| ==> ClosedPrefix(ps, |ps|) && (k == |ps| + 1 <==> Closed(p.1))
  {
    var all := ps + [p];
    assert all[|ps|] == p && forall i :: 0 <= i < |ps| ==> all[i] == ps[i];
  }

  lemma NumberedSnoc(gs: seq<seq<Row>>, g: seq<Row>)
    ensures Numbered(gs + [g]) == Numbered(gs) + [(|gs|, g)]
  {
    NumberedFromAt(0, gs);
    NumberedFromAt(0, gs + [g]);
  }

  lemma MarkOfPrefix(ps: seq<(int, seq<Row>)>, p: (int, seq<Row>), k: nat)
    requires k <= |ps|
    ensures MarkAt(ps + [p], k) == MarkAt(ps, k)
  {
    assert (ps + [p])[..k] == ps[..k];
  }

  lemma MarkOfAll(ps: seq<(int, seq<Row>)>, p: (int, seq<Row>))
    requires p.0 >= 0 && forall i :: 0 <= i < |ps| ==> ps[i].0 >= 0
    ensures MarkAt(ps + [p], |ps| + 1) == (MarkAt(ps, |ps|).0 + Halves(p.1), p.0)
  {
    var all := ps + [p];
    assert all[..|ps| + 1] == all && all[..|ps|] == ps && ps[..|ps|] == ps;
  }

  lemma PairsMark(ps: seq<(int, seq<Row>)>, p: (int, seq<Row>), m: (int, int), later: (int, int))
    requires IsWatermark(ps, m) && IsWatermark(ps + [p], later)
    requires p.0 >= 0 && forall i :: 0 <= i < |ps| ==> ps[i].0 >= 0
    ensures later == m || (Closed(p.1) && ClosedPrefix(ps, |ps|) && later == (m.0 + Halves(p.1), p.0))
    ensures Closed(p.1) && ClosedPrefix(ps, |ps|) ==> later == (m.0 + Halves(p.1), p.0)
  {
    var j: nat :| ClosedPrefix(ps, j) && m == MarkAt(ps, j);
    var k: nat :| ClosedPrefix(ps + [p], k) && later == MarkAt(ps + [p], k);
    PrefixSnoc(ps, p, k);
    if k <= |ps| {
      ClosedPrefixUnique(ps, j, k);
      MarkOfPrefix(ps, p, k);
      if ClosedPrefix(ps, |ps|) {
        ClosedPrefixUnique(ps, k, |ps|);
      }
    } else {
      ClosedPrefixUnique(ps, j, |ps|);
      MarkOfAll(ps, p);
    }
  }

  /** Comparing the marks of the same groups with and without a last one. */
  lemma SnocMark(gs: seq<seq<Row>>, g: seq<Row>, m: (int, int), later: (int, int))
    requires IsWatermark(Numbered(gs), m) && IsWatermark(Numbered(gs + [g]), later)
    ensures later == m || (Closed(g) && ClosedPrefix(Numbered(gs), |gs|) && later == (m.0 + Halves(g), |gs|))
    ensures Closed(g) && ClosedPrefix(Numbered(gs), |gs|) ==> later == (m.0 + Halves(g), |gs|)
  {
    NumberedFromAt(0, gs);
    NumberedSnoc(gs, g);
    PairsMark(Numbered(gs), (|gs|, g), m, later);
  }

  /** Appending a row by position lowers the watermark only when the row is an
      uncompacted reply to a last group that was counted, and then by exactly
      that group's halves. */
  lemma {:induction false} AppendLowersByLastGroup(rows: seq<Row>, r: Row, m: (int, int), later: (int, int))
    requires IsWatermark(Numbered(Groups(rows)), m)
    requires IsWatermark(Numbered(Groups(rows + [r])), later)
    ensures (later.0 >= m.0 && later.1 >= m.1)
         || (&& rows != [] && Completes(rows[|rows| - 1], r) && !r.compacted
             && later.0 == m.0 - Halves([rows[|rows| - 1]])
             && m.1 == |Groups(rows)| - 1 && later.1 == m.1 - 1)
  {
    AppendRow(rows, r);
    var gs := Groups(rows);
    if !HasContent(r) {
      var j: nat :| ClosedPrefix(Numbered(gs), j) && m == MarkAt(Numbered(gs), j);
      var k: nat :| ClosedPrefix(Numbered(gs), k) && later == MarkAt(Numbered(gs), k);
      ClosedPrefixUnique(Numbered(gs), j, k);
    } else if rows != [] && Completes(rows[|rows| - 1], r) {
      var u := rows[|rows| - 1];
      var front := gs[..|gs| - 1];
      assert gs == front + [[u]];
      var base := WatermarkExists(Numbered(front));
      SnocMark(front, [u], base, m);
      SnocMark(front, [u, r], base, later);
      ReplyHalves(u, r);
      BaseLast(front, base);
    } else {
      SnocMark(gs, [r], m, later);
      BaseLast(gs, m);
    }
  }

  lemma ReplyHalves(u: Row, r: Row)
    ensures Halves([u, r]) >= Halves([u])
    ensures Closed([u, r]) && AllCompacted([u]) ==> r.compacted
    ensures Closed([u]) && r.compacted ==> Closed([u, r])
  {
    assert [u, r][1..] == [r] && [u][1..] == [] && [r][1..] == [];
    assert UserHalves([u, r]) == UserHalves([u]) + UserHalves([r]);
    assert AssistantHalves([u, r]) == AssistantHalves([u]) + AssistantHalves([r]);
    assert r in [u, r];
  }

  /** The last turn number of a positional watermark. */
  lemma BaseLast(gs: seq<seq<Row>>, m: (int, int))
    requires IsWatermark(Numbered(gs), m)
    ensures -1 <= m.1 < |gs|
    ensures ClosedPrefix(Numbered(gs), |gs|) ==> m.1 == |gs| - 1
  {
    NumberedFromAt(0, gs);
    var j: nat :| ClosedPrefix(Numbered(gs), j) && m == MarkAt(Numbered(gs), j);
    if ClosedPrefix(Numbered(gs), |gs|) {
      ClosedPrefixUnique(Numbered(gs), j, |gs|);
    }
  }

  lemma {:induction false} PrefixExists(pairs: seq<(int, seq<Row>)>, from: nat) returns (k: nat)
    requires from <= |pairs| && forall i :: 0 <= i < from ==> Closed(pairs[i].1)
    ensures ClosedPrefix(pairs, k)
    decreases |pairs| - from
  {
    if from < |pairs| && Closed(pairs[from].1) {
      k := PrefixExists(pairs, from + 1);
    } else {
      k := from;
    }
  }

  lemma WatermarkExists(pairs: seq<(int, seq<Row>)>) returns (m: (int, int))
    ensures IsWatermark(pairs, m)
  {
    var k := PrefixExists(pairs, 0);
    m := MarkAt(pairs, k);
  }

  lemma WatermarkUnique(pairs: seq<(int, seq<Row>)>, m: (int, int), later: (int, int))
    requires IsWatermark(pairs, m) && IsWatermark(pairs, later)
    ensures m == later
  {
    var j: nat :| ClosedPrefix(pairs, j) && m == MarkAt(pairs, j);
    var k: nat :| ClosedPrefix(pairs, k) && later == MarkAt(pairs, k);
    ClosedPrefixUnique(pairs, j, k);
  }

  ghost function MarkOf(pairs: seq<(int, seq<Row>)>): (m: (int, int))
    ensures IsWatermark(pairs, m)
  {
    assert exists m :: IsWatermark(pairs, m) by { var m := WatermarkExists(pairs); }
    var m :| IsWatermark(pairs, m);
    m
  }

  // ---- the watermark in terms of the texts ----

  /** The positions of rows whose user text is more than whitespace. */
  function UserTexts(rows: seq<Row>): set<nat> {
    set i: nat | i < |rows| && Strip(rows[i].user) != ""
  }

  function AssistantTexts(rows: seq<Row>): set<nat> {
    set i: nat | i < |rows| && Strip(rows[i].assistant) != ""
  }

  lemma UserTextsSnoc(front: seq<Row>, r: Row)
    ensures UserTexts(front + [r]) == UserTexts(front) + if Strip(r.user) != "" then {|front|} else {}
  {
    assert forall i: nat :: i < |front| ==> (front + [r])[i] == front[i];
  }

  lemma AssistantTextsSnoc(front: seq<Row>, r: Row)
    ensures AssistantTexts(front + [r]) == AssistantTexts(front) + if Strip(r.assistant) != "" then {|front|} else {}
  {
    assert forall i: nat :: i < |front| ==> (front + [r])[i] == front[i];
  }

  lemma OneMore(s: set<nat>, n: nat, more: bool)
    requires n !in s
    ensures |s + if more then {n} else {}| == |s| + if more then 1 else 0
  {
    assert !more ==> s + {} == s;
  }

  lemma {:induction false} HalvesCountTexts(rows: seq<Row>)
    ensures UserHalves(rows) == |UserTexts(rows)| && AssistantHalves(rows) == |AssistantTexts(rows)|
    decreases |rows|
  {
    if rows != [] {
      var front, r := rows[..|rows| - 1], rows[|rows| - 1];
      assert rows == front + [r];
      HalvesCountTexts(front);
      HalvesSnoc(front, r);
      UserTextsSnoc(front, r);
      AssistantTextsSnoc(front, r);
      StripBlank(r.user);
      StripBlank(r.assistant);
      OneMore(UserTexts(front), |front|, Strip(r.user) != "");
      OneMore(AssistantTexts(front), |front|, Strip(r.assistant) != "");
    }
  }

  lemma {:induction false} HalvesAppend(a: seq<Row>, b: seq<Row>)
    ensures UserHalves(a + b) == UserHalves(a) + UserHalves(b)
    ensures AssistantHalves(a + b) == AssistantHalves(a) + AssistantHalves(b)
  {
    if a == [] {
      assert a + b == b;
    } else {
      HalvesAppend(a[1..], b);
      assert (a + b)[1..] == a[1..] + b && (a + b)[0] == a[0];
    }
  }

  lemma HalvesSnoc(front: seq<Row>, r: Row)
    ensures UserHalves(front + [r]) == UserHalves(front) + if Blank(r.user) then 0 else 1
    ensures AssistantHalves(front + [r]) == AssistantHalves(front) + if Blank(r.assistant) then 0 else 1
  {
    HalvesAppend(front, [r]);
    assert [r][1..] == [];
  }

  /** The rows of the first `k` groups. */
  function RowsUpTo(pairs: seq<(int, seq<Row>)>, k: nat): seq<Row>
    requires k <= |pairs|
  {
    if k == 0 then [] else RowsUpTo(pairs, k - 1) + pairs[k - 1].1
  }

  lemma {:induction false} TotalHalvesOfRows(pairs: seq<(int, seq<Row>)>, k: nat)
    requires k <= |pairs|
    ensures TotalHalves(pairs[..k]) == UserHalves(RowsUpTo(pairs, k)) + AssistantHalves(RowsUpTo(pairs, k))
  {
    if k > 0 {
      TotalHalvesOfRows(pairs, k - 1);
      assert pairs[..k][..k - 1] == pairs[..k - 1];
      HalvesAppend(RowsUpTo(pairs, k - 1), pairs[k - 1].1);
    }
  }

  /** Every row is compacted and some text is more than whitespace. */
  predicate Counted(g: seq<Row>) {
    && (forall i :: 0 <= i < |g| ==> g[i].compacted)
    && exists i :: 0 <= i < |g| && (Strip(g[i].user) != "" || Strip(g[i].assistant) != "")
  }

  lemma CountedIsClosed(g: seq<Row>)
    ensures Closed(g) <==> Counted(g)
  {
    HalvesCountTexts(g);
    if i :| 0 <= i < |g| && (Strip(g[i].user) != "" || Strip(g[i].assistant) != "") {
      var n: nat := i;
      assert n in UserTexts(g) || n in AssistantTexts(g);
    } else {
      assert UserTexts(g) == {} && AssistantTexts(g) == {};
    }
  }

  /** The first `k` groups count, the next one does not. */
  predicate CountedPrefix(pairs: seq<(int, seq<Row>)>, k: nat) {
    k <= |pairs| && (forall i :: 0 <= i < k ==> Counted(pairs[i].1)) && (k < |pairs| ==> !Counted(pairs[k].1))
  }

  lemma PrefixCounted(pairs: seq<(int, seq<Row>)>, k: nat)
    requires ClosedPrefix(pairs, k)
    ensures CountedPrefix(pairs, k)
  {
    forall i | 0 <= i < k ensures Counted(pairs[i].1) {
      CountedIsClosed(pairs[i].1);
    }
    if k < |pairs| {
      CountedIsClosed(pairs[k].1);
    }
  }

  lemma PrefixTexts(pairs: seq<(int, seq<Row>)>, k: nat)
    requires k <= |pairs|
    ensures k == 0 || pairs[k - 1].0 < 0 ==> MarkAt(pairs, k) == (0, -1)
    ensures k > 0 && pairs[k - 1].0 >= 0 ==>
              MarkAt(pairs, k) == (|UserTexts(RowsUpTo(pairs, k))| + |AssistantTexts(RowsUpTo(pairs, k))|, pairs[k - 1].0)
  {
    TotalHalvesOfRows(pairs, k);
    HalvesCountTexts(RowsUpTo(pairs, k));
  }

  /** The watermark: of the leading groups that count, how many texts their
      rows hold, and the number of the last of them; neither without such
      groups or when that number is negative. */
  lemma WatermarkCountsTexts(pairs: seq<(int, seq<Row>)>, mark: (int, int)) returns (k: nat)
    requires IsWatermark(pairs, mark)
    ensures CountedPrefix(pairs, k)
    ensures k == 0 || pairs[k - 1].0 < 0 ==> mark == (0, -1)
    ensures k > 0 && pairs[k - 1].0 >= 0 ==>
              mark == (|UserTexts(RowsUpTo(pairs, k))| + |AssistantTexts(RowsUpTo(pairs, k))|, pairs[k - 1].0)
  {
    k :| ClosedPrefix(pairs, k) && mark == MarkAt(pairs, k);
    PrefixCounted(pairs, k);
    PrefixTexts(pairs, k);
  }

  /** A question and its answer, both compacted. */
  predicate WholeTurn(g: seq<Row>) {
    && |g| == 2 && g[0].compacted && g[1].compacted
    && Strip(g[0].user) != "" && Strip(g[0].assistant) == ""
    && Strip(g[1].user) == "" && Strip(g[1].assistant) != ""
  }

  lemma {:induction false} WholeTurnsCount(pairs: seq<(int, seq<Row>)>, n: nat)
    requires n <= |pairs| && forall i :: 0 <= i < n ==> WholeTurn(pairs[i].1)
    ensures TotalHalves(pairs[..n]) == 2 * n
  {
    if n > 0 {
      WholeTurnsCount(pairs, n - 1);
      assert pairs[..n][..n - 1] == pairs[..n - 1];
      WholeTurnHasTwo(pairs[n - 1].1);
    }
  }

  lemma WholeTurnHasTwo(g: seq<Row>)
    requires WholeTurn(g)
    ensures Halves(g) == 2 && AllCompacted(g)
  {
    assert g == [g[0]] + [g[1]];
    HalvesAppend([g[0]], [g[1]]);
    HalvesSnoc([], g[0]);
    HalvesSnoc([], g[1]);
    assert [] + [g[0]] == [g[0]] && [] + [g[1]] == [g[1]];
    StripBlank(g[0].user);
    StripBlank(g[0].assistant);
    StripBlank(g[1].user);
    StripBlank(g[1].assistant);
  }

  lemma WholeTurnsAreClosed(pairs: seq<(int, seq<Row>)>, n: nat)
    requires n <= |pairs| && forall i :: 0 <= i < n ==> WholeTurn(pairs[i].1)
    requires n < |pairs| ==> exists r :: r in pairs[n].1 && !r.compacted
    ensures ClosedPrefix(pairs, n)
  {
    forall i | 0 <= i < n ensures Closed(pairs[i].1) {
      WholeTurnHasTwo(pairs[i].1);
    }
  }

  /** Behind `n` whole turns and before an open one it is two messages a turn
      and the number of the last. */
  lemma WatermarkOfWholeTurns(pairs: seq<(int, seq<Row>)>, n: nat, mark: (int, int))
    requires IsWatermark(pairs, mark) && forall i :: 0 <= i < |pairs| ==> pairs[i].0 >= 0
    requires n <= |pairs| && forall i :: 0 <= i < n ==> WholeTurn(pairs[i].1)
    requires n < |pairs| ==> exists r :: r in pairs[n].1 && !r.compacted
    ensures mark == (2 * n, if n == 0 then -1 else pairs[n - 1].0)
  {
    WholeTurnsCount(pairs, n);
    WholeTurnsAreClosed(pairs, n);
    var k: nat :| ClosedPrefix(pairs, k) && mark == MarkAt(pairs, k);
    ClosedPrefixUnique(pairs, k, n);
  }
}
