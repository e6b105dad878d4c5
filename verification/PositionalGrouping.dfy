/** Grouping half-turn rows by position: `_group_canonical_rows_into_pairs`
    without usable group numbers, and the generator `_legacy_groups` that must
    agree with it. */
module PositionalGrouping {
  import opened Seqs
  import opened CanonicalRows

  /** Look-ahead definition: a content-free row belongs to no group and
      separates its neighbours, a user-only row takes an assistant-only row
      that comes right after it, every other row is a group of its own. */
  function Groups(rows: seq<Row>): seq<seq<Row>> {
    if rows == [] then []
    else if !HasContent(rows[0]) then Groups(rows[1..])
    else if |rows| >= 2 && Completes(rows[0], rows[1]) then [rows[..2]] + Groups(rows[2..])
    else [rows[..1]] + Groups(rows[1..])
  }

  /** The groups numbered from `n` on. */
  function NumberedFrom(n: nat, gs: seq<seq<Row>>): seq<(int, seq<Row>)>
    decreases gs
  {
    if gs == [] then [] else [(n, gs[0])] + NumberedFrom(n + 1, gs[1..])
  }

  function Numbered(gs: seq<seq<Row>>): seq<(int, seq<Row>)> {
    NumberedFrom(0, gs)
  }

  lemma {:induction false} NumberedFromAt(n: nat, gs: seq<seq<Row>>)
    ensures |NumberedFrom(n, gs)| == |gs|
    ensures forall k :: 0 <= k < |gs| ==> NumberedFrom(n, gs)[k] == (n + k, gs[k])
    decreases gs
  {
    if gs != [] {
      NumberedFromAt(n + 1, gs[1..]);
    }
  }

  /** The shapes a positional group can have. */
  predicate LegalShape(g: seq<Row>) {
    || (|g| == 1 && HasContent(g[0]))
    || (|g| == 2 && Completes(g[0], g[1]))
  }

  // ---- the state machine of engine.py ----

  /** `_flush_pending`: an open group is closed under the next number. */
  function Flush(grouped: seq<(int, seq<Row>)>, pending: seq<Row>): seq<(int, seq<Row>)> {
    if pending == [] then grouped else grouped + [(|grouped|, pending)]
  }

  /** `grouped` with `pending` still open is the start of the numbered groups
      when `rest` is still to come. */
  ghost predicate Ahead(all: seq<(int, seq<Row>)>, grouped: seq<(int, seq<Row>)>, pending: seq<Row>, rest: seq<Row>) {
    && (pending == [] || (|pending| == 1 && UserOnly(pending[0])))
    && all == grouped + NumberedFrom(|grouped|, Groups(pending + rest))
  }

  lemma CloseGroup(grouped: seq<(int, seq<Row>)>, g: seq<Row>, gs: seq<seq<Row>>)
    ensures grouped + NumberedFrom(|grouped|, [g] + gs)
         == (grouped + [(|grouped|, g)]) + NumberedFrom(|grouped| + 1, gs)
  {
    assert ([g] + gs)[1..] == gs;
  }

  /** A row that is not a reply closes whatever is open. */
  lemma FlushStep(all: seq<(int, seq<Row>)>, grouped: seq<(int, seq<Row>)>, pending: seq<Row>, row: Row, rest: seq<Row>)
    requires Ahead(all, grouped, pending, [row] + rest)
    requires !AssistantOnly(row)
    ensures Ahead(all, Flush(grouped, pending), [], [row] + rest)
  {
    var from := pending + ([row] + rest);
    if pending == [] {
      assert from == [row] + rest == [] + ([row] + rest);
    } else {
      assert from[1..] == [row] + rest == [] + ([row] + rest) && from[..1] == pending;
      CloseGroup(grouped, pending, Groups([row] + rest));
    }
  }

  /** A row taken with nothing open: skipped, opened, or closed at once. */
  lemma TakeStep(all: seq<(int, seq<Row>)>, grouped: seq<(int, seq<Row>)>, row: Row, rest: seq<Row>)
    requires Ahead(all, grouped, [], [row] + rest)
    ensures !HasContent(row) ==> Ahead(all, grouped, [], rest)
    ensures UserOnly(row) ==> Ahead(all, grouped, [row], rest)
    ensures HasAssistant(row) ==> Ahead(all, grouped + [(|grouped|, [row])], [], rest)
  {
    var from := [row] + rest;
    assert [] + from == from && [] + rest == rest;
    assert from[1..] == rest && from[..1] == [row];
    CloseGroup(grouped, [row], Groups(rest));
  }

  /** A reply completes the open half. */
  lemma ReplyStep(all: seq<(int, seq<Row>)>, grouped: seq<(int, seq<Row>)>, u: Row, row: Row, rest: seq<Row>)
    requires Ahead(all, grouped, [u], [row] + rest)
    requires AssistantOnly(row)
    ensures Ahead(all, grouped + [(|grouped|, [u, row])], [], rest)
  {
    var from := [u] + ([row] + rest);
    assert from[2..] == rest == [] + rest && from[..2] == [u, row];
    CloseGroup(grouped, [u, row], Groups(rest));
  }

  lemma EndStep(all: seq<(int, seq<Row>)>, grouped: seq<(int, seq<Row>)>, pending: seq<Row>)
    requires Ahead(all, grouped, pending, [])
    ensures all == Flush(grouped, pending)
  {
    assert pending + [] == pending;
    if pending != [] {
      assert pending[..1] == pending && pending[1..] == [];
      assert Groups(pending) == [pending] + [];
      CloseGroup(grouped, pending, []);
    }
  }

  /** The loop body: what one row does to the groups so far and to the open
      half-turn. */
  method TakeRow(grouped: seq<(int, seq<Row>)>, pending: seq<Row>, row: Row,
                 ghost all: seq<(int, seq<Row>)>, ghost rest: seq<Row>)
    returns (grouped': seq<(int, seq<Row>)>, pending': seq<Row>)
    requires Ahead(all, grouped, pending, [row] + rest)
    ensures Ahead(all, grouped', pending', rest)
  {
    if HasUser(row) && HasAssistant(row) {
      FlushStep(all, grouped, pending, row, rest);
      grouped', pending' := Flush(grouped, pending), [];
      TakeStep(all, grouped', row, rest);
      grouped' := grouped' + [(|grouped'|, [row])];
    } else if HasUser(row) {
      FlushStep(all, grouped, pending, row, rest);
      grouped', pending' := Flush(grouped, pending), [row];
      TakeStep(all, grouped', row, rest);
    } else if HasAssistant(row) {
      if pending != [] {
        assert pending == [pending[0]] && pending + [row] == [pending[0], row];
        ReplyStep(all, grouped, pending[0], row, rest);
        grouped', pending' := Flush(grouped, pending + [row]), [];
      } else {
        TakeStep(all, grouped, row, rest);
        grouped', pending' := grouped + [(|grouped|, [row])], [];
      }
    } else {
      FlushStep(all, grouped, pending, row, rest);
      grouped', pending' := Flush(grouped, pending), [];
      TakeStep(all, grouped', row, rest);
    }
  }

  lemma NextRow(rows: seq<Row>, i: nat)
    requires i < |rows|
    ensures rows[i..] == [rows[i]] + rows[i + 1..]
  {
  }

  /** One pass over the rows with a `pending` half-turn. */
  method GroupByPosition(rows: seq<Row>) returns (grouped: seq<(int, seq<Row>)>)
    ensures grouped == Numbered(Groups(rows))
  {
    ghost var all := Numbered(Groups(rows));
    grouped := [];
    var pending: seq<Row> := [];
    assert pending + rows[0..] == rows;
    for i := 0 to |rows|
      invariant Ahead(all, grouped, pending, rows[i..])
    {
      NextRow(rows, i);
      grouped, pending := TakeRow(grouped, pending, rows[i], all, rows[i + 1..]);
    }
    EndStep(all, grouped, pending);
    grouped := Flush(grouped, pending);
  }

  /** The generator's loop body. It flushes on a different test and yields
      from different branches. */
  method YieldRow(groups: seq<(int, seq<Row>)>, pending: seq<Row>, row: Row,
                  ghost all: seq<(int, seq<Row>)>, ghost rest: seq<Row>)
    returns (groups': seq<(int, seq<Row>)>, pending': seq<Row>)
    requires Ahead(all, groups, pending, [row] + rest)
    ensures Ahead(all, groups', pending', rest)
  {
    groups', pending' := groups, pending;
    if HasUser(row) || !HasAssistant(row) {
      FlushStep(all, groups, pending, row, rest);
      if pending != [] {
        groups', pending' := groups + [(|groups|, pending)], [];
      }
    }
    if HasUser(row) && !HasAssistant(row) {
      TakeStep(all, groups', row, rest);
      pending' := [row];
    } else if HasAssistant(row) {
      groups', pending' := YieldGroup(groups', pending', row, all, rest);
    } else {
      TakeStep(all, groups', row, rest);
    }
  }

  method YieldGroup(groups: seq<(int, seq<Row>)>, pending: seq<Row>, row: Row,
                    ghost all: seq<(int, seq<Row>)>, ghost rest: seq<Row>)
    returns (groups': seq<(int, seq<Row>)>, pending': seq<Row>)
    requires Ahead(all, groups, pending, [row] + rest) && HasAssistant(row)
    requires pending != [] ==> AssistantOnly(row)
    ensures Ahead(all, groups', pending', rest) && pending' == []
  {
    if pending != [] {
      assert pending == [pending[0]];
      ReplyStep(all, groups, pending[0], row, rest);
      assert pending + [row] == [pending[0], row];
    } else {
      TakeStep(all, groups, row, rest);
      assert pending + [row] == [row];
    }
    groups', pending' := groups + [(|groups|, pending + [row])], [];
  }

  /** The generator that numbers groups for the stores' partial reads: the
      same groups with the same numbers. */
  method LegacyGroups(rows: seq<Row>) returns (groups: seq<(int, seq<Row>)>)
    ensures groups == Numbered(Groups(rows))
  {
    ghost var all := Numbered(Groups(rows));
    groups := [];
    var pending: seq<Row> := [];
    assert pending + rows[0..] == rows;
    for i := 0 to |rows|
      invariant Ahead(all, groups, pending, rows[i..])
    {
      NextRow(rows, i);
      groups, pending := YieldRow(groups, pending, rows[i], all, rows[i + 1..]);
    }
    EndStep(all, groups, pending);
    if pending != [] {
      groups := groups + [(|groups|, pending)];
    }
  }

  // ---- what positional groups are ----

  lemma {:induction false} GroupShapes(rows: seq<Row>)
    ensures forall g :: g in Groups(rows) ==> LegalShape(g)
  {
    if rows != [] {
      if !HasContent(rows[0]) {
        GroupShapes(rows[1..]);
      } else if |rows| >= 2 && Completes(rows[0], rows[1]) {
        GroupShapes(rows[2..]);
        assert LegalShape(rows[..2]);
      } else {
        GroupShapes(rows[1..]);
        assert LegalShape(rows[..1]);
      }
    }
  }

  lemma {:induction false} GroupMembers(rows: seq<Row>)
    ensures forall g, r :: g in Groups(rows) && r in g ==> r in rows
  {
    if rows != [] {
      GroupsUnfold(rows);
      GroupMembers(rows[Lead(rows)..]);
    }
  }

  /** Nothing is lost, duplicated or reordered: the groups in order are the
      rows that have content. */
  lemma {:induction false} GroupsConcatenate(rows: seq<Row>)
    ensures Flatten(Groups(rows)) == Filter(rows, HasContent)
  {
    if rows != [] {
      if !HasContent(rows[0]) {
        GroupsConcatenate(rows[1..]);
      } else if |rows| >= 2 && Completes(rows[0], rows[1]) {
        GroupsConcatenate(rows[2..]);
        assert rows[1..][1..] == rows[2..];
        assert Filter(rows[1..], HasContent) == [rows[1]] + Filter(rows[2..], HasContent);
        assert Filter(rows, HasContent) == [rows[0]] + Filter(rows[1..], HasContent);
        assert rows[..2] == [rows[0]] + [rows[1]];
      } else {
        GroupsConcatenate(rows[1..]);
        assert rows[..1] == [rows[0]];
      }
    }
  }

  /** How many rows the first step of `Groups` consumes, and what it yields. */
  function Lead(rows: seq<Row>): nat {
    if |rows| >= 2 && HasContent(rows[0]) && Completes(rows[0], rows[1]) then 2 else 1
  }

  function HeadGroup(rows: seq<Row>): seq<seq<Row>>
    requires rows != []
  {
    if HasContent(rows[0]) then [rows[..Lead(rows)]] else []
  }

  lemma GroupsUnfold(rows: seq<Row>)
    requires rows != []
    ensures Groups(rows) == HeadGroup(rows) + Groups(rows[Lead(rows)..])
  {
  }

  lemma GroupsOfOne(r: Row)
    ensures Groups([r]) == if HasContent(r) then [[r]] else []
  {
    assert [r][1..] == [] && [r][..1] == [r];
  }

  lemma GroupsOfTwo(a: Row, b: Row)
    ensures Groups([a, b]) ==
            if Completes(a, b) then [[a, b]]
            else (if HasContent(a) then [[a]] else []) + if HasContent(b) then [[b]] else []
  {
    GroupsUnfold([a, b]);
    assert [a, b][1..] == [b] && [a, b][2..] == [] && [a, b][..1] == [a] && [a, b][..2] == [a, b];
    GroupsOfOne(b);
  }

  /** The last row is one `r` completes. */
  predicate Joins(rows: seq<Row>, r: Row) {
    rows != [] && Completes(rows[|rows| - 1], r)
  }

  function LastOr(rows: seq<Row>, r: Row): Row {
    if rows == [] then r else rows[|rows| - 1]
  }

  predicate Grows(gs: seq<seq<Row>>, after: seq<seq<Row>>, joins: bool, last: Row, r: Row) {
    && (!HasContent(r) ==> after == gs)
    && (joins ==> gs != [] && gs[|gs| - 1] == [last] && after == gs[..|gs| - 1] + [[last, r]])
    && (HasContent(r) && !joins ==> after == gs + [[r]])
  }

  /** What appending `r` does, given the rows it is appended to. */
  predicate Appended(rows: seq<Row>, r: Row) {
    Grows(Groups(rows), Groups(rows + [r]), Joins(rows, r), LastOr(rows, r), r)
  }

  lemma GrowsBehind(head: seq<seq<Row>>, gs: seq<seq<Row>>, after: seq<seq<Row>>, joins: bool, last: Row, r: Row)
    requires Grows(gs, after, joins, last, r)
    ensures Grows(head + gs, head + after, joins, last, r)
  {
    if joins {
      var m := |gs| - 1;
      assert (head + gs)[..|head| + m] == head + gs[..m];
    }
  }

  /** A step that ends before the last row does not see the appended one. */
  lemma AppendBehind(rows: seq<Row>, r: Row)
    requires |rows| > Lead(rows) && Appended(rows[Lead(rows)..], r)
    ensures Appended(rows, r)
  {
    var k, all := Lead(rows), rows + [r];
    var tail := rows[k..];
    assert all[k..] == tail + [r] && all[..k] == rows[..k] && Lead(all) == k;
    GroupsUnfold(rows);
    GroupsUnfold(all);
    assert HeadGroup(all) == HeadGroup(rows) && tail[|tail| - 1] == rows[|rows| - 1];
    GrowsBehind(HeadGroup(rows), Groups(tail), Groups(tail + [r]), Joins(rows, r), LastOr(rows, r), r);
  }

  lemma AppendToPair(rows: seq<Row>, r: Row)
    requires |rows| == 2 && Lead(rows) == 2
    ensures Appended(rows, r)
  {
    var all := rows + [r];
    assert rows == [rows[0], rows[1]] && all[2..] == [r] && all[..2] == rows;
    GroupsOfTwo(rows[0], rows[1]);
    GroupsUnfold(all);
    GroupsOfOne(r);
  }

  /** Appending one row is local: it is ignored, joins the last group, or
      starts a new one, and which of the three depends only on the row and
      its predecessor. */
  lemma {:induction false} AppendRow(rows: seq<Row>, r: Row)
    ensures Appended(rows, r)
    decreases |rows|
  {
    if rows == [] {
      assert rows + [r] == [r];
      GroupsOfOne(r);
    } else if |rows| == 1 {
      assert rows == [rows[0]] && rows + [r] == [rows[0], r];
      GroupsOfOne(rows[0]);
      GroupsOfTwo(rows[0], r);
    } else if |rows| == Lead(rows) {
      AppendToPair(rows, r);
    } else {
      AppendRow(rows[Lead(rows)..], r);
      AppendBehind(rows, r);
    }
  }

  // ---- numbers, position by position ----

  /** The row at `i` opens a group. */
  predicate Opens(rows: seq<Row>, i: nat)
    requires i < |rows|
  {
    HasContent(rows[i]) && !(i > 0 && Completes(rows[i - 1], rows[i]))
  }

  /** How many rows open a group. */
  function Openings(rows: seq<Row>): nat {
    if rows == [] then 0
    else Openings(rows[..|rows| - 1]) + if Opens(rows, |rows| - 1) then 1 else 0
  }

  /** Every row with content, stamped with the number of group openings up
      to and including it, minus one. */
  function Stamp(rows: seq<Row>): seq<Row> {
    if rows == [] then []
    else
      var front := rows[..|rows| - 1];
      var r := rows[|rows| - 1];
      Stamp(front) + if HasContent(r) then [Stamped(r, Openings(rows) - 1)] else []
  }

  function StampedGroup(g: seq<Row>, k: int): seq<Row> {
    seq(|g|, i requires 0 <= i < |g| => Stamped(g[i], k))
  }

  /** Whether the rows stamped `k` are the k-th group. */
  predicate StampsAgree(stamped: seq<Row>, groups: seq<seq<Row>>) {
    forall k :: 0 <= k < |groups| ==> RowsOf(stamped, k) == StampedGroup(groups[k], k)
  }

  predicate NumbersBelow(stamped: seq<Row>, n: nat) {
    forall r :: r in stamped ==> 0 <= NumberOf(r) < n
  }

  lemma StampSnoc(front: seq<Row>, r: Row)
    ensures Stamp(front + [r]) ==
            Stamp(front) + if HasContent(r) then [Stamped(r, Openings(front + [r]) - 1)] else []
  {
    assert (front + [r])[..|front|] == front;
  }

  lemma OpeningsSnoc(front: seq<Row>, r: Row)
    ensures Openings(front + [r]) - Openings(front) == |Groups(front + [r])| - |Groups(front)|
  {
    assert (front + [r])[..|front|] == front;
    AppendRow(front, r);
  }

  /** One more stamped row, joining or opening the last group. */
  lemma StampGroupSnoc(st: seq<Row>, fs: seq<seq<Row>>, gs: seq<seq<Row>>, joins: bool, last: Row, r: Row, k: nat)
    requires HasContent(r) && Grows(fs, gs, joins, last, r) && k < |gs|
    requires NumbersBelow(st, |fs|) && (k < |fs| ==> RowsOf(st, k) == StampedGroup(fs[k], k))
    ensures RowsOf(st + [Stamped(r, |gs| - 1)], k) == StampedGroup(gs[k], k)
  {
    RowsOfSnoc(st, Stamped(r, |gs| - 1), k);
    if k < |gs| - 1 {
      assert k < |fs| && gs[k] == fs[k];
    } else if joins {
      StampedSnoc(fs[k], r, k);
      assert gs[k] == fs[k] + [r];
    } else {
      assert gs[k] == [r];
      NoRowsOf(st, k);
    }
  }

  lemma StampGroupsSnoc(front: seq<Row>, r: Row, s: Row)
    requires HasContent(r) && s == Stamped(r, |Groups(front + [r])| - 1)
    requires StampsAgree(Stamp(front), Groups(front)) && NumbersBelow(Stamp(front), |Groups(front)|)
    ensures StampsAgree(Stamp(front) + [s], Groups(front + [r]))
  {
    var gs, fs := Groups(front + [r]), Groups(front);
    AppendRow(front, r);
    forall k: nat | k < |gs| ensures RowsOf(Stamp(front) + [s], k) == StampedGroup(gs[k], k) {
      StampGroupSnoc(Stamp(front), fs, gs, Joins(front, r), LastOr(front, r), r, k);
    }
  }

  lemma StampBelowSnoc(front: seq<Row>, r: Row, s: Row)
    requires HasContent(r) && s == Stamped(r, |Groups(front + [r])| - 1)
    requires NumbersBelow(Stamp(front), |Groups(front)|)
    ensures NumbersBelow(Stamp(front) + [s], |Groups(front + [r])|)
  {
    AppendRow(front, r);
  }

  /** The positional number of a row is the count of openings up to it: the
      k-th group is exactly the rows stamped k, in order. */
  lemma {:induction false} StampIsGrouping(rows: seq<Row>)
    ensures |Groups(rows)| == Openings(rows)
    ensures NumbersBelow(Stamp(rows), |Groups(rows)|)
    ensures StampsAgree(Stamp(rows), Groups(rows))
    decreases |rows|
  {
    if rows != [] {
      var front, r := rows[..|rows| - 1], rows[|rows| - 1];
      assert rows == front + [r];
      StampIsGrouping(front);
      StampSnoc(front, r);
      OpeningsSnoc(front, r);
      if HasContent(r) {
        var s := Stamped(r, Openings(rows) - 1);
        StampGroupsSnoc(front, r, s);
        StampBelowSnoc(front, r, s);
      } else {
        AppendRow(front, r);
        assert Stamp(rows) == Stamp(front) && Groups(rows) == Groups(front);
      }
    }
  }

  lemma NoneMeansEmpty(rs: seq<Row>)
    ensures rs == [] || exists r :: r in rs
  {
    if rs != [] {
      var r := rs[0];
      assert r in rs;
    }
  }

  lemma StampedSnoc(g: seq<Row>, r: Row, n: nat)
    ensures StampedGroup(g + [r], n) == StampedGroup(g, n) + [Stamped(r, n)]
  {
  }

  lemma NoRowsOf(rows: seq<Row>, n: nat)
    requires forall x :: x in rows ==> NumberOf(x) < n
    ensures RowsOf(rows, n) == []
  {
    RowsOfMembers(rows, n);
    NoneMeansEmpty(RowsOf(rows, n));
  }

  // ---- the groups, read off the texts ----

  /** Row `i` is an answer without question text, right after a question
      without answer text. */
  predicate Answers(rows: seq<Row>, i: int) {
    && 0 < i < |rows| && rows[i - 1].user != "" && rows[i - 1].assistant == ""
    && rows[i].user == "" && rows[i].assistant != ""
  }

  /** Row `i` has some text and does not answer the one before it. */
  predicate Starts(rows: seq<Row>, i: int) {
    0 <= i < |rows| && (rows[i].user != "" || rows[i].assistant != "") && !Answers(rows, i)
  }

  function StartFlags(rows: seq<Row>): (r: seq<bool>)
    ensures |r| == |rows|
  {
    seq(|rows|, i requires 0 <= i < |rows| => Starts(rows, i))
  }

  /** The group that row `i` starts: with its answer, if that comes next. */
  function StartedAt(rows: seq<Row>, i: nat): seq<Row>
    requires i < |rows|
  {
    if Answers(rows, i + 1) then [rows[i], rows[i + 1]] else [rows[i]]
  }

  /** As many groups as starts, each at the number of starts before it. */
  ghost predicate GroupsAre(rows: seq<Row>, gs: seq<seq<Row>>) {
    && |gs| == Count(StartFlags(rows))
    && forall i: nat :: Starts(rows, i) ==>
         var k := Count(StartFlags(rows)[..i]); k < |gs| && gs[k] == StartedAt(rows, i)
  }

  lemma StartsIsOpens(rows: seq<Row>, i: nat)
    requires i < |rows|
    ensures Starts(rows, i) <==> Opens(rows, i)
    ensures Answers(rows, i) <==> i > 0 && Completes(rows[i - 1], rows[i])
  {
  }

  lemma FlagsSnoc(front: seq<Row>, r: Row)
    ensures StartFlags(front + [r]) == StartFlags(front) + [Starts(front + [r], |front|)]
  {
    var rows := front + [r];
    forall i | 0 <= i < |front| ensures Starts(rows, i) <==> Starts(front, i) {
    }
  }

  lemma CountEnd(flags: seq<bool>, last: bool)
    ensures Count(flags + [last]) == Count(flags) + if last then 1 else 0
  {
    var all := flags + [last];
    assert all[..|flags| + 1] == all && all[..|flags|] == flags;
    CountSnoc(all, |flags|);
  }

  lemma GroupsAreSnoc(front: seq<Row>, r: Row, gs: seq<seq<Row>>, after: seq<seq<Row>>)
    requires GroupsAre(front, gs) && Grows(gs, after, Joins(front, r), LastOr(front, r), r)
    ensures GroupsAre(front + [r], after)
  {
    var rows, n := front + [r], |front|;
    var flags, prior := StartFlags(rows), StartFlags(front);
    FlagsSnoc(front, r);
    CountEnd(prior, Starts(rows, n));
    StartsIsOpens(rows, n);
    forall i: nat | Starts(rows, i)
      ensures var k := Count(flags[..i]); k < |after| && after[k] == StartedAt(rows, i)
    {
      assert i < n ==> flags[..i] == prior[..i];
      if i == n {
        assert flags[..n] == prior;
      } else if i == n - 1 && Joins(front, r) {
        JoinedStart(front, prior);
        assert Answers(rows, i + 1);
      } else {
        EarlierStart(front, r, i, gs);
        assert !Answers(rows, i + 1) || i + 1 < n;
      }
    }
  }

  /** An open question is the last start. */
  lemma JoinedStart(front: seq<Row>, flags: seq<bool>)
    requires front != [] && flags == StartFlags(front) && UserOnly(front[|front| - 1])
    ensures Count(flags[..|front| - 1]) == Count(flags) - 1
  {
    var n := |front| - 1;
    assert flags[..n + 1] == flags;
    CountSnoc(flags, n);
  }

  lemma EarlierStart(front: seq<Row>, r: Row, i: nat, gs: seq<seq<Row>>)
    requires GroupsAre(front, gs) && i < |front| && Starts(front + [r], i) && !(i == |front| - 1 && Joins(front, r))
    ensures var k := Count(StartFlags(front)[..i]);
            k < |gs| && gs[k] == StartedAt(front + [r], i) && (Joins(front, r) ==> k < |gs| - 1)
  {
    var rows, flags := front + [r], StartFlags(front);
    assert Starts(front, i);
    assert Answers(rows, i + 1) <==> Answers(front, i + 1);
    if Joins(front, r) {
      JoinedStart(front, flags);
      FewerBefore(flags, i, |front| - 1);
    }
  }

  lemma {:induction false} FewerBefore(flags: seq<bool>, i: nat, n: nat)
    requires i < n <= |flags| && flags[i]
    ensures Count(flags[..i]) < Count(flags[..n])
    decreases n
  {
    CountSnoc(flags, n - 1);
    if i < n - 1 {
      FewerBefore(flags, i, n - 1);
    }
  }

  /** The positional groups are those of the starts, in order. */
  lemma {:induction false} GroupsExactly(rows: seq<Row>)
    ensures GroupsAre(rows, Groups(rows))
    decreases |rows|
  {
    if rows == [] {
      assert StartFlags(rows) == [];
    } else {
      var front, r := rows[..|rows| - 1], rows[|rows| - 1];
      assert rows == front + [r];
      GroupsExactly(front);
      AppendRow(front, r);
      GroupsAreSnoc(front, r, Groups(front), Groups(rows));
    }
  }
}
