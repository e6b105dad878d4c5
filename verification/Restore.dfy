/** What a restart brings back from canonical rows: the full restore and the
    live restore that must agree with it. */
module Restore {
  import opened Seqs
  import opened Text
  import opened CanonicalRows
  import opened PositionalGrouping
  import opened ExplicitGrouping

  datatype Payload = Payload(user: string, assistant: string, userRaw: Option<string>, assistantRaw: Option<string>)

  /** A restored history turn keeps the texts, a pending one the raw content
      as well. */
  datatype Turn =
    | Live(number: int, user: string, assistant: string)
    | Pending(number: int, payload: Payload)

  // ---- the text of a turn ----

  /** The first row with user text gives both the text and its raw content. */
  function UserPart(rows: seq<Row>): (string, Option<string>) {
    if rows == [] then ("", None)
    else if HasUser(rows[0]) then (rows[0].user, rows[0].userRaw)
    else UserPart(rows[1..])
  }

  function AssistantPart(rows: seq<Row>): (string, Option<string>) {
    if rows == [] then ("", None)
    else if HasAssistant(rows[0]) then (rows[0].assistant, rows[0].assistantRaw)
    else AssistantPart(rows[1..])
  }

  function PayloadOf(rows: seq<Row>): Payload {
    var (user, userRaw) := UserPart(rows);
    var (assistant, assistantRaw) := AssistantPart(rows);
    Payload(user, assistant, userRaw, assistantRaw)
  }

  /** The row at `i` is the first with user text. */
  predicate FirstUser(rows: seq<Row>, i: int) {
    0 <= i < |rows| && rows[i].user != "" && forall j :: 0 <= j < i ==> rows[j].user == ""
  }

  predicate FirstAssistant(rows: seq<Row>, i: int) {
    0 <= i < |rows| && rows[i].assistant != "" && forall j :: 0 <= j < i ==> rows[j].assistant == ""
  }

  /** Text and raw content of a role come from one row, the first with text of
      that role; without one there is neither. */
  ghost predicate TakesFirst(rows: seq<Row>, p: Payload) {
    && (forall i :: FirstUser(rows, i) ==> p.user == rows[i].user && p.userRaw == rows[i].userRaw)
    && ((forall r :: r in rows ==> r.user == "") ==> p.user == "" && p.userRaw == None)
    && (forall i :: FirstAssistant(rows, i) ==> p.assistant == rows[i].assistant && p.assistantRaw == rows[i].assistantRaw)
    && ((forall r :: r in rows ==> r.assistant == "") ==> p.assistant == "" && p.assistantRaw == None)
  }

  lemma {:induction false} UserPartAt(rows: seq<Row>, i: int)
    requires FirstUser(rows, i)
    ensures UserPart(rows) == (rows[i].user, rows[i].userRaw)
    decreases i
  {
    if i > 0 {
      assert rows[0].user == "";
      UserPartAt(rows[1..], i - 1);
    }
  }

  lemma {:induction false} AssistantPartAt(rows: seq<Row>, i: int)
    requires FirstAssistant(rows, i)
    ensures AssistantPart(rows) == (rows[i].assistant, rows[i].assistantRaw)
    decreases i
  {
    if i > 0 {
      assert rows[0].assistant == "";
      AssistantPartAt(rows[1..], i - 1);
    }
  }

  lemma {:induction false} NoParts(rows: seq<Row>)
    ensures (forall r :: r in rows ==> r.user == "") ==> UserPart(rows) == ("", None)
    ensures (forall r :: r in rows ==> r.assistant == "") ==> AssistantPart(rows) == ("", None)
  {
    if rows != [] {
      assert rows == [rows[0]] + rows[1..] && rows[0] in rows;
      NoParts(rows[1..]);
    }
  }

  lemma PayloadTakesFirst(rows: seq<Row>)
    ensures TakesFirst(rows, PayloadOf(rows))
  {
    NoParts(rows);
    forall i | FirstUser(rows, i) ensures UserPart(rows) == (rows[i].user, rows[i].userRaw) {
      UserPartAt(rows, i);
    }
    forall i | FirstAssistant(rows, i) ensures AssistantPart(rows) == (rows[i].assistant, rows[i].assistantRaw) {
      AssistantPartAt(rows, i);
    }
  }

  /** `_pair_payload_from_rows` */
  method PairPayload(rows: seq<Row>) returns (p: Payload)
    ensures p == PayloadOf(rows)
  {
    p := Payload("", "", None, None);
    for i := 0 to |rows|
      invariant UserPart(rows) == if p.user != "" then (p.user, p.userRaw) else UserPart(rows[i..])
      invariant AssistantPart(rows) == if p.assistant != "" then (p.assistant, p.assistantRaw) else AssistantPart(rows[i..])
      invariant p.user == "" ==> p.userRaw == None
      invariant p.assistant == "" ==> p.assistantRaw == None
    {
      assert rows[i..][1..] == rows[i + 1..];
      if p.user == "" && rows[i].user != "" {
        p := p.(user := rows[i].user, userRaw := rows[i].userRaw);
      }
      if p.assistant == "" && rows[i].assistant != "" {
        p := p.(assistant := rows[i].assistant, assistantRaw := rows[i].assistantRaw);
      }
    }
    assert rows[|rows|..] == [];
  }

  // ---- what each pair contributes ----

  predicate TaggedPair(rows: seq<Row>) {
    rows != [] && AllTagged(rows)
  }

  function LiveTurn(p: (int, seq<Row>)): Turn {
    Live(p.0, PayloadOf(p.1).user, PayloadOf(p.1).assistant)
  }

  /** Full restore: tagged and not wholly compacted. */
  function FullHistory(pairs: seq<(int, seq<Row>)>): seq<Turn> {
    if pairs == [] then []
    else (if TaggedPair(pairs[0].1) && !AllCompacted(pairs[0].1) then [LiveTurn(pairs[0])] else []) + FullHistory(pairs[1..])
  }

  /** Live restore: tagged, the rows being uncompacted ones already. */
  function LiveHistory(pairs: seq<(int, seq<Row>)>): seq<Turn> {
    if pairs == [] then []
    else (if TaggedPair(pairs[0].1) then [LiveTurn(pairs[0])] else []) + LiveHistory(pairs[1..])
  }

  /** Both restores: not yet tagged. */
  function PendingTurns(pairs: seq<(int, seq<Row>)>): seq<Turn> {
    if pairs == [] then []
    else (if !TaggedPair(pairs[0].1) then [Pending(pairs[0].0, PayloadOf(pairs[0].1))] else []) + PendingTurns(pairs[1..])
  }

  /** Everything a restore hands over. */
  datatype Restored = Restored(history: seq<Turn>, pending: seq<Turn>)

  ghost function FullRestore(rows: seq<Row>): Restored {
    Restored(FullHistory(Grouped(rows)), PendingTurns(Grouped(rows)))
  }

  ghost function LiveRestore(rows: seq<Row>): Restored {
    Restored(LiveHistory(Grouped(rows)), PendingTurns(Grouped(rows)))
  }

  // ---- which turns each restore shows ----

  predicate AscendingTurns(turns: seq<Turn>) {
    forall i, j :: 0 <= i < j < |turns| ==> turns[i].number < turns[j].number
  }

  /** The full restore shows the group: its rows are tagged and some is not
      compacted. */
  predicate FullShows(p: (int, seq<Row>), t: Turn) {
    && (forall r :: r in p.1 ==> r.tagged) && (exists r :: r in p.1 && !r.compacted)
    && t == Live(p.0, PayloadOf(p.1).user, PayloadOf(p.1).assistant)
  }

  predicate LiveShows(p: (int, seq<Row>), t: Turn) {
    p.1 != [] && (forall r :: r in p.1 ==> r.tagged) && t == Live(p.0, PayloadOf(p.1).user, PayloadOf(p.1).assistant)
  }

  predicate LeftPending(p: (int, seq<Row>), t: Turn) {
    (exists r :: r in p.1 && !r.tagged) && t == Pending(p.0, PayloadOf(p.1))
  }

  lemma {:induction false} TurnsShown(pairs: seq<(int, seq<Row>)>)
    requires forall p :: p in pairs ==> p.1 != []
    ensures forall t :: t in FullHistory(pairs) <==> exists p :: p in pairs && FullShows(p, t)
    ensures forall t :: t in LiveHistory(pairs) <==> exists p :: p in pairs && LiveShows(p, t)
    ensures forall t :: t in PendingTurns(pairs) <==> exists p :: p in pairs && LeftPending(p, t)
    decreases |pairs|
  {
    if pairs != [] {
      var p, rest := pairs[0], pairs[1..];
      assert pairs == [p] + rest && p in pairs && forall q :: q in pairs <==> q == p || q in rest;
      TurnsShown(rest);
    }
  }

  lemma ConsAscends(head: seq<Turn>, turns: seq<Turn>, n: int)
    requires HeadTurn(head, n) && NumberedAbove(turns, n) && AscendingTurns(turns)
    ensures AscendingTurns(head + turns)
  {
    forall i, j | 0 <= i < j < |head + turns| ensures (head + turns)[i].number < (head + turns)[j].number {
      assert turns[j - |head|] in turns;
      assert i < |head| ==> head[i] in head;
    }
  }

  lemma {:induction false} TurnsAscend(pairs: seq<(int, seq<Row>)>)
    requires AscendingPairs(pairs)
    ensures AscendingTurns(FullHistory(pairs)) && AscendingTurns(LiveHistory(pairs)) && AscendingTurns(PendingTurns(pairs))
    decreases |pairs|
  {
    if pairs != [] {
      var p, rest := pairs[0], pairs[1..];
      TurnsAscend(rest);
      forall q | q in rest ensures q.0 > p.0 {
        var i :| 0 <= i < |rest| && rest[i] == q;
        assert pairs[i + 1] == q;
      }
      TurnsAbove(rest, p.0);
      ConsAscends(if TaggedPair(p.1) && !AllCompacted(p.1) then [LiveTurn(p)] else [], FullHistory(rest), p.0);
      ConsAscends(if TaggedPair(p.1) then [LiveTurn(p)] else [], LiveHistory(rest), p.0);
      ConsAscends(if !TaggedPair(p.1) then [Pending(p.0, PayloadOf(p.1))] else [], PendingTurns(rest), p.0);
    }
  }

  /** What the two restores hand over, in the order of their numbers: the full
      one the tagged groups with an uncompacted row, the live one every tagged
      group of the rows it is given, both the groups with an untagged row. */
  lemma RestoreShows(rows: seq<Row>)
    ensures forall t :: t in FullRestore(rows).history <==> exists p :: p in Grouped(rows) && FullShows(p, t)
    ensures forall t :: t in LiveRestore(rows).history <==> exists p :: p in Grouped(rows) && LiveShows(p, t)
    ensures forall t :: t in FullRestore(rows).pending <==> exists p :: p in Grouped(rows) && LeftPending(p, t)
    ensures LiveRestore(rows).pending == FullRestore(rows).pending
    ensures AscendingTurns(FullRestore(rows).history) && AscendingTurns(LiveRestore(rows).history)
    ensures AscendingTurns(FullRestore(rows).pending)
  {
    GroupedAscends(rows);
    TurnsShown(Grouped(rows));
    TurnsAscend(Grouped(rows));
  }

  // ---- the comprehensions ----

  lemma HistoryCons(p: (int, seq<Row>), rest: seq<(int, seq<Row>)>)
    ensures FullHistory([p] + rest) == (if TaggedPair(p.1) && !AllCompacted(p.1) then [LiveTurn(p)] else []) + FullHistory(rest)
    ensures LiveHistory([p] + rest) == (if TaggedPair(p.1) then [LiveTurn(p)] else []) + LiveHistory(rest)
  {
    assert ([p] + rest)[1..] == rest;
  }

  method CollectHistory(pairs: seq<(int, seq<Row>)>, skipCompacted: bool) returns (turns: seq<Turn>)
    ensures turns == if skipCompacted then FullHistory(pairs) else LiveHistory(pairs)
  {
    turns := [];
    for i := |pairs| downto 0
      invariant turns == if skipCompacted then FullHistory(pairs[i..]) else LiveHistory(pairs[i..])
    {
      assert pairs[i..] == [pairs[i]] + pairs[i + 1..];
      HistoryCons(pairs[i], pairs[i + 1..]);
      var rows := pairs[i].1;
      if rows != [] && (forall r :: r in rows ==> r.tagged) && !(skipCompacted && forall r :: r in rows ==> r.compacted) {
        var p := PairPayload(rows);
        turns := [Live(pairs[i].0, p.user, p.assistant)] + turns;
      }
    }
  }

  method CollectPending(pairs: seq<(int, seq<Row>)>) returns (turns: seq<Turn>)
    ensures turns == PendingTurns(pairs)
  {
    turns := [];
    for i := |pairs| downto 0
      invariant turns == PendingTurns(pairs[i..])
    {
      assert pairs[i..][1..] == pairs[i + 1..];
      var rows := pairs[i].1;
      if rows == [] || !(forall r :: r in rows ==> r.tagged) {
        var p := PairPayload(rows);
        turns := [Pending(pairs[i].0, p)] + turns;
      }
    }
  }

  /** `restore_live_turns_from_canonical_rows`, given what the store returned
      (None when it cannot be read): refused when a row has no group number at
      all, which is not the same as having number -1. */
  method RestoreLiveTurns(rows: Option<seq<Row>>) returns (restored: Option<Restored>)
    ensures restored.None? <==> rows.None? || exists r :: r in rows.value && r.group.None?
    ensures restored.Some? ==> restored.value == LiveRestore(rows.value)
  {
    if rows.None? || exists r :: r in rows.value && r.group.None? {
      return None;
    }
    var pairs := GroupCanonicalRows(rows.value);
    var history := CollectHistory(pairs, false);
    var pending := CollectPending(pairs);
    return Some(Restored(history, pending));
  }

  // ---- comparing two restores turn by turn ----

  predicate NumberedAbove(turns: seq<Turn>, n: int) {
    forall t :: t in turns ==> t.number > n
  }

  lemma {:induction false} TurnsAbove(pairs: seq<(int, seq<Row>)>, n: int)
    requires forall p :: p in pairs ==> p.0 > n
    ensures NumberedAbove(FullHistory(pairs), n) && NumberedAbove(LiveHistory(pairs), n) && NumberedAbove(PendingTurns(pairs), n)
  {
    if pairs != [] {
      assert pairs == [pairs[0]] + pairs[1..];
      assert pairs[0] in pairs;
      TurnsAbove(pairs[1..], n);
    }
  }

  /** At most one turn numbered `n` in front of later ones. */
  predicate HeadTurn(head: seq<Turn>, n: int) {
    |head| <= 1 && forall t :: t in head ==> t.number == n
  }

  lemma HeadShows(a: seq<Turn>, ta: seq<Turn>, n: int)
    requires HeadTurn(a, n) && NumberedAbove(ta, n)
    ensures |a| == 1 <==> a + ta != [] && (a + ta)[0].number == n
  {
    if a == [] {
      assert a + ta == ta;
      assert ta != [] ==> ta[0] in ta;
    } else {
      assert a[0] in a;
    }
  }

  lemma SplitHead(a: seq<Turn>, ta: seq<Turn>, b: seq<Turn>, tb: seq<Turn>, n: int)
    requires HeadTurn(a, n) && HeadTurn(b, n) && NumberedAbove(ta, n) && NumberedAbove(tb, n)
    ensures a + ta == b + tb <==> a == b && ta == tb
  {
    HeadShows(a, ta, n);
    HeadShows(b, tb, n);
    if a + ta == b + tb {
      assert ta == (a + ta)[|a|..] && tb == (b + tb)[|b|..];
      assert a == (a + ta)[..|a|] && b == (b + tb)[..|b|];
    }
  }
}
