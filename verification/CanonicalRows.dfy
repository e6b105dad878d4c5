/** Canonical transcript rows as the restore code reads them. A row is one
    physical message: usually only the user half or only the assistant half
    of a logical turn. */
module CanonicalRows {
  import opened Seqs
  import opened Text

  /** `group` is `turn_group_number` (None when the attribute is None);
      `tagged` and `compacted` are the truth values of `tagged_at` and
      `compacted_at`. */
  datatype Row = Row(
    id: string,
    user: string,
    assistant: string,
    userRaw: Option<string>,
    assistantRaw: Option<string>,
    group: Option<int>,
    tagged: bool,
    compacted: bool)

  predicate HasUser(r: Row) { r.user != "" }

  predicate HasAssistant(r: Row) { r.assistant != "" }

  predicate UserOnly(r: Row) { HasUser(r) && !HasAssistant(r) }

  predicate AssistantOnly(r: Row) { !HasUser(r) && HasAssistant(r) }

  predicate HasContent(r: Row) { HasUser(r) || HasAssistant(r) }

  /** `b`, coming right after `a`, is the reply to it. */
  predicate Completes(a: Row, b: Row) { UserOnly(a) && AssistantOnly(b) }

  /** The explicit group number, -1 when the row carries none. */
  function NumberOf(r: Row): int {
    if r.group.Some? then r.group.value else -1
  }

  function Stamped(r: Row, k: int): Row {
    r.(group := Some(k))
  }

  /** The rows carrying group number `k`, in order. */
  function RowsOf(rows: seq<Row>, k: int): seq<Row> {
    if rows == [] then []
    else (if NumberOf(rows[0]) == k then [rows[0]] else []) + RowsOf(rows[1..], k)
  }

  lemma {:induction false} RowsOfAppend(a: seq<Row>, b: seq<Row>, k: int)
    ensures RowsOf(a + b, k) == RowsOf(a, k) + RowsOf(b, k)
  {
    if a == [] {
      assert a + b == b;
    } else {
      var head, t := if NumberOf(a[0]) == k then [a[0]] else [], a[1..];
      RowsOfAppend(t, b, k);
      assert (a + b)[1..] == t + b && (a + b)[0] == a[0];
      JoinThree(head, RowsOf(t, k), RowsOf(b, k));
    }
  }

  lemma JoinThree(a: seq<Row>, b: seq<Row>, c: seq<Row>)
    ensures a + (b + c) == (a + b) + c
  {
  }

  lemma RowsOfSnoc(front: seq<Row>, r: Row, k: int)
    ensures RowsOf(front + [r], k) == RowsOf(front, k) + if NumberOf(r) == k then [r] else []
  {
    RowsOfAppend(front, [r], k);
    assert [r][1..] == [];
  }

  lemma {:induction false} RowsOfMembers(rows: seq<Row>, k: int)
    ensures forall r :: r in RowsOf(rows, k) <==> r in rows && NumberOf(r) == k
  {
    if rows != [] {
      RowsOfMembers(rows[1..], k);
      assert rows == [rows[0]] + rows[1..];
    }
  }

  predicate AllTagged(rows: seq<Row>) { forall r :: r in rows ==> r.tagged }

  predicate AllCompacted(rows: seq<Row>) { forall r :: r in rows ==> r.compacted }
}
