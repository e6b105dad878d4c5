/** The live restore is meant to be a cheaper full restore. When the two
    agree, for each of the reads a store offers. */
module LiveRefinement {
  import opened Seqs
  import opened Text
  import opened CanonicalRows
  import opened PositionalGrouping
  import opened ExplicitGrouping
  import opened LazyRepair
  import opened Restore

  // ---- the default read: every uncompacted row ----

  predicate Uncompacted(r: Row) { !r.compacted }

  /** The base store's `get_uncompacted_canonical_turns`. */
  function Kept(rows: seq<Row>): seq<Row> {
    Filter(rows, Uncompacted)
  }

  lemma {:induction false} RowsOfKept(rows: seq<Row>, k: int)
    ensures RowsOf(Kept(rows), k) == Kept(RowsOf(rows, k))
  {
    if rows != [] {
      var r, rest := rows[0], rows[1..];
      RowsOfKept(rest, k);
      FilterHead(rows, Uncompacted);
      if NumberOf(r) == k {
        assert RowsOf(rows, k) == [r] + RowsOf(rest, k);
        assert RowsOf(rows, k)[1..] == RowsOf(rest, k);
        FilterHead(RowsOf(rows, k), Uncompacted);
        if Uncompacted(r) {
          assert Kept(rows) == [r] + Kept(rest) && Kept(rows)[1..] == Kept(rest);
        }
      } else {
        assert RowsOf(rows, k) == RowsOf(rest, k);
        if Uncompacted(r) {
          assert Kept(rows) == [r] + Kept(rest) && Kept(rows)[1..] == Kept(rest);
          assert RowsOf(Kept(rows), k) == RowsOf(Kept(rest), k);
        }
      }
    }
  }

  /** Dropping the compacted rows of a turn changes nothing that is restored:
      a wholly compacted turn is tagged, a turn whose remaining rows are tagged
      is tagged and keeps its texts, any other keeps its whole payload. */
  predicate Faithful(g: seq<Row>) {
    var u := Kept(g);
    if u == [] then AllTagged(g)
    else if AllTagged(u) then AllTagged(g) && PayloadOf(u).user == PayloadOf(g).user && PayloadOf(u).assistant == PayloadOf(g).assistant
    else PayloadOf(u) == PayloadOf(g)
  }

  lemma KeptMembers(g: seq<Row>)
    ensures forall r :: r in Kept(g) <==> r in g && !r.compacted
    ensures Kept(g) == [] <==> AllCompacted(g)
  {
    FilterMembers(g, Uncompacted);
    NoneMeansEmpty(Kept(g));
  }

  /** What a turn puts into the history and the pending list: of the full
      restore with all its rows, of the live restore with the kept ones, when
      there are any. */
  function FullPart(k: int, g: seq<Row>): seq<Turn> {
    if TaggedPair(g) && !AllCompacted(g) then [LiveTurn((k, g))] else []
  }

  function LivePart(k: int, u: seq<Row>): seq<Turn> {
    if TaggedPair(u) then [LiveTurn((k, u))] else []
  }

  function PendingPart(k: int, g: seq<Row>): seq<Turn> {
    if g != [] && !TaggedPair(g) then [Pending(k, PayloadOf(g))] else []
  }

  lemma FaithfulTurn(k: int, g: seq<Row>)
    requires g != []
    ensures Faithful(g) <==> LivePart(k, Kept(g)) == FullPart(k, g) && PendingPart(k, Kept(g)) == PendingPart(k, g)
  {
    KeptMembers(g);
  }

  /** A faithful turn in front neither hides nor creates a difference. */
  lemma FaithfulStep(k: int, g: seq<Row>, live: seq<(int, seq<Row>)>, full: seq<(int, seq<Row>)>)
    requires g != []
    requires forall p :: p in live ==> p.0 > k
    requires forall p :: p in full ==> p.0 > k
    ensures (&& LivePart(k, Kept(g)) + LiveHistory(live) == FullPart(k, g) + FullHistory(full)
             && PendingPart(k, Kept(g)) + PendingTurns(live) == PendingPart(k, g) + PendingTurns(full))
       <==> Faithful(g) && LiveHistory(live) == FullHistory(full) && PendingTurns(live) == PendingTurns(full)
  {
    TurnsAbove(live, k);
    TurnsAbove(full, k);
    FaithfulTurn(k, g);
    SplitHead(LivePart(k, Kept(g)), LiveHistory(live), FullPart(k, g), FullHistory(full), k);
    SplitHead(PendingPart(k, Kept(g)), PendingTurns(live), PendingPart(k, g), PendingTurns(full), k);
  }

  ghost predicate AllFaithful(keys: seq<int>, rows: seq<Row>) {
    forall k :: k in keys ==> Faithful(RowsOf(rows, k))
  }

  lemma PairsAbove(keys: seq<int>, rows: seq<Row>, n: int)
    requires forall k :: k in keys ==> k > n
    ensures forall p :: p in PairsOf(keys, rows) ==> p.0 > n
  {
    PairsOfAt(keys, rows);
    forall p | p in PairsOf(keys, rows) ensures p.0 > n {
      var i :| 0 <= i < |keys| && PairsOf(keys, rows)[i] == p;
      assert keys[i] in keys;
    }
  }

  lemma TailAbove(keys: seq<int>)
    requires keys != [] && Ascending(keys)
    ensures forall x :: x in keys[1..] ==> x > keys[0] && x in keys
  {
    forall x | x in keys[1..] ensures x > keys[0] && x in keys {
      var i :| 0 <= i < |keys[1..]| && keys[1..][i] == x;
      assert keys[i + 1] == x;
    }
  }

  /** One key unfolded on both sides. */
  lemma UnfoldKey(k: int, rest: seq<int>, rows: seq<Row>)
    requires RowsOf(rows, k) != []
    ensures var keep, keys, g := Numbers(Kept(rows)), [k] + rest, RowsOf(rows, k);
            var live, full := PairsOf(Restrict(rest, keep), Kept(rows)), PairsOf(rest, rows);
            && LiveHistory(PairsOf(Restrict(keys, keep), Kept(rows))) == LivePart(k, Kept(g)) + LiveHistory(live)
            && PendingTurns(PairsOf(Restrict(keys, keep), Kept(rows))) == PendingPart(k, Kept(g)) + PendingTurns(live)
            && FullHistory(PairsOf(keys, rows)) == FullPart(k, g) + FullHistory(full)
            && PendingTurns(PairsOf(keys, rows)) == PendingPart(k, g) + PendingTurns(full)
  {
    var keep, keys := Numbers(Kept(rows)), [k] + rest;
    assert keys[1..] == rest;
    KeyPresence(rows, k);
    RowsOfKept(rows, k);
    var full := PairsOf(keys, rows);
    assert full[0] == (k, RowsOf(rows, k)) && full[1..] == PairsOf(rest, rows);
    if k in keep {
      var r := Restrict(keys, keep);
      assert r[0] == k && r[1..] == Restrict(rest, keep);
      var live := PairsOf(r, Kept(rows));
      assert live[0] == (k, RowsOf(Kept(rows), k)) && live[1..] == PairsOf(Restrict(rest, keep), Kept(rows));
    } else {
      assert Restrict(keys, keep) == Restrict(rest, keep);
    }
  }

  lemma {:induction false} FaithfulKeys(keys: seq<int>, rows: seq<Row>)
    requires Ascending(keys) && forall k :: k in keys ==> RowsOf(rows, k) != []
    ensures var live := PairsOf(Restrict(keys, Numbers(Kept(rows))), Kept(rows));
            var full := PairsOf(keys, rows);
            LiveHistory(live) == FullHistory(full) && PendingTurns(live) == PendingTurns(full) <==> AllFaithful(keys, rows)
  {
    if keys != [] {
      var k, rest := keys[0], keys[1..];
      var keep := Numbers(Kept(rows));
      assert keys == [k] + rest;
      assert k in keys;
      TailAbove(keys);
      FaithfulKeys(rest, rows);
      RestrictAscending(rest, keep);
      PairsAbove(Restrict(rest, keep), Kept(rows), k);
      PairsAbove(rest, rows, k);
      UnfoldKey(k, rest, rows);
      FaithfulStep(k, RowsOf(rows, k), PairsOf(Restrict(rest, keep), Kept(rows)), PairsOf(rest, rows));
    }
  }

  lemma KeyPresence(rows: seq<Row>, k: int)
    ensures k in Numbers(rows) <==> RowsOf(rows, k) != []
    ensures k in Numbers(Kept(rows)) <==> RowsOf(Kept(rows), k) != []
  {
    RowsOfMembers(rows, k);
    RowsOfMembers(Kept(rows), k);
    NoneMeansEmpty(RowsOf(rows, k));
    NoneMeansEmpty(RowsOf(Kept(rows), k));
  }

  lemma GroupedByNumber(rows: seq<Row>)
    requires AllNumbered(rows)
    ensures Grouped(rows) == ByNumber(rows)
  {
    if rows == [] {
      assert Numbers(rows) == {};
    }
  }

  /** With stored group numbers, reading only the uncompacted rows restores
      what the full restore does if and only if every turn is faithful. */
  lemma LiveExactlyWhenFaithful(rows: seq<Row>)
    requires AllNumbered(rows)
    ensures LiveRestore(Kept(rows)) == FullRestore(rows)
       <==> forall k :: k in Numbers(rows) ==> Faithful(RowsOf(rows, k))
  {
    var keys, keep := Sorted(Numbers(rows)), Numbers(Kept(rows));
    FilterMembers(rows, Uncompacted);
    SortedSubset(keep, Numbers(rows));
    GroupedByNumber(rows);
    GroupedByNumber(Kept(rows));
    forall k | k in keys ensures RowsOf(rows, k) != [] {
      KeyPresence(rows, k);
    }
    FaithfulKeys(keys, rows);
  }

  /** Turns compacted as a whole, and only once tagged, are faithful; so on
      rows that compaction writes the two restores agree. */
  lemma UniformIsFaithful(rows: seq<Row>)
    requires AllNumbered(rows)
    requires forall a, b :: a in rows && b in rows && NumberOf(a) == NumberOf(b) ==> a.compacted == b.compacted
    requires forall r :: r in rows && r.compacted ==> r.tagged
    ensures LiveRestore(Kept(rows)) == FullRestore(rows)
  {
    forall k | k in Numbers(rows) ensures Faithful(RowsOf(rows, k)) {
      var g := RowsOf(rows, k);
      RowsOfMembers(rows, k);
      KeptMembers(g);
      if Kept(g) != [] {
        assert Kept(g)[0] in Kept(g);
        FilterAll(g, Uncompacted);
      }
    }
    LiveExactlyWhenFaithful(rows);
  }

  // ---- the relational stores' read: merged turns ----

  /** Both halves of a turn in one row, tagged or compacted when all its rows
      are. The id it carries plays no part in a restore. */
  function Merged(k: int, g: seq<Row>): Row {
    var p := PayloadOf(g);
    Row("", p.user, p.assistant, p.userRaw, p.assistantRaw, Some(k), AllTagged(g), AllCompacted(g))
  }

  function Largest(rows: seq<Row>): int {
    if rows == [] then -1
    else if NumberOf(rows[0]) > Largest(rows[1..]) then NumberOf(rows[0]) else Largest(rows[1..])
  }

  /** A turn the read returns: not compacted, not blank, and complete unless a
      stored number shows that a later turn exists. */
  predicate Admits(rows: seq<Row>, p: (int, seq<Row>)) {
    var t := PayloadOf(p.1);
    && !AllCompacted(p.1)
    && (!Blank(t.user) || !Blank(t.assistant))
    && ((!Blank(t.user) && !Blank(t.assistant)) || (AllNumbered(rows) && p.0 < Largest(rows)))
  }

  function MergedFrom(rows: seq<Row>, pairs: seq<(int, seq<Row>)>): seq<Row> {
    if pairs == [] then []
    else (if Admits(rows, pairs[0]) then [Merged(pairs[0].0, pairs[0].1)] else []) + MergedFrom(rows, pairs[1..])
  }

  ghost function MergedReads(rows: seq<Row>): seq<Row> {
    MergedFrom(rows, Grouped(rows))
  }

  /** `_group_mode`: is some row without a number, and the largest number. */
  method GroupMode(rows: seq<Row>) returns (legacy: bool, largest: int)
    ensures legacy == !AllNumbered(rows) && largest == Largest(rows)
  {
    legacy, largest := false, -1;
    for i := |rows| downto 0
      invariant legacy == !AllNumbered(rows[i..])
      invariant largest == Largest(rows[i..])
    {
      assert rows[i..] == [rows[i]] + rows[i + 1..];
      legacy := legacy || NumberOf(rows[i]) < 0;
      largest := if NumberOf(rows[i]) > largest then NumberOf(rows[i]) else largest;
    }
    assert rows[0..] == rows;
  }

  /** The rows the read works on: repaired, unless writing the repair fails. */
  function ReadRows(rows: seq<Row>, writable: bool): seq<Row> {
    if writable then AfterRepair(rows) else rows
  }

  /** `load_uncompacted_groups` without limit or protected tail. The repair
      runs first; then numbered rows are grouped by number, anything else by
      the legacy generator. */
  method LoadUncompactedGroups(stored: seq<Row>, writable: bool) returns (result: seq<Row>)
    ensures result == MergedReads(ReadRows(stored, writable))
    ensures IsRead(ReadRows(stored, writable), result)
  {
    ReadIsMerged(ReadRows(stored, writable));
    var rows := stored;
    if writable {
      rows := RepairLegacyGroups(stored);
    }
    var legacy, largest := GroupMode(rows);
    var pairs: seq<(int, seq<Row>)>;
    if legacy || rows == [] {
      pairs := LegacyGroups(rows);
    } else {
      pairs := GroupByNumber(rows);
    }
    result := MergeAdmitted(rows, pairs, legacy, largest);
  }

  // ---- what the read returns, turn by turn ----

  /** The store returns this turn: a row is not compacted, a text is more than
      whitespace, and if only one is, every row is numbered and some row
      belongs to a later turn. */
  predicate Returns(rows: seq<Row>, p: (int, seq<Row>)) {
    var t := PayloadOf(p.1);
    && (exists r :: r in p.1 && !r.compacted)
    && (Strip(t.user) != "" || Strip(t.assistant) != "")
    && (Strip(t.user) == "" || Strip(t.assistant) == "" ==>
          && (forall r :: r in rows ==> r.group.Some? && r.group.value >= 0)
          && exists r :: r in rows && r.group.Some? && r.group.value > p.0)
  }

  /** The row that stands for it. */
  predicate StandsFor(m: Row, p: (int, seq<Row>)) {
    && m.group == Some(p.0) && !m.compacted && (m.tagged <==> forall r :: r in p.1 ==> r.tagged)
    && Payload(m.user, m.assistant, m.userRaw, m.assistantRaw) == PayloadOf(p.1)
  }

  /** The result has one row for each of those turns and no other, in
      ascending order. */
  ghost predicate IsRead(rows: seq<Row>, result: seq<Row>) {
    && AscendingRows(result)
    && (forall p :: p in Grouped(rows) && Returns(rows, p) ==> exists m :: m in result && StandsFor(m, p))
    && (forall m :: m in result ==> exists p :: p in Grouped(rows) && Returns(rows, p) && StandsFor(m, p))
  }

  lemma {:induction false} LargestIs(rows: seq<Row>, k: int)
    requires k >= 0
    ensures k < Largest(rows) <==> exists r :: r in rows && r.group.Some? && r.group.value > k
  {
    if rows != [] {
      assert rows == [rows[0]] + rows[1..];
      LargestIs(rows[1..], k);
      if NumberOf(rows[0]) > k {
        assert rows[0] in rows;
      }
    }
  }

  lemma AdmitsIsReturns(rows: seq<Row>, p: (int, seq<Row>))
    requires p.0 >= 0
    ensures Admits(rows, p) <==> Returns(rows, p)
  {
    LargestIs(rows, p.0);
    StripBlank(PayloadOf(p.1).user);
    StripBlank(PayloadOf(p.1).assistant);
  }

  lemma {:induction false} MergedMembers(rows: seq<Row>, pairs: seq<(int, seq<Row>)>)
    ensures forall m :: m in MergedFrom(rows, pairs) <==> exists p :: p in pairs && Admits(rows, p) && m == Merged(p.0, p.1)
    decreases pairs
  {
    if pairs != [] {
      assert pairs == [pairs[0]] + pairs[1..];
      MergedMembers(rows, pairs[1..]);
    }
  }

  lemma MergedStands(p: (int, seq<Row>))
    requires exists r :: r in p.1 && !r.compacted
    ensures StandsFor(Merged(p.0, p.1), p)
  {
  }

  lemma ReadIsMerged(rows: seq<Row>)
    ensures IsRead(rows, MergedReads(rows))
  {
    var pairs := Grouped(rows);
    GroupedAscends(rows);
    MergedAscends(rows, pairs);
    MergedMembers(rows, pairs);
    forall p | p in pairs ensures Admits(rows, p) <==> Returns(rows, p) {
      AdmitsIsReturns(rows, p);
    }
    forall p | p in pairs && Returns(rows, p) ensures StandsFor(Merged(p.0, p.1), p) && Merged(p.0, p.1) in MergedReads(rows) {
      MergedStands(p);
    }
  }

  /** The loop over the groups that have an uncompacted row. */
  method MergeAdmitted(ghost rows: seq<Row>, pairs: seq<(int, seq<Row>)>, legacy: bool, largest: int) returns (result: seq<Row>)
    requires legacy == !AllNumbered(rows) && largest == Largest(rows)
    ensures result == MergedFrom(rows, pairs)
  {
    result := [];
    for i := |pairs| downto 0
      invariant result == MergedFrom(rows, pairs[i..])
    {
      assert pairs[i..][1..] == pairs[i + 1..];
      var (number, group) := pairs[i];
      if exists r :: r in group && !r.compacted {
        var p := PairPayload(group);
        var hasUser, hasAssistant := !Blank(p.user), !Blank(p.assistant);
        if hasUser || hasAssistant {
          if (hasUser && hasAssistant) || (!legacy && number < largest) {
            result := [Row("", p.user, p.assistant, p.userRaw, p.assistantRaw, Some(number),
                           forall r :: r in group ==> r.tagged, false)] + result;
          }
        }
      }
    }
  }

  // ---- what the live restore makes of merged turns ----

  predicate AscendingRows(ms: seq<Row>) {
    forall i, j :: 0 <= i < j < |ms| ==> NumberOf(ms[i]) < NumberOf(ms[j])
  }

  function Singles(ms: seq<Row>): seq<(int, seq<Row>)> {
    if ms == [] then [] else [(NumberOf(ms[0]), [ms[0]])] + Singles(ms[1..])
  }

  function NumbersInOrder(ms: seq<Row>): seq<int> {
    seq(|ms|, i requires 0 <= i < |ms| => NumberOf(ms[i]))
  }

  lemma {:induction false} RowsOfOne(ms: seq<Row>, i: nat)
    requires AscendingRows(ms) && i < |ms|
    ensures RowsOf(ms, NumberOf(ms[i])) == [ms[i]]
  {
    var n := NumberOf(ms[i]);
    if i == 0 {
      RowsOfMembers(ms[1..], n);
      NoneMeansEmpty(RowsOf(ms[1..], n));
    } else {
      RowsOfOne(ms[1..], i - 1);
    }
  }

  lemma {:induction false} SinglesAt(ms: seq<Row>)
    ensures |Singles(ms)| == |ms|
    ensures forall i :: 0 <= i < |ms| ==> Singles(ms)[i] == (NumberOf(ms[i]), [ms[i]])
  {
    if ms != [] {
      SinglesAt(ms[1..]);
    }
  }

  lemma NumbersSorted(ms: seq<Row>)
    requires AscendingRows(ms)
    ensures Sorted(Numbers(ms)) == NumbersInOrder(ms)
  {
    var keys := NumbersInOrder(ms);
    forall k | k in Numbers(ms) ensures k in keys {
      var r :| r in ms && NumberOf(r) == k;
      var i :| 0 <= i < |ms| && ms[i] == r;
      assert keys[i] == k;
    }
    forall k | k in keys ensures k in Numbers(ms) {
      var i :| 0 <= i < |keys| && keys[i] == k;
      assert ms[i] in ms;
    }
    AscendingUnique(keys, Sorted(Numbers(ms)));
  }

  /** Distinct ascending numbers group into singletons. */
  lemma GroupedSingles(ms: seq<Row>)
    requires AscendingRows(ms) && AllNumbered(ms)
    ensures Grouped(ms) == Singles(ms)
  {
    var keys := NumbersInOrder(ms);
    NumbersSorted(ms);
    GroupedByNumber(ms);
    PairsOfAt(keys, ms);
    SinglesAt(ms);
    forall i | 0 <= i < |ms| ensures PairsOf(keys, ms)[i] == Singles(ms)[i] {
      RowsOfOne(ms, i);
    }
  }

  lemma LaterAbove(pairs: seq<(int, seq<Row>)>, q: (int, seq<Row>))
    requires pairs != [] && AscendingPairs(pairs) && q in pairs[1..]
    ensures pairs[0].0 < q.0
  {
    var j :| 0 <= j < |pairs[1..]| && pairs[1..][j] == q;
    assert pairs[j + 1] == q;
  }

  lemma {:induction false} MergedAbove(rows: seq<Row>, pairs: seq<(int, seq<Row>)>, n: int)
    requires forall p :: p in pairs ==> p.0 > n
    ensures forall m :: m in MergedFrom(rows, pairs) ==> NumberOf(m) > n
  {
    if pairs != [] {
      assert pairs == [pairs[0]] + pairs[1..];
      MergedAbove(rows, pairs[1..], n);
    }
  }

  lemma {:induction false} MergedAscends(rows: seq<Row>, pairs: seq<(int, seq<Row>)>)
    requires AscendingPairs(pairs) && forall p :: p in pairs ==> p.0 >= 0
    ensures AscendingRows(MergedFrom(rows, pairs)) && AllNumbered(MergedFrom(rows, pairs))
    decreases pairs
  {
    MergedAbove(rows, pairs, -1);
    if pairs != [] {
      var p, rest := pairs[0], pairs[1..];
      assert pairs == [p] + rest;
      forall q | q in rest ensures q.0 > p.0 {
        LaterAbove(pairs, q);
      }
      MergedAscends(rows, rest);
      MergedAbove(rows, rest, p.0);
      var ms := MergedFrom(rows, rest);
      assert forall i :: 0 <= i < |ms| ==> ms[i] in ms;
    }
  }

  /** The admitted turns. */
  function Selected(rows: seq<Row>, pairs: seq<(int, seq<Row>)>): seq<(int, seq<Row>)> {
    if pairs == [] then []
    else (if Admits(rows, pairs[0]) then [pairs[0]] else []) + Selected(rows, pairs[1..])
  }

  lemma MergedTurn(p: (int, seq<Row>))
    requires p.1 != []
    ensures var m := Merged(p.0, p.1);
            && PayloadOf([m]) == PayloadOf(p.1)
            && TaggedPair([m]) == TaggedPair(p.1)
            && LiveTurn((NumberOf(m), [m])) == LiveTurn(p)
  {
    var m := Merged(p.0, p.1);
    assert [m][1..] == [] && m in [m] && [m][0] == m;
    PartsEmpty(p.1);
    assert UserPart([m]) == if m.user != "" then (m.user, m.userRaw) else ("", None);
    assert AssistantPart([m]) == if m.assistant != "" then (m.assistant, m.assistantRaw) else ("", None);
  }

  lemma {:induction false} PartsEmpty(rows: seq<Row>)
    ensures UserPart(rows).0 == "" ==> UserPart(rows).1 == None
    ensures AssistantPart(rows).0 == "" ==> AssistantPart(rows).1 == None
  {
    if rows != [] {
      PartsEmpty(rows[1..]);
    }
  }

  lemma {:induction false} MergedHistory(rows: seq<Row>, pairs: seq<(int, seq<Row>)>)
    requires forall p :: p in pairs ==> p.1 != []
    ensures LiveHistory(Singles(MergedFrom(rows, pairs))) == FullHistory(Selected(rows, pairs))
    ensures PendingTurns(Singles(MergedFrom(rows, pairs))) == PendingTurns(Selected(rows, pairs))
  {
    if pairs != [] {
      assert pairs[0] in pairs;
      assert forall p :: p in pairs[1..] ==> p in pairs;
      MergedHistory(rows, pairs[1..]);
      if Admits(rows, pairs[0]) {
        MergedTurn(pairs[0]);
        var ms, m := MergedFrom(rows, pairs), Merged(pairs[0].0, pairs[0].1);
        assert ms[0] == m && ms[1..] == MergedFrom(rows, pairs[1..]);
        var sel, one := Selected(rows, pairs), Singles(ms);
        assert sel[0] == pairs[0] && sel[1..] == Selected(rows, pairs[1..]);
        assert one[0] == (NumberOf(m), [m]) && one[1..] == Singles(ms[1..]);
      } else {
        assert MergedFrom(rows, pairs) == MergedFrom(rows, pairs[1..]);
        assert Selected(rows, pairs) == Selected(rows, pairs[1..]);
      }
    }
  }

  /** Through the relational stores the live restore is the full restore of
      the admitted turns, with the numbers and texts of the full one, however
      the rows are numbered or split by compaction. */
  lemma MergedLiveIsSelectedFull(rows: seq<Row>)
    ensures LiveRestore(MergedReads(rows))
         == Restored(FullHistory(Selected(rows, Grouped(rows))), PendingTurns(Selected(rows, Grouped(rows))))
  {
    GroupedAscends(rows);
    MergedAscends(rows, Grouped(rows));
    GroupedSingles(MergedReads(rows));
    MergedHistory(rows, Grouped(rows));
  }

  /** A turn on which the selection loses nothing. */
  predicate Preserved(rows: seq<Row>, p: (int, seq<Row>)) {
    if AllCompacted(p.1) then AllTagged(p.1) else Admits(rows, p)
  }

  lemma PreservedStep(rows: seq<Row>, p: (int, seq<Row>), rest: seq<(int, seq<Row>)>)
    requires p.1 != [] && forall q :: q in rest ==> q.0 > p.0
    ensures var kept, sel := Admits(rows, p), Selected(rows, rest);
            (if kept then FullPart(p.0, p.1) else []) + FullHistory(sel) == FullPart(p.0, p.1) + FullHistory(rest)
            && (if kept then PendingPart(p.0, p.1) else []) + PendingTurns(sel) == PendingPart(p.0, p.1) + PendingTurns(rest)
            <==> Preserved(rows, p) && FullHistory(sel) == FullHistory(rest) && PendingTurns(sel) == PendingTurns(rest)
  {
    var kept, sel := Admits(rows, p), Selected(rows, rest);
    SelectedMembers(rows, rest);
    TurnsAbove(rest, p.0);
    TurnsAbove(sel, p.0);
    SplitHead(if kept then FullPart(p.0, p.1) else [], FullHistory(sel), FullPart(p.0, p.1), FullHistory(rest), p.0);
    SplitHead(if kept then PendingPart(p.0, p.1) else [], PendingTurns(sel), PendingPart(p.0, p.1), PendingTurns(rest), p.0);
  }

  lemma UnfoldSelected(rows: seq<Row>, pairs: seq<(int, seq<Row>)>)
    requires pairs != [] && pairs[0].1 != []
    ensures var p, kept, sel := pairs[0], Admits(rows, pairs[0]), Selected(rows, pairs[1..]);
            && FullHistory(Selected(rows, pairs)) == (if kept then FullPart(p.0, p.1) else []) + FullHistory(sel)
            && PendingTurns(Selected(rows, pairs)) == (if kept then PendingPart(p.0, p.1) else []) + PendingTurns(sel)
            && FullHistory(pairs) == FullPart(p.0, p.1) + FullHistory(pairs[1..])
            && PendingTurns(pairs) == PendingPart(p.0, p.1) + PendingTurns(pairs[1..])
  {
    var s := Selected(rows, pairs);
    if Admits(rows, pairs[0]) {
      assert s[0] == pairs[0] && s[1..] == Selected(rows, pairs[1..]);
    } else {
      assert s == Selected(rows, pairs[1..]);
    }
  }

  lemma {:induction false} SelectionExact(rows: seq<Row>, pairs: seq<(int, seq<Row>)>)
    requires AscendingPairs(pairs) && forall p :: p in pairs ==> p.1 != []
    ensures FullHistory(Selected(rows, pairs)) == FullHistory(pairs) && PendingTurns(Selected(rows, pairs)) == PendingTurns(pairs)
       <==> forall p :: p in pairs ==> Preserved(rows, p)
  {
    if pairs != [] {
      var p, rest := pairs[0], pairs[1..];
      assert pairs == [p] + rest && p in pairs;
      SelectionExact(rows, rest);
      forall q | q in rest ensures q.0 > p.0 {
        var j :| 0 <= j < |rest| && rest[j] == q;
        assert pairs[j + 1] == q;
      }
      UnfoldSelected(rows, pairs);
      PreservedStep(rows, p, rest);
    }
  }

  lemma {:induction false} SelectedMembers(rows: seq<Row>, pairs: seq<(int, seq<Row>)>)
    ensures forall p :: p in Selected(rows, pairs) ==> p in pairs
  {
    if pairs != [] {
      SelectedMembers(rows, pairs[1..]);
      assert pairs == [pairs[0]] + pairs[1..];
    }
  }

  /** Hence it equals the full restore if and only if every compacted turn is
      tagged and every other turn is admitted: it is not blank, and it is
      complete unless stored numbers put a later turn after it. */
  lemma MergedLiveExact(rows: seq<Row>)
    ensures LiveRestore(MergedReads(rows)) == FullRestore(rows)
       <==> forall p :: p in Grouped(rows) ==> Preserved(rows, p)
  {
    GroupedAscends(rows);
    MergedLiveIsSelectedFull(rows);
    SelectionExact(rows, Grouped(rows));
  }

  // ---- group number -1 ----

  function Complete(compacted: bool): Row {
    Row("", "q", "a", None, None, Some(-1), true, compacted)
  }

  lemma DefaultPairs()
    ensures Grouped([Complete(true), Complete(false)]) == [(0, [Complete(true)]), (1, [Complete(false)])]
    ensures Grouped([Complete(false)]) == [(0, [Complete(false)])]
  {
    var c, l := Complete(true), Complete(false);
    assert c in [c, l] && l in [l];
    GroupsOfTwo(c, l);
    GroupsOfOne(l);
    var two: seq<seq<Row>>, one: seq<seq<Row>> := [[c]] + [[l]], [[l]];
    NumberedFromAt(0, two);
    NumberedFromAt(0, one);
    assert Numbered(two)[0] == (0, [c]) && Numbered(two)[1] == (1, [l]);
    assert Numbered(one)[0] == (0, [l]);
    assert !AllNumbered([c, l]) && !AllNumbered([l]);
    assert Grouped([c, l]) == [(0, [c]), (1, [l])];
    assert Grouped([l]) == [(0, [l])];
  }

  lemma DefaultKept()
    ensures Kept([Complete(true), Complete(false)]) == [Complete(false)]
  {
    var c, l := Complete(true), Complete(false);
    assert [c, l][1..] == [l] && [l][1..] == [];
    FilterHead([c, l], Uncompacted);
    FilterHead([l], Uncompacted);
    assert Filter([l], Uncompacted) == [l] + Filter([l][1..], Uncompacted);
  }

  /** The guard looks for a missing group number only. Rows numbered -1, the
      default of the field, pass it and are then numbered by their position
      among the uncompacted rows. */
  lemma DefaultGroupMisnumbers()
    ensures var rows := [Complete(true), Complete(false)];
            && (forall r :: r in Kept(rows) ==> r.group.Some?)
            && FullRestore(rows).history == [Live(1, "q", "a")]
            && LiveRestore(Kept(rows)).history == [Live(0, "q", "a")]
  {
    var c, l := Complete(true), Complete(false);
    DefaultPairs();
    DefaultKept();
    assert c in [c] && l in [l];
    var full: seq<(int, seq<Row>)>, live: seq<(int, seq<Row>)> := [(0, [c]), (1, [l])], [(0, [l])];
    assert full[1..] == [(1, [l])];
    assert full[1..][1..] == [] && live[1..] == [];
    assert FullHistory(full[1..]) == [Live(1, "q", "a")];
  }
}
