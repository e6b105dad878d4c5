/** The engine's progress markers in self-managed mode: loading, restoring
    from canonical rows, indexing and saving. */
module Checkpoint {
  import opened Seqs
  import opened CanonicalRows
  import opened PositionalGrouping
  import opened ExplicitGrouping
  import opened Watermark
  import opened Restore
  import opened TurnTags

  datatype Markers = Markers(
    compactedPrefix: int,
    flushedPrefix: int,
    lastCompacted: int,
    lastCompleted: int,
    lastIndexed: int,
    version: int)

  /** A stored or cached checkpoint. Fields a cached dictionary may lack are
      optional; `flushed` is None when the key is absent. */
  datatype Checkpoint = Checkpoint(
    compacted: int,
    flushed: Option<int>,
    lastCompacted: Option<int>,
    lastCompleted: Option<int>,
    lastIndexed: Option<int>,
    version: int,
    entries: seq<Entry>)

  function Max(a: int, b: int): int { if a >= b then a else b }

  function Min(a: int, b: int): int { if a <= b then a else b }

  function Or(o: Option<int>, default: int): int {
    if o.Some? then o.value else default
  }

  function HighestTurn(entries: seq<Entry>): int {
    if entries == [] then -1
    else if |entries| == 1 then entries[0].turn
    else Max(entries[0].turn, HighestTurn(entries[1..]))
  }

  // ---- the index a restore rebuilds ----

  function FirstId(rows: seq<Row>): string {
    if rows == [] then "" else if rows[0].id != "" then rows[0].id else FirstId(rows[1..])
  }

  /** One entry per tagged turn; `digest` stands for the message hash. */
  function IndexEntries(pairs: seq<(int, seq<Row>)>, digest: string -> string): seq<Entry> {
    if pairs == [] then []
    else (if TaggedPair(pairs[0].1) then [EntryOf(pairs[0], digest)] else []) + IndexEntries(pairs[1..], digest)
  }

  function EntryOf(p: (int, seq<Row>), digest: string -> string): Entry {
    Entry(p.0, FirstId(p.1), digest(PayloadOf(p.1).user + " " + PayloadOf(p.1).assistant))
  }

  /** The number of the last turn, -1 when there is none. */
  function LastTurn(pairs: seq<(int, seq<Row>)>): int {
    if pairs == [] then -1 else pairs[|pairs| - 1].0
  }

  function LastTagged(pairs: seq<(int, seq<Row>)>): int {
    if pairs == [] then -1
    else if TaggedPair(pairs[|pairs| - 1].1) then pairs[|pairs| - 1].0
    else LastTagged(pairs[..|pairs| - 1])
  }

  lemma {:induction false} LastTaggedBound(pairs: seq<(int, seq<Row>)>)
    requires AscendingPairs(pairs) && forall p :: p in pairs ==> p.0 >= 0
    ensures LastTagged(pairs) <= LastTurn(pairs)
    decreases |pairs|
  {
    if pairs != [] {
      var n := |pairs| - 1;
      LastTaggedBound(pairs[..n]);
      assert pairs[n] in pairs;
      assert n > 0 ==> pairs[..n][n - 1] == pairs[n - 1];
    }
  }

  // ---- what each operation does to the markers ----

  /** `_update_checkpoint_markers`; `fromHistory` is the last complete turn of
      the conversation history, -1 when there is none. */
  function Updated(m: Markers, entries: seq<Entry>, fromHistory: int, completed: Option<int>, indexed: Option<int>): Markers {
    var i := Max(m.lastIndexed, Max(HighestTurn(entries), Or(indexed, HighestTurn(entries))));
    var c := Max(Max(fromHistory, Or(completed, fromHistory)), i);
    var compactedTurn := if m.compactedPrefix <= 0 then -1 else m.compactedPrefix / 2 - 1;
    m.(lastIndexed := i, lastCompleted := Max(m.lastCompleted, c), lastCompacted := Max(m.lastCompacted, compactedTurn))
  }

  /** `_restore_from_canonical_rows`; `mark` is the watermark used. */
  function RestoredMarkers(m: Markers, pairs: seq<(int, seq<Row>)>, mark: (int, int)): Markers {
    Markers(mark.0, Min(m.flushedPrefix, mark.0), mark.1,
            Max(m.lastCompleted, LastTurn(pairs)), Max(m.lastIndexed, LastTagged(pairs)), Max(m.version, 4))
  }

  function LoadedMarkers(c: Checkpoint): Markers {
    Markers(c.compacted,
            if c.flushed.Some? then c.flushed.value else c.compacted,
            Or(c.lastCompacted, if c.compacted > 0 then c.compacted / 2 - 1 else -1),
            Or(c.lastCompleted, |c.entries| - 1),
            Or(c.lastIndexed, |c.entries| - 1),
            c.version)
  }

  /** A loaded checkpoint, put in order by `_update_checkpoint_markers`. */
  function OrderedLoad(index: seq<Entry>, c: Checkpoint): Markers {
    Updated(LoadedMarkers(c), AppendAll(index, c.entries), -1, None, None)
  }

  ghost function MarkFor(rows: seq<Row>, mark: Option<(int, int)>): (int, int) {
    if mark.Some? then mark.value else MarkOf(Grouped(rows))
  }

  ghost function AfterRestore(m: Markers, read: Option<seq<Row>>, mark: Option<(int, int)>): Markers {
    if read.None? || read.value == [] then m
    else RestoredMarkers(m, Grouped(read.value), MarkFor(read.value, mark))
  }

  /** The compaction markers overridden by a fresh watermark. */
  function AfterDerived(m: Markers, derived: Option<(int, int)>): Markers {
    if derived.None? then m
    else m.(compactedPrefix := derived.value.0, lastCompacted := derived.value.1,
            flushedPrefix := Min(m.flushedPrefix, derived.value.0))
  }

  // ---- what each operation promises of the markers ----

  /** `x` is the largest of `floor` and the numbers in `of`. */
  ghost predicate LargestOf(x: int, floor: int, of: set<int>) {
    && x >= floor && (forall n :: n in of ==> x >= n)
    && (x == floor || x in of)
  }

  function TurnsIn(entries: seq<Entry>): set<int> { set e | e in entries :: e.turn }

  function Given(o: Option<int>): set<int> { if o.Some? then {o.value} else {} }

  /** Indexed, completed and compacted turn are raised, and no further than to
      something seen; the rest stays. */
  ghost predicate Raised(m: Markers, m': Markers, entries: seq<Entry>, fromHistory: int, completed: Option<int>, indexed: Option<int>) {
    && LargestOf(m'.lastIndexed, m.lastIndexed, TurnsIn(entries) + Given(indexed) + if entries == [] then {-1} else {})
    && LargestOf(m'.lastCompleted, m.lastCompleted, {fromHistory, m'.lastIndexed} + Given(completed))
    && LargestOf(m'.lastCompacted, m.lastCompacted, {if m.compactedPrefix > 0 then m.compactedPrefix / 2 - 1 else -1})
    && m'.compactedPrefix == m.compactedPrefix && m'.flushedPrefix == m.flushedPrefix
  }

  lemma {:induction false} HighestTurnIs(entries: seq<Entry>)
    ensures entries == [] ==> HighestTurn(entries) == -1
    ensures entries != [] ==> HighestTurn(entries) in TurnsIn(entries)
    ensures forall t :: t in TurnsIn(entries) ==> t <= HighestTurn(entries)
  {
    if entries != [] {
      var rest := entries[1..];
      assert entries == [entries[0]] + rest && entries[0] in entries;
      assert TurnsIn(entries) == {entries[0].turn} + TurnsIn(rest);
      if rest != [] {
        HighestTurnIs(rest);
      }
    }
  }

  lemma UpdatedIsRaised(m: Markers, entries: seq<Entry>, fromHistory: int, completed: Option<int>, indexed: Option<int>)
    ensures Raised(m, Updated(m, entries, fromHistory, completed, indexed), entries, fromHistory, completed, indexed)
    ensures Updated(m, entries, fromHistory, completed, indexed).version == m.version
  {
    HighestTurnIs(entries);
  }

  /** The markers after canonical rows were read: the watermark is taken over
      and bounds what was flushed, completed and indexed turn are raised to the
      last turn and the last tagged one. */
  ghost predicate Corrected(m: Markers, m': Markers, pairs: seq<(int, seq<Row>)>, mark: (int, int)) {
    && m'.compactedPrefix == mark.0 && m'.lastCompacted == mark.1
    && m'.flushedPrefix <= m.flushedPrefix && m'.flushedPrefix <= mark.0 && m'.flushedPrefix in {m.flushedPrefix, mark.0}
    && LargestOf(m'.lastCompleted, m.lastCompleted, (set p | p in pairs :: p.0) + if pairs == [] then {-1} else {})
    && LargestOf(m'.lastIndexed, m.lastIndexed, TaggedTurns(pairs) + if TaggedTurns(pairs) == {} then {-1} else {})
    && LargestOf(m'.version, m.version, {4})
  }

  function TaggedTurns(pairs: seq<(int, seq<Row>)>): set<int> {
    set p | p in pairs && p.1 != [] && (forall r :: r in p.1 ==> r.tagged) :: p.0
  }

  /** The markers as a checkpoint has them; a field that is not there is
      derived from the compacted prefix or from how many entries there are. */
  ghost predicate ReadFrom(c: Checkpoint, m: Markers) {
    && m.compactedPrefix == c.compacted && m.version == c.version
    && Some(m.flushedPrefix) == (if c.flushed.None? then Some(c.compacted) else c.flushed)
    && (c.lastCompacted.Some? ==> c.lastCompacted == Some(m.lastCompacted))
    && (c.lastCompacted.None? ==> if c.compacted > 0 then m.lastCompacted == c.compacted / 2 - 1 else m.lastCompacted == -1)
    && (c.lastCompleted.Some? ==> c.lastCompleted == Some(m.lastCompleted))
    && (c.lastCompleted.None? ==> m.lastCompleted == |c.entries| - 1)
    && (c.lastIndexed.Some? ==> c.lastIndexed == Some(m.lastIndexed))
    && (c.lastIndexed.None? ==> m.lastIndexed == |c.entries| - 1)
  }

  /** Read from a checkpoint and raised over the index it fills. */
  ghost predicate Ordered(c: Checkpoint, before: seq<Entry>, m: Markers) {
    exists read :: ReadFrom(c, read) && Raised(read, m, AppendAll(before, c.entries), -1, None, None)
  }

  lemma OrderedLoadIs(c: Checkpoint, before: seq<Entry>)
    ensures Ordered(c, before, OrderedLoad(before, c))
  {
    assert ReadFrom(c, LoadedMarkers(c));
    UpdatedIsRaised(LoadedMarkers(c), AppendAll(before, c.entries), -1, None, None);
  }

  /** What reading canonical rows makes of markers, if there are any. */
  ghost predicate CorrectedBy(m: Markers, m': Markers, rows: Option<seq<Row>>, mark: Option<(int, int)>) {
    if rows.None? || rows.value == [] then m' == m
    else exists derived ::
           && (if mark.Some? then derived == mark.value else IsWatermark(Grouped(rows.value), derived))
           && Corrected(m, m', Grouped(rows.value), derived)
  }

  lemma LastTurnIs(pairs: seq<(int, seq<Row>)>)
    requires AscendingPairs(pairs)
    ensures pairs == [] ==> LastTurn(pairs) == -1
    ensures pairs != [] ==> exists p :: p in pairs && p.0 == LastTurn(pairs)
    ensures forall p :: p in pairs ==> p.0 <= LastTurn(pairs)
  {
    if pairs != [] {
      assert pairs[|pairs| - 1] in pairs;
    }
  }

  lemma TaggedSnoc(front: seq<(int, seq<Row>)>, p: (int, seq<Row>))
    ensures TaggedTurns(front + [p]) == TaggedTurns(front) + if TaggedPair(p.1) then {p.0} else {}
  {
    assert forall q :: q in front + [p] <==> q in front || q == p;
  }

  lemma {:induction false} LastTaggedIs(pairs: seq<(int, seq<Row>)>)
    requires AscendingPairs(pairs)
    ensures TaggedTurns(pairs) == {} ==> LastTagged(pairs) == -1
    ensures TaggedTurns(pairs) != {} ==> LastTagged(pairs) in TaggedTurns(pairs)
    ensures forall n :: n in TaggedTurns(pairs) ==> n <= LastTagged(pairs)
    decreases |pairs|
  {
    if pairs != [] {
      var front, p := pairs[..|pairs| - 1], pairs[|pairs| - 1];
      LastTaggedIs(front);
      assert pairs == front + [p];
      TaggedSnoc(front, p);
      assert forall q :: q in front ==> q.0 < p.0;
    }
  }

  lemma RestoredIsCorrected(m: Markers, pairs: seq<(int, seq<Row>)>, mark: (int, int))
    requires AscendingPairs(pairs)
    ensures Corrected(m, RestoredMarkers(m, pairs, mark), pairs, mark)
  {
    LastTurnIs(pairs);
    LastTaggedIs(pairs);
    assert pairs != [] ==> LastTurn(pairs) in set p | p in pairs :: p.0;
  }

  lemma RestoredByRows(m: Markers, rows: seq<Row>, mark: Option<(int, int)>, derived: (int, int))
    requires rows != [] && derived == MarkFor(rows, mark)
    requires mark.None? ==> IsWatermark(Grouped(rows), derived)
    ensures AfterRestore(m, Some(rows), mark) == RestoredMarkers(m, Grouped(rows), derived)
    ensures CorrectedBy(m, RestoredMarkers(m, Grouped(rows), derived), Some(rows), mark)
  {
    GroupedAscends(rows);
    RestoredIsCorrected(m, Grouped(rows), derived);
  }

  /** The compaction markers replaced by a fresh watermark, if there is one,
      which also bounds what was flushed. */
  predicate Overridden(m: Markers, m': Markers, derived: Option<(int, int)>) {
    && m' == m.(compactedPrefix := m'.compactedPrefix, lastCompacted := m'.lastCompacted, flushedPrefix := m'.flushedPrefix)
    && (derived.None? ==> m' == m)
    && (derived.Some? ==>
          && m'.compactedPrefix == derived.value.0 && m'.lastCompacted == derived.value.1
          && m'.flushedPrefix <= m.flushedPrefix && m'.flushedPrefix <= derived.value.0
          && m'.flushedPrefix in {m.flushedPrefix, derived.value.0})
  }

  // ---- what the rebuilt index holds ----

  lemma {:induction false} FirstIdIs(rows: seq<Row>, i: nat)
    requires i < |rows| && rows[i].id != "" && forall j :: 0 <= j < i ==> rows[j].id == ""
    ensures FirstId(rows) == rows[i].id
    decreases i
  {
    if i > 0 {
      assert rows[0].id == "";
      FirstIdIs(rows[1..], i - 1);
    }
  }

  lemma {:induction false} NoFirstId(rows: seq<Row>)
    requires forall r :: r in rows ==> r.id == ""
    ensures FirstId(rows) == ""
  {
    if rows != [] {
      assert rows == [rows[0]] + rows[1..] && rows[0] in rows;
      NoFirstId(rows[1..]);
    }
  }

  predicate EntriesOver(entries: seq<Entry>, n: int) { forall e :: e in entries ==> e.turn > n }

  predicate EntriesAscend(entries: seq<Entry>) {
    forall i, j :: 0 <= i < j < |entries| ==> entries[i].turn < entries[j].turn
  }

  lemma ConsEntriesAscend(e: Entry, rest: seq<Entry>)
    requires EntriesOver(rest, e.turn) && EntriesAscend(rest)
    ensures EntriesAscend([e] + rest)
  {
    assert forall j :: 0 <= j < |rest| ==> rest[j] in rest;
  }

  lemma {:induction false} IndexOver(pairs: seq<(int, seq<Row>)>, digest: string -> string, n: int)
    requires forall p :: p in pairs ==> p.0 > n
    ensures EntriesOver(IndexEntries(pairs, digest), n)
    decreases pairs
  {
    if pairs != [] {
      assert pairs == [pairs[0]] + pairs[1..] && pairs[0] in pairs;
      IndexOver(pairs[1..], digest, n);
    }
  }

  lemma LaterPairs(pairs: seq<(int, seq<Row>)>)
    requires pairs != [] && AscendingPairs(pairs)
    ensures AscendingPairs(pairs[1..]) && forall p :: p in pairs[1..] ==> p.0 > pairs[0].0
  {
    forall p | p in pairs[1..] ensures p.0 > pairs[0].0 {
      var i :| 0 <= i < |pairs[1..]| && pairs[1..][i] == p;
      assert pairs[i + 1] == p;
    }
  }

  /** The entries come in the order of their turns. */
  lemma {:induction false} IndexAscends(pairs: seq<(int, seq<Row>)>, digest: string -> string)
    requires AscendingPairs(pairs)
    ensures EntriesAscend(IndexEntries(pairs, digest))
    decreases pairs
  {
    if pairs != [] {
      var rest := IndexEntries(pairs[1..], digest);
      LaterPairs(pairs);
      IndexAscends(pairs[1..], digest);
      IndexOver(pairs[1..], digest, pairs[0].0);
      if TaggedPair(pairs[0].1) {
        ConsEntriesAscend(EntryOf(pairs[0], digest), rest);
      } else {
        assert [] + rest == rest;
      }
    }
  }

  /** One entry for each tagged turn: its number, the first id of its rows and
      the digest of its two texts. */
  lemma {:induction false} IndexHoldsTagged(pairs: seq<(int, seq<Row>)>, digest: string -> string)
    ensures forall e :: e in IndexEntries(pairs, digest) <==>
              exists p :: && p in pairs && p.1 != [] && (forall r :: r in p.1 ==> r.tagged)
                          && e == Entry(p.0, FirstId(p.1), digest(PayloadOf(p.1).user + " " + PayloadOf(p.1).assistant))
    decreases pairs
  {
    if pairs != [] {
      assert pairs == [pairs[0]] + pairs[1..];
      IndexHoldsTagged(pairs[1..], digest);
    }
  }

  class Engine {
    var state: Markers
    var index: seq<Entry>
    var history: seq<Turn>
    var pending: seq<Turn>
    const digest: string -> string

    constructor (digest: string -> string)
      ensures state == Markers(0, 0, -1, -1, -1, 0) && index == [] && history == [] && pending == []
      ensures this.digest == digest
    {
      state, index, history, pending := Markers(0, 0, -1, -1, -1, 0), [], [], [];
      this.digest := digest;
    }

    method UpdateCheckpointMarkers(fromHistory: int, completed: Option<int>, indexed: Option<int>)
      modifies this`state
      ensures state == Updated(old(state), index, fromHistory, completed, indexed)
      ensures Raised(old(state), state, index, fromHistory, completed, indexed) && state.version == old(state).version
    {
      UpdatedIsRaised(state, index, fromHistory, completed, indexed);
      var i := HighestTurn(index);
      if indexed.Some? {
        i := Max(i, indexed.value);
      }
      state := state.(lastIndexed := Max(state.lastIndexed, i));
      var c := fromHistory;
      if completed.Some? {
        c := Max(c, completed.value);
      }
      c := Max(c, state.lastIndexed);
      state := state.(lastCompleted := Max(state.lastCompleted, c));
      var compactedTurn := state.compactedPrefix / 2 - 1;
      if state.compactedPrefix <= 0 {
        compactedTurn := -1;
      }
      state := state.(lastCompacted := Max(state.lastCompacted, compactedTurn));
    }

    /** `rows` is None when the store cannot be read, `mark` the store's own
        watermark when it keeps one. */
    method RestoreFromCanonicalRows(rows: Option<seq<Row>>, mark: Option<(int, int)>) returns (ok: bool)
      modifies this
      ensures ok <==> rows.Some? && rows.value != []
      ensures !ok ==> index == old(index) && history == old(history) && pending == old(pending)
      ensures state == AfterRestore(old(state), rows, mark)
      ensures CorrectedBy(old(state), state, rows, mark)
      ensures ok ==>
                && Restored(history, pending) == FullRestore(rows.value)
                && index == AppendAll([], IndexEntries(Grouped(rows.value), digest))
    {
      if rows.None? || rows.value == [] {
        return false;
      }
      var pairs := GroupCanonicalRows(rows.value);
      RebuildIndex(pairs);
      var derived := DeriveMark(pairs, mark);
      RestoredByRows(state, rows.value, mark, derived);
      RaiseMarkers(pairs, derived);
      history := CollectHistory(pairs, true);
      pending := CollectPending(pairs);
      return true;
    }

    /** The store's watermark or, without one, that of the pairs. */
    method DeriveMark(pairs: seq<(int, seq<Row>)>, mark: Option<(int, int)>) returns (derived: (int, int))
      ensures derived == if mark.Some? then mark.value else MarkOf(pairs)
      ensures mark.None? ==> IsWatermark(pairs, derived)
    {
      if mark.Some? {
        return mark.value;
      }
      derived := CanonicalPrefixWatermark(pairs);
      WatermarkUnique(pairs, derived, MarkOf(pairs));
    }

    /** The marker assignments of the restore, in order. */
    method RaiseMarkers(pairs: seq<(int, seq<Row>)>, derived: (int, int))
      modifies this`state
      ensures state == RestoredMarkers(old(state), pairs, derived)
    {
      state := state.(compactedPrefix := derived.0);
      state := state.(flushedPrefix := Min(state.flushedPrefix, derived.0));
      state := state.(lastCompacted := derived.1);
      var completed := if pairs == [] then -1 else pairs[|pairs| - 1].0;
      var indexed := LastTaggedTurn(pairs);
      state := state.(lastCompleted := Max(state.lastCompleted, completed));
      state := state.(lastIndexed := Max(state.lastIndexed, indexed));
      state := state.(version := Max(state.version, 4));
    }

    method RebuildIndex(pairs: seq<(int, seq<Row>)>)
      modifies this`index
      ensures index == AppendAll([], IndexEntries(pairs, digest))
    {
      index := [];
      assert pairs[0..] == pairs;
      for i := 0 to |pairs|
        invariant AppendAll(index, IndexEntries(pairs[i..], digest)) == AppendAll([], IndexEntries(pairs, digest))
      {
        assert pairs[i..][1..] == pairs[i + 1..];
        var (number, rows) := pairs[i];
        if rows != [] && forall r :: r in rows ==> r.tagged {
          var p := PairPayload(rows);
          var e := Entry(number, FirstId(rows), digest(p.user + " " + p.assistant));
          assert ([e] + IndexEntries(pairs[i + 1..], digest))[1..] == IndexEntries(pairs[i + 1..], digest);
          index := Append(index, e);
        } else {
          assert IndexEntries(pairs[i..], digest) == IndexEntries(pairs[i + 1..], digest);
        }
      }
      assert pairs[|pairs|..] == [];
    }

    method LastTaggedTurn(pairs: seq<(int, seq<Row>)>) returns (n: int)
      ensures n == LastTagged(pairs)
    {
      n := -1;
      for i := 0 to |pairs|
        invariant n == LastTagged(pairs[..i])
      {
        assert pairs[..i + 1][..i] == pairs[..i];
        if pairs[i].1 != [] && forall r :: r in pairs[i].1 ==> r.tagged {
          n := pairs[i].0;
        }
      }
      assert pairs[..|pairs|] == pairs;
    }

    /** `_load_persisted_state` on an engine whose index is still empty. */
    method LoadPersistedState(saved: Option<Checkpoint>, rows: Option<seq<Row>>, mark: Option<(int, int)>)
      modifies this
      ensures saved.None? ==> state == old(state) && index == old(index)
      ensures saved.Some? ==> state == AfterRestore(OrderedLoad(old(index), saved.value), rows, mark)
      ensures saved.Some? ==> exists m :: Ordered(saved.value, old(index), m) && CorrectedBy(m, state, rows, mark)
      ensures saved.Some? ==>
                Restored(history, pending) == if rows.None? then Restored([], []) else FullRestore(rows.value)
    {
      if saved.None? {
        return;
      }
      OrderedLoadIs(saved.value, index);
      state := LoadedMarkers(saved.value);
      index := AppendAll(index, saved.value.entries);
      UpdateCheckpointMarkers(-1, None, None);
      var ok := RestoreFromCanonicalRows(rows, mark);
      if !ok {
        history, pending := [], [];
        assert Grouped([]) == [];
      }
    }

    /** `_apply_cached_state`, with the watermark derived afresh at the end
        (None when it could not be). */
    method ApplyCachedState(cached: Checkpoint, derived: Option<(int, int)>)
      modifies this
      ensures index == AppendAll(old(index), cached.entries)
      ensures state == AfterDerived(OrderedLoad(old(index), cached), derived)
      ensures exists m :: Ordered(cached, old(index), m) && Overridden(m, state, derived)
    {
      OrderedLoadIs(cached, index);
      state := LoadedMarkers(cached);
      index := AppendAll(index, cached.entries);
      UpdateCheckpointMarkers(-1, None, None);
      if derived.Some? {
        state := state.(compactedPrefix := derived.value.0, lastCompacted := derived.value.1);
        state := state.(flushedPrefix := Min(state.flushedPrefix, derived.value.0));
      }
    }

    /** Indexing a turn touches the index only. */
    method IndexTurn(e: Entry)
      modifies this`index
      ensures index == Append(old(index), e)
    {
      index := Append(index, e);
    }

    /** The marker part of `_save_state`. */
    method SaveState(fromHistory: int, completed: Option<int>, indexed: Option<int>)
      modifies this`state
      ensures state == Updated(old(state), index, fromHistory, completed, indexed).(version := old(state).version + 1)
      ensures Raised(old(state), state, index, fromHistory, completed, indexed) && state.version == old(state).version + 1
    {
      UpdateCheckpointMarkers(fromHistory, completed, indexed);
      state := state.(version := state.version + 1);
    }
  }

  // ---- every run of the operations ----

  datatype Op =
    | LoadStored(saved: Checkpoint, read: Option<seq<Row>>, mark: Option<(int, int)>)
    | LoadCached(cached: Checkpoint, derived: Option<(int, int)>)
    | RestoreRows(rows: seq<Row>, mark: Option<(int, int)>)
    | IndexOne(e: Entry)
    | SaveOne(fromHistory: int, completed: Option<int>, indexed: Option<int>)

  datatype Progress = Progress(state: Markers, index: seq<Entry>)

  /** The effect of each method above on markers and index; indexing writes
      any index, the rebuilt one included. */
  ghost predicate Performs(p: Progress, op: Op, p': Progress) {
    match op
    case LoadStored(saved, read, mark) => p'.state == AfterRestore(OrderedLoad(p.index, saved), read, mark)
    case LoadCached(cached, derived) => p'.state == AfterDerived(OrderedLoad(p.index, cached), derived)
    case RestoreRows(rows, mark) => p'.state == AfterRestore(p.state, Some(rows), mark)
    case IndexOne(e) => p'.state == p.state
    case SaveOne(h, c, i) =>
      p'.index == p.index && p'.state == Updated(p.state, p.index, h, c, i).(version := p.state.version + 1)
  }

  predicate ReadsRows(op: Op) {
    match op
    case LoadStored(_, read, _) => read.Some? && read.value != []
    case LoadCached(_, derived) => derived.Some?
    case RestoreRows(rows, _) => rows != []
    case _ => false
  }

  predicate Loads(op: Op) { op.LoadStored? || op.LoadCached? }

  /** What each operation keeps or establishes, whatever checkpoint it loads:
      a loaded pair of markers may be the wrong way round. */
  lemma StepKeepsOrder(p: Progress, op: Op, p': Progress)
    requires Performs(p, op, p')
    requires p.state.lastIndexed <= p.state.lastCompleted
    ensures p'.state.lastIndexed <= p'.state.lastCompleted
    ensures !Loads(op) ==> p.state.lastIndexed <= p'.state.lastIndexed && p.state.lastCompleted <= p'.state.lastCompleted
    ensures ReadsRows(op) ==> p'.state.flushedPrefix <= p'.state.compactedPrefix
    ensures !Loads(op) && !ReadsRows(op) ==>
              p'.state.flushedPrefix == p.state.flushedPrefix && p'.state.compactedPrefix == p.state.compactedPrefix
  {
    if ReadsRows(op) && !op.LoadCached? {
      var rows := if op.LoadStored? then op.read.value else op.rows;
      GroupedAscends(rows);
      LastTaggedBound(Grouped(rows));
    }
  }

  ghost predicate IsRun(ps: seq<Progress>, ops: seq<Op>) {
    && |ps| == |ops| + 1
    && ps[0].state == Markers(0, 0, -1, -1, -1, 0)
    && forall i :: 0 <= i < |ops| ==> Performs(ps[i], ops[i], ps[i + 1])
  }

  lemma {:induction false} RunKeepsOrder(ps: seq<Progress>, ops: seq<Op>, i: nat)
    requires IsRun(ps, ops) && i < |ps|
    ensures ps[i].state.lastIndexed <= ps[i].state.lastCompleted
    decreases i
  {
    if i > 0 {
      RunKeepsOrder(ps, ops, i - 1);
      StepKeepsOrder(ps[i - 1], ops[i - 1], ps[i]);
    }
  }

  /** The step taken at one point of a run. */
  lemma StepInRun(ps: seq<Progress>, ops: seq<Op>, k: nat)
    requires IsRun(ps, ops) && k < |ops|
    ensures !Loads(ops[k]) ==>
              ps[k].state.lastIndexed <= ps[k + 1].state.lastIndexed && ps[k].state.lastCompleted <= ps[k + 1].state.lastCompleted
  {
    RunKeepsOrder(ps, ops, k);
    StepKeepsOrder(ps[k], ops[k], ps[k + 1]);
  }

  /** Between loads neither marker goes down. */
  lemma {:induction false} RunNeverLowers(ps: seq<Progress>, ops: seq<Op>, i: nat, j: nat)
    requires IsRun(ps, ops) && i <= j < |ps|
    requires forall k :: i <= k < j ==> !Loads(ops[k])
    ensures ps[i].state.lastIndexed <= ps[j].state.lastIndexed
    ensures ps[i].state.lastCompleted <= ps[j].state.lastCompleted
    decreases j
  {
    if i < j {
      RunNeverLowers(ps, ops, i, j - 1);
      StepInRun(ps, ops, j - 1);
    }
  }

  /** Once canonical rows have been read, the flushed watermark stays within
      the compacted one until the next load. */
  lemma {:induction false} RunClampsFlushed(ps: seq<Progress>, ops: seq<Op>, i: nat, j: nat)
    requires IsRun(ps, ops) && i < j < |ps|
    requires ReadsRows(ops[i])
    requires forall k :: i < k < j ==> !Loads(ops[k])
    ensures ps[j].state.flushedPrefix <= ps[j].state.compactedPrefix
    decreases j
  {
    RunKeepsOrder(ps, ops, j - 1);
    StepKeepsOrder(ps[j - 1], ops[j - 1], ps[j]);
    if i < j - 1 {
      RunClampsFlushed(ps, ops, i, j - 1);
    }
  }
}
