/** The two restores on the base store's read when some row carries no group
    number, so that turns are numbered by position. */
module PositionalRefinement {
  import opened Seqs
  import opened CanonicalRows
  import opened PositionalGrouping
  import opened ExplicitGrouping
  import opened Restore
  import opened LiveRefinement

  // ---- any numbering: turn by turn ----

  /** The rows grouped under number `k`, none when there is no such group. */
  function At(pairs: seq<(int, seq<Row>)>, k: int): seq<Row> {
    if pairs == [] then []
    else if pairs[0].0 == k then pairs[0].1
    else At(pairs[1..], k)
  }

  /** The full restore shows a turn unless it is tagged and wholly compacted. */
  predicate Hidden(g: seq<Row>) { AllTagged(g) && AllCompacted(g) }

  /** The live restore of `u` shows what the full restore of `g` shows. */
  predicate ShowsSame(u: seq<Row>, g: seq<Row>) {
    if u == [] || g == [] || Hidden(g) then u == [] && (g == [] || Hidden(g))
    else
      && (AllTagged(u) <==> AllTagged(g))
      && (if AllTagged(g) then PayloadOf(u).user == PayloadOf(g).user && PayloadOf(u).assistant == PayloadOf(g).assistant
          else PayloadOf(u) == PayloadOf(g))
  }

  predicate SameParts(k: int, u: seq<Row>, g: seq<Row>) {
    LivePart(k, u) == FullPart(k, g) && PendingPart(k, u) == PendingPart(k, g)
  }

  lemma SamePartsIs(k: int, u: seq<Row>, g: seq<Row>)
    ensures SameParts(k, u, g) <==> ShowsSame(u, g)
  {
  }

  ghost predicate SameRestore(live: seq<(int, seq<Row>)>, full: seq<(int, seq<Row>)>) {
    LiveHistory(live) == FullHistory(full) && PendingTurns(live) == PendingTurns(full)
  }

  function From(pairs: seq<(int, seq<Row>)>, n: int): seq<(int, seq<Row>)> {
    if pairs != [] && pairs[0].0 == n then pairs[1..] else pairs
  }

  predicate Ordered(pairs: seq<(int, seq<Row>)>) {
    AscendingPairs(pairs) && forall p :: p in pairs ==> p.1 != []
  }

  /** The group numbered `n` taken off the front. */
  lemma TakeOff(pairs: seq<(int, seq<Row>)>, n: int)
    requires Ordered(pairs) && forall p :: p in pairs ==> p.0 >= n
    ensures Ordered(From(pairs, n)) && forall p :: p in From(pairs, n) ==> p.0 > n
    ensures FullHistory(pairs) == FullPart(n, At(pairs, n)) + FullHistory(From(pairs, n))
    ensures LiveHistory(pairs) == LivePart(n, At(pairs, n)) + LiveHistory(From(pairs, n))
    ensures PendingTurns(pairs) == PendingPart(n, At(pairs, n)) + PendingTurns(From(pairs, n))
  {
    if pairs == [] {
    } else {
      var rest := pairs[1..];
      assert pairs[0] in pairs && pairs == [pairs[0]] + rest;
      forall p | p in rest ensures p.0 > pairs[0].0 && p in pairs {
        LaterAbove(pairs, p);
      }
      if pairs[0].0 != n {
        NotThere(pairs, n);
        assert FullPart(n, []) == [] && LivePart(n, []) == [] && PendingPart(n, []) == [];
      }
    }
  }

  lemma {:induction false} NotThere(pairs: seq<(int, seq<Row>)>, n: int)
    requires forall p :: p in pairs ==> p.0 != n
    ensures At(pairs, n) == []
  {
    if pairs != [] {
      assert pairs[0] in pairs && pairs == [pairs[0]] + pairs[1..];
      NotThere(pairs[1..], n);
    }
  }

  lemma AtFrom(pairs: seq<(int, seq<Row>)>, n: int, k: int)
    requires Ordered(pairs) && forall p :: p in pairs ==> p.0 >= n
    ensures k != n ==> At(From(pairs, n), k) == At(pairs, k)
    ensures At(From(pairs, n), n) == []
  {
    TakeOff(pairs, n);
    NotThere(From(pairs, n), n);
  }

  lemma FullFront(pairs: seq<(int, seq<Row>)>, n: int)
    requires Ordered(pairs) && forall p :: p in pairs ==> p.0 >= n
    ensures FullHistory(pairs) == FullPart(n, At(pairs, n)) + FullHistory(From(pairs, n))
    ensures HeadTurn(FullPart(n, At(pairs, n)), n) && NumberedAbove(FullHistory(From(pairs, n)), n)
  {
    TakeOff(pairs, n);
    TurnsAbove(From(pairs, n), n);
  }

  lemma LiveFront(pairs: seq<(int, seq<Row>)>, n: int)
    requires Ordered(pairs) && forall p :: p in pairs ==> p.0 >= n
    ensures LiveHistory(pairs) == LivePart(n, At(pairs, n)) + LiveHistory(From(pairs, n))
    ensures HeadTurn(LivePart(n, At(pairs, n)), n) && NumberedAbove(LiveHistory(From(pairs, n)), n)
  {
    TakeOff(pairs, n);
    TurnsAbove(From(pairs, n), n);
  }

  lemma SplitHistory(live: seq<(int, seq<Row>)>, full: seq<(int, seq<Row>)>, n: int)
    requires Ordered(live) && Ordered(full)
    requires (forall p :: p in live ==> p.0 >= n) && forall p :: p in full ==> p.0 >= n
    ensures LiveHistory(live) == FullHistory(full) <==>
              LivePart(n, At(live, n)) == FullPart(n, At(full, n)) && LiveHistory(From(live, n)) == FullHistory(From(full, n))
  {
    LiveFront(live, n);
    FullFront(full, n);
    SplitHead(LivePart(n, At(live, n)), LiveHistory(From(live, n)), FullPart(n, At(full, n)), FullHistory(From(full, n)), n);
  }

  lemma PendingFront(pairs: seq<(int, seq<Row>)>, n: int)
    requires Ordered(pairs) && forall p :: p in pairs ==> p.0 >= n
    ensures PendingTurns(pairs) == PendingPart(n, At(pairs, n)) + PendingTurns(From(pairs, n))
    ensures HeadTurn(PendingPart(n, At(pairs, n)), n) && NumberedAbove(PendingTurns(From(pairs, n)), n)
  {
    TakeOff(pairs, n);
    TurnsAbove(From(pairs, n), n);
  }

  lemma SplitPending(live: seq<(int, seq<Row>)>, full: seq<(int, seq<Row>)>, n: int)
    requires Ordered(live) && Ordered(full)
    requires (forall p :: p in live ==> p.0 >= n) && forall p :: p in full ==> p.0 >= n
    ensures PendingTurns(live) == PendingTurns(full) <==>
              PendingPart(n, At(live, n)) == PendingPart(n, At(full, n)) && PendingTurns(From(live, n)) == PendingTurns(From(full, n))
  {
    PendingFront(live, n);
    PendingFront(full, n);
    SplitHead(PendingPart(n, At(live, n)), PendingTurns(From(live, n)), PendingPart(n, At(full, n)), PendingTurns(From(full, n)), n);
  }

  lemma SplitBoth(live: seq<(int, seq<Row>)>, full: seq<(int, seq<Row>)>, n: int)
    requires Ordered(live) && Ordered(full)
    requires (forall p :: p in live ==> p.0 >= n) && forall p :: p in full ==> p.0 >= n
    ensures SameRestore(live, full) <==> SameParts(n, At(live, n), At(full, n)) && SameRestore(From(live, n), From(full, n))
  {
    SplitHistory(live, full, n);
    SplitPending(live, full, n);
  }

  ghost predicate SameEverywhere(live: seq<(int, seq<Row>)>, full: seq<(int, seq<Row>)>) {
    forall k :: SameParts(k, At(live, k), At(full, k))
  }

  lemma EverywhereSplit(live: seq<(int, seq<Row>)>, full: seq<(int, seq<Row>)>, n: int)
    requires Ordered(live) && Ordered(full)
    requires (forall p :: p in live ==> p.0 >= n) && forall p :: p in full ==> p.0 >= n
    ensures SameEverywhere(live, full) <==>
              SameParts(n, At(live, n), At(full, n)) && SameEverywhere(From(live, n), From(full, n))
  {
    var l, f := From(live, n), From(full, n);
    forall k ensures SameParts(k, At(l, k), At(f, k)) <==> k == n || SameParts(k, At(live, k), At(full, k)) {
      AtFrom(live, n, k);
      AtFrom(full, n, k);
    }
    if SameParts(n, At(live, n), At(full, n)) && SameEverywhere(l, f) {
      forall k ensures SameParts(k, At(live, k), At(full, k)) {
        assert SameParts(k, At(l, k), At(f, k));
      }
    }
    if SameEverywhere(live, full) {
      forall k ensures SameParts(k, At(l, k), At(f, k)) {
        assert SameParts(k, At(live, k), At(full, k));
      }
    }
  }

  function Least(live: seq<(int, seq<Row>)>, full: seq<(int, seq<Row>)>): int
    requires live != [] || full != []
  {
    if live == [] then full[0].0
    else if full == [] || live[0].0 <= full[0].0 then live[0].0
    else full[0].0
  }

  lemma LeastIs(pairs: seq<(int, seq<Row>)>, n: int)
    requires AscendingPairs(pairs) && (pairs != [] ==> pairs[0].0 >= n)
    ensures forall p :: p in pairs ==> p.0 >= n
  {
  }

  lemma FromOk(pairs: seq<(int, seq<Row>)>, n: int)
    requires Ordered(pairs) && (pairs != [] ==> pairs[0].0 >= n)
    ensures (forall p :: p in pairs ==> p.0 >= n) && Ordered(From(pairs, n)) && |From(pairs, n)| <= |pairs|
    ensures pairs != [] && pairs[0].0 == n ==> |From(pairs, n)| < |pairs|
  {
    LeastIs(pairs, n);
    TakeOff(pairs, n);
  }

  lemma LeastTakes(live: seq<(int, seq<Row>)>, full: seq<(int, seq<Row>)>) returns (n: int)
    requires Ordered(live) && Ordered(full) && (live != [] || full != [])
    ensures (forall p :: p in live ==> p.0 >= n) && forall p :: p in full ==> p.0 >= n
    ensures Ordered(From(live, n)) && Ordered(From(full, n))
    ensures |From(live, n)| + |From(full, n)| < |live| + |full|
  {
    n := Least(live, full);
    FromOk(live, n);
    FromOk(full, n);
  }

  /** Two ascending lists of groups restore the same if and only if they do so
      under every number. */
  lemma {:induction false} TurnByTurn(live: seq<(int, seq<Row>)>, full: seq<(int, seq<Row>)>)
    requires Ordered(live) && Ordered(full)
    ensures SameRestore(live, full) <==> SameEverywhere(live, full)
    decreases |live| + |full|
  {
    if live == [] && full == [] {
      forall k ensures SameParts(k, At(live, k), At(full, k)) {
      }
    } else {
      var n := LeastTakes(live, full);
      SplitBoth(live, full, n);
      EverywhereSplit(live, full, n);
      TurnByTurn(From(live, n), From(full, n));
    }
  }

  ghost predicate ShowsSameEverywhere(live: seq<(int, seq<Row>)>, full: seq<(int, seq<Row>)>) {
    forall k :: ShowsSame(At(live, k), At(full, k))
  }

  lemma EverywhereIs(live: seq<(int, seq<Row>)>, full: seq<(int, seq<Row>)>)
    ensures SameEverywhere(live, full) <==> ShowsSameEverywhere(live, full)
  {
    if SameEverywhere(live, full) {
      forall k ensures ShowsSame(At(live, k), At(full, k)) {
        assert SameParts(k, At(live, k), At(full, k));
        SamePartsIs(k, At(live, k), At(full, k));
      }
    }
    if ShowsSameEverywhere(live, full) {
      forall k ensures SameParts(k, At(live, k), At(full, k)) {
        assert ShowsSame(At(live, k), At(full, k));
        SamePartsIs(k, At(live, k), At(full, k));
      }
    }
  }

  /** However the rows are numbered and whichever way each side groups them,
      reading only the uncompacted rows restores what the full restore does if
      and only if every turn shows the same in both. */
  lemma LiveExactlyTurnByTurn(rows: seq<Row>)
    ensures LiveRestore(Kept(rows)) == FullRestore(rows) <==> ShowsSameEverywhere(Grouped(Kept(rows)), Grouped(rows))
  {
    GroupedAscends(rows);
    GroupedAscends(Kept(rows));
    TurnByTurn(Grouped(Kept(rows)), Grouped(rows));
    EverywhereIs(Grouped(Kept(rows)), Grouped(rows));
  }

  // ---- mixed numbering: positions on one side, numbers on the other ----

  predicate ByPosition(rows: seq<Row>) { rows == [] || !AllNumbered(rows) }

  function TurnAt(gs: seq<seq<Row>>, k: int): seq<Row> {
    if 0 <= k < |gs| then gs[k] else []
  }

  lemma {:induction false} AtNumbered(n: nat, gs: seq<seq<Row>>, k: int)
    ensures At(NumberedFrom(n, gs), k) == TurnAt(gs, k - n)
    decreases gs
  {
    if gs != [] {
      AtNumbered(n + 1, gs[1..], k);
    }
  }

  lemma {:induction false} AtKeys(keys: seq<int>, rows: seq<Row>, k: int)
    ensures At(PairsOf(keys, rows), k) == if k in keys then RowsOf(rows, k) else []
  {
    if keys != [] {
      AtKeys(keys[1..], rows, k);
      assert keys == [keys[0]] + keys[1..];
      assert PairsOf(keys, rows)[1..] == PairsOf(keys[1..], rows);
    }
  }

  lemma AtByNumber(rows: seq<Row>, k: int)
    ensures At(ByNumber(rows), k) == RowsOf(rows, k)
  {
    AtKeys(Sorted(Numbers(rows)), rows, k);
    KeyPresence(rows, k);
  }

  /** Each stored number holds what the turn at that position shows. */
  ghost predicate NumbersArePositions(live: seq<Row>, rows: seq<Row>) {
    forall k :: ShowsSame(RowsOf(live, k), TurnAt(Groups(rows), k))
  }

  lemma MixedAt(live: seq<Row>, rows: seq<Row>, k: int)
    ensures At(ByNumber(live), k) == RowsOf(live, k)
    ensures At(Numbered(Groups(rows)), k) == TurnAt(Groups(rows), k)
  {
    AtByNumber(live, k);
    AtNumbered(0, Groups(rows), k);
  }

  lemma MixedEverywhere(live: seq<Row>, rows: seq<Row>)
    ensures ShowsSameEverywhere(ByNumber(live), Numbered(Groups(rows))) <==> NumbersArePositions(live, rows)
  {
    if ShowsSameEverywhere(ByNumber(live), Numbered(Groups(rows))) {
      forall k ensures ShowsSame(RowsOf(live, k), TurnAt(Groups(rows), k)) {
        MixedAt(live, rows, k);
        assert ShowsSame(At(ByNumber(live), k), At(Numbered(Groups(rows)), k));
      }
    }
    if NumbersArePositions(live, rows) {
      forall k ensures ShowsSame(At(ByNumber(live), k), At(Numbered(Groups(rows)), k)) {
        MixedAt(live, rows, k);
        assert ShowsSame(RowsOf(live, k), TurnAt(Groups(rows), k));
      }
    }
  }

  /** When compaction leaves only numbered rows of a table that had others,
      the live restore goes by number and the full restore by position: they
      agree if and only if each number holds what the turn at that position
      shows. */
  lemma MixedExactly(rows: seq<Row>)
    requires ByPosition(rows) && !ByPosition(Kept(rows))
    ensures LiveRestore(Kept(rows)) == FullRestore(rows) <==> NumbersArePositions(Kept(rows), rows)
  {
    LiveExactlyTurnByTurn(rows);
    MixedEverywhere(Kept(rows), rows);
  }

  // ---- positions on both sides ----

  /** Dropping compacted rows brings a reply next to this message that did not
      follow it. */
  predicate Joins(rows: seq<Row>, i: nat)
    requires i < |rows|
  {
    && UserOnly(rows[i]) && !rows[i].compacted
    && i + 1 < |rows| && !AssistantOnly(rows[i + 1])
    && Kept(rows[i + 1..]) != [] && AssistantOnly(Kept(rows[i + 1..])[0])
  }

  predicate Touched(g: seq<Row>) { exists r :: r in g && r.compacted }

  /** Compaction has taken whole tagged turns from the end, and dropping rows
      joins nothing. */
  predicate Settled(rows: seq<Row>) {
    TailCompacted(rows) && WholeTurns(rows) && NothingJoins(rows)
  }

  predicate TailCompacted(rows: seq<Row>) {
    forall i, j :: 0 <= i < j < |rows| && HasContent(rows[i]) && rows[i].compacted && HasContent(rows[j]) ==> rows[j].compacted
  }

  predicate WholeTurns(rows: seq<Row>) {
    forall g :: g in Groups(rows) && Touched(g) ==> Hidden(g)
  }

  predicate NothingJoins(rows: seq<Row>) {
    forall i :: 0 <= i < |rows| ==> !Joins(rows, i)
  }

  /** In terms of groups: what remains is a start of the original groups, and
      the others are hidden. */
  predicate StartRemains(gs: seq<seq<Row>>, hs: seq<seq<Row>>) {
    hs <= gs && forall k :: |hs| <= k < |gs| ==> Hidden(gs[k])
  }

  ghost predicate SameFrom(n: nat, gs: seq<seq<Row>>, hs: seq<seq<Row>>) {
    SameRestore(NumberedFrom(n, hs), NumberedFrom(n, gs))
  }

  predicate NonEmpty(gs: seq<seq<Row>>) { forall g :: g in gs ==> g != [] }

  lemma GroupsNonEmpty(rows: seq<Row>)
    ensures NonEmpty(Groups(rows))
  {
    GroupShapes(rows);
  }

  // ---- counting what is shown ----

  function Shown(gs: seq<seq<Row>>): nat {
    if gs == [] then 0 else (if Hidden(gs[0]) then 0 else 1) + Shown(gs[1..])
  }

  lemma {:induction false} CountShown(n: nat, gs: seq<seq<Row>>)
    requires NonEmpty(gs)
    ensures |FullHistory(NumberedFrom(n, gs))| + |PendingTurns(NumberedFrom(n, gs))| == Shown(gs)
    ensures |LiveHistory(NumberedFrom(n, gs))| + |PendingTurns(NumberedFrom(n, gs))| == |gs|
    decreases gs
  {
    if gs != [] {
      var rest := NumberedFrom(n + 1, gs[1..]);
      assert gs[0] in gs;
      forall g | g in gs[1..] ensures g in gs {
      }
      assert NumberedFrom(n, gs)[1..] == rest;
      CountShown(n + 1, gs[1..]);
    }
  }

  lemma SameCounts(n: nat, gs: seq<seq<Row>>, hs: seq<seq<Row>>)
    requires NonEmpty(gs) && NonEmpty(hs) && SameFrom(n, gs, hs)
    ensures |hs| == Shown(gs)
  {
    CountShown(n, gs);
    CountShown(n, hs);
  }

  // ---- the first group, on both sides ----

  lemma FromHead(n: nat, g: seq<Row>, gs: seq<seq<Row>>)
    ensures NumberedFrom(n, [g] + gs) == [(n, g)] + NumberedFrom(n + 1, gs)
  {
    assert ([g] + gs)[1..] == gs;
  }

  lemma FromOrdered(n: nat, gs: seq<seq<Row>>)
    requires NonEmpty(gs)
    ensures Ordered(NumberedFrom(n, gs)) && forall p :: p in NumberedFrom(n, gs) ==> p.0 >= n
  {
    NumberedFromAt(n, gs);
    forall p | p in NumberedFrom(n, gs) ensures p.0 >= n && p.1 != [] {
      var i :| 0 <= i < |gs| && NumberedFrom(n, gs)[i] == p;
      assert gs[i] in gs;
    }
  }

  /** Equal restores show the same under the first number, and conversely the
      first turns and the rest decide. */
  lemma SameHead(n: nat, gs: seq<seq<Row>>, hs: seq<seq<Row>>)
    requires NonEmpty(gs) && NonEmpty(hs)
    ensures SameFrom(n, gs, hs) ==> ShowsSame(TurnAt(hs, 0), TurnAt(gs, 0))
  {
    FromOrdered(n, gs);
    FromOrdered(n, hs);
    SplitBoth(NumberedFrom(n, hs), NumberedFrom(n, gs), n);
    AtNumbered(n, gs, n);
    AtNumbered(n, hs, n);
    SamePartsIs(n, TurnAt(hs, 0), TurnAt(gs, 0));
  }

  lemma SameStep(n: nat, g: seq<Row>, gs: seq<seq<Row>>, hs: seq<seq<Row>>)
    requires g != [] && NonEmpty(gs) && NonEmpty(hs) && !Touched(g)
    ensures SameFrom(n, [g] + gs, [g] + hs) <==> SameFrom(n + 1, gs, hs)
  {
    FromHead(n, g, gs);
    FromHead(n, g, hs);
    var full, live := [(n, g)] + NumberedFrom(n + 1, gs), [(n, g)] + NumberedFrom(n + 1, hs);
    assert full[1..] == NumberedFrom(n + 1, gs) && live[1..] == NumberedFrom(n + 1, hs);
    FromOrdered(n, [g] + gs);
    FromOrdered(n, [g] + hs);
    SplitBoth(live, full, n);
    assert At(full, n) == g && At(live, n) == g;
    assert g[0] in g;
    SamePartsIs(n, g, g);
  }

  /** A hidden first group leaves its number unused in the full restore. */
  lemma SameHidden(n: nat, g: seq<Row>, gs: seq<seq<Row>>)
    requires g != [] && Hidden(g) && NonEmpty(gs)
    ensures SameFrom(n, [g] + gs, []) <==> SameFrom(n + 1, gs, [])
  {
    FromHead(n, g, gs);
    var full := [(n, g)] + NumberedFrom(n + 1, gs);
    assert full[1..] == NumberedFrom(n + 1, gs);
  }

  // ---- rows in front ----

  lemma KeptCons(r: Row, rest: seq<Row>)
    ensures Kept([r] + rest) == (if r.compacted then [] else [r]) + Kept(rest)
  {
    FilterHead([r] + rest, Uncompacted);
    assert ([r] + rest)[1..] == rest;
  }

  lemma KeptFront(a: seq<Row>, b: seq<Row>)
    ensures Kept(a + b) == Kept(a) + Kept(b)
  {
    FilterAppend(a, b, Uncompacted);
  }

  lemma SkipBlank(r: Row, rest: seq<Row>)
    requires !HasContent(r)
    ensures Groups([r] + rest) == Groups(rest)
  {
    GroupsUnfold([r] + rest);
    assert ([r] + rest)[1..] == rest;
  }

  predicate Replies(r: Row, rest: seq<Row>) { rest != [] && Completes(r, rest[0]) }

  lemma OneInFront(r: Row, rest: seq<Row>)
    requires HasContent(r)
    ensures !Replies(r, rest) ==> Groups([r] + rest) == [[r]] + Groups(rest)
    ensures Replies(r, rest) ==> Groups([r] + rest) == [[r, rest[0]]] + Groups(rest[1..]) && Groups(rest) == [[rest[0]]] + Groups(rest[1..])
  {
    var all := [r] + rest;
    GroupsUnfold(all);
    assert all[1..] == rest;
    if Replies(r, rest) {
      assert all[2..] == rest[1..] && all[..2] == [r, rest[0]];
      GroupsUnfold(rest);
      assert rest[..1] == [rest[0]];
    } else {
      assert all[..1] == [r];
    }
  }

  lemma {:induction false} NoGroups(rows: seq<Row>)
    ensures Groups(rows) == [] <==> forall r :: r in rows ==> !HasContent(r)
  {
    if rows != [] {
      assert rows == [rows[0]] + rows[1..] && rows[0] in rows;
      if HasContent(rows[0]) {
        OneInFront(rows[0], rows[1..]);
      } else {
        SkipBlank(rows[0], rows[1..]);
        NoGroups(rows[1..]);
      }
    }
  }

  lemma GroupsOfKept(rows: seq<Row>)
    ensures forall g :: g in Groups(Kept(rows)) ==> !Touched(g)
  {
    GroupMembers(Kept(rows));
    KeptMembers(rows);
  }

  /** A kept row in front adds at most one group. */
  lemma FrontCount(r: Row, rest: seq<Row>)
    requires HasContent(r)
    ensures |Groups([r] + rest)| == if Replies(r, rest) then |Groups(rest)| else |Groups(rest)| + 1
  {
    OneInFront(r, rest);
  }

  // ---- one group in front of the rest ----

  /** The rows of one positional group, and no reply to it. */
  predicate Stands(g: seq<Row>, rest: seq<Row>) {
    LegalShape(g) && (|g| == 1 ==> !Replies(g[0], rest))
  }

  lemma StandsInFront(g: seq<Row>, rest: seq<Row>)
    requires Stands(g, rest)
    ensures Groups(g + rest) == [g] + Groups(rest)
  {
    var all := g + rest;
    if |g| == 1 {
      assert g == [g[0]];
      OneInFront(g[0], rest);
    } else {
      var tail := [g[1]] + rest;
      assert all == [g[0]] + tail && tail[1..] == rest && g == [g[0], g[1]];
      OneInFront(g[0], tail);
    }
  }

  /** Every non-empty list starts with a content-free row or with a group. */
  lemma Front(rows: seq<Row>) returns (g: seq<Row>, rest: seq<Row>)
    requires rows != []
    ensures rows == g + rest && |rest| < |rows|
    ensures if HasContent(rows[0]) then Stands(g, rest) else g == [rows[0]]
  {
    var k := Lead(rows);
    g, rest := rows[..k], rows[k..];
    if k == 1 && |rows| >= 2 {
      assert rest[0] == rows[1];
    }
  }

  /** What a touched, shown group leaves cannot be its own first group. */
  lemma KeptOfPair(g: seq<Row>, rest: seq<Row>) returns (x: Row)
    requires |g| == 2 && Completes(g[0], g[1]) && g[0].compacted != g[1].compacted
    ensures x in g && !x.compacted && HasContent(x) && (UserOnly(x) || AssistantOnly(x))
    ensures Kept(g + rest) == [x] + Kept(rest)
  {
    x := if g[0].compacted then g[1] else g[0];
    assert g == [g[0]] + [g[1]];
    KeptFront(g, rest);
    KeptCons(g[0], [g[1]]);
    KeptCons(g[1], []);
    assert [g[1]] + [] == [g[1]] && Kept([]) == [];
  }

  lemma {:induction false} KeptAllCompacted(g: seq<Row>)
    ensures AllCompacted(g) ==> Kept(g) == []
    ensures !Touched(g) ==> Kept(g) == g
  {
    if AllCompacted(g) {
      FilterNone(g, Uncompacted);
    }
    if !Touched(g) {
      FilterAll(g, Uncompacted);
    }
  }

  lemma ShownHead(g: seq<Row>, gs: seq<seq<Row>>)
    ensures Shown([g] + gs) == (if Hidden(g) then 0 else 1) + Shown(gs)
  {
    assert ([g] + gs)[1..] == gs;
  }

  lemma OneRow(g: seq<Row>)
    ensures |g| == 1 && Touched(g) ==> AllCompacted(g)
  {
  }

  lemma PairParts(g: seq<Row>)
    requires LegalShape(g) && Touched(g) && !AllCompacted(g)
    ensures |g| == 2 && g[0].compacted != g[1].compacted
  {
    OneRow(g);
    assert g == [g[0], g[1]];
  }

  /** The uncompacted rows have at most as many groups as are shown. */
  lemma {:induction false} KeptFewer(rows: seq<Row>)
    ensures |Groups(Kept(rows))| <= Shown(Groups(rows))
    decreases |rows|
  {
    if rows != [] {
      var g, rest := Front(rows);
      KeptFewer(rest);
      KeptFront(g, rest);
      KeptAllCompacted(g);
      if !HasContent(rows[0]) {
        SkipBlank(rows[0], rest);
        SkipBlank(rows[0], Kept(rest));
        assert [] + Kept(rest) == Kept(rest);
        assert rows[0].compacted ==> AllCompacted(g);
        assert !rows[0].compacted ==> !Touched(g);
      } else {
        StandsInFront(g, rest);
        ShownHead(g, Groups(rest));
        KeptGroupFewer(g, rest);
      }
    }
  }

  lemma KeptGroupFewer(g: seq<Row>, rest: seq<Row>)
    requires Stands(g, rest)
    ensures |Groups(Kept(g + rest))| <= |Groups(Kept(rest))| + if Hidden(g) then 0 else 1
  {
    KeptFront(g, rest);
    KeptAllCompacted(g);
    if AllCompacted(g) {
      assert [] + Kept(rest) == Kept(rest);
    } else if Touched(g) {
      PairParts(g);
      var x := KeptOfPair(g, rest);
      FrontCount(x, Kept(rest));
    } else if |g| == 1 {
      assert g == [g[0]] && g[0] in g;
      FrontCount(g[0], Kept(rest));
    } else {
      StandsInFront(g, Kept(rest));
      assert g[0] in g;
    }
  }

  // ---- what the first group decides ----

  /** Dropping rows gives the first group a reply it did not have. */
  lemma JoinedHead(g: seq<Row>, rest: seq<Row>, n: nat)
    requires Stands(g, rest) && !Touched(g) && |g| == 1 && Replies(g[0], Kept(rest))
    ensures !SameFrom(n, Groups(g + rest), Groups(Kept(g + rest)))
    ensures !StartRemains(Groups(g + rest), Groups(Kept(g + rest)))
  {
    var u, k := g[0], Kept(rest);
    assert g == [u] && u in g;
    KeptFront(g, rest);
    KeptAllCompacted(g);
    StandsInFront(g, rest);
    OneInFront(u, k);
    var gs, hs := Groups(g + rest), Groups(g + k);
    GroupsNonEmpty(g + rest);
    GroupsNonEmpty(g + k);
    SameHead(n, gs, hs);
    assert TurnAt(gs, 0) == [u] && TurnAt(hs, 0) == [u, k[0]];
    JoinedShows(u, k[0]);
  }

  lemma OnePayload(x: Row)
    ensures PayloadOf([x]).user == x.user && PayloadOf([x]).assistant == x.assistant
  {
    assert [x][1..] == [];
    assert UserPart([x][1..]) == ("", None) && AssistantPart([x][1..]) == ("", None);
  }

  lemma TwoPayload(u: Row, a: Row)
    requires Completes(u, a)
    ensures PayloadOf([u, a]).user == u.user && PayloadOf([u, a]).assistant == a.assistant
  {
    assert [u, a][1..] == [a];
    assert AssistantPart([u, a]) == AssistantPart([a]) == (a.assistant, a.assistantRaw);
  }

  lemma JoinedShows(u: Row, a: Row)
    requires Completes(u, a) && !u.compacted
    ensures !ShowsSame([u, a], [u])
  {
    OnePayload(u);
    TwoPayload(u, a);
    assert u in [u];
  }

  lemma TouchedPair(g: seq<Row>, rest: seq<Row>, n: nat)
    requires Stands(g, rest) && Touched(g) && !AllCompacted(g)
    ensures !SameFrom(n, Groups(g + rest), Groups(Kept(g + rest)))
  {
    var gs, hs := Groups(g + rest), Groups(Kept(g + rest));
    StandsInFront(g, rest);
    PairParts(g);
    var x := KeptOfPair(g, rest);
    OneInFront(x, Kept(rest));
    GroupsNonEmpty(g + rest);
    GroupsNonEmpty(Kept(g + rest));
    if Replies(x, Kept(rest)) {
      KeptFewer(rest);
      ShownHead(g, Groups(rest));
      if SameFrom(n, gs, hs) {
        SameCounts(n, gs, hs);
      }
    } else {
      SameHead(n, gs, hs);
      assert TurnAt(gs, 0) == g && TurnAt(hs, 0) == [x];
      HalfShows(g, x);
    }
  }

  lemma HalfShows(g: seq<Row>, x: Row)
    requires |g| == 2 && Completes(g[0], g[1]) && (x == g[0] || x == g[1]) && !AllCompacted(g)
    ensures !ShowsSame([x], g)
  {
    assert g == [g[0], g[1]];
    OnePayload(x);
    TwoPayload(g[0], g[1]);
  }

  lemma UntaggedCompacted(g: seq<Row>, rest: seq<Row>, n: nat)
    requires Stands(g, rest) && AllCompacted(g) && !Hidden(g)
    ensures !SameFrom(n, Groups(g + rest), Groups(Kept(g + rest)))
  {
    StandsInFront(g, rest);
    KeptFront(g, rest);
    KeptAllCompacted(g);
    assert [] + Kept(rest) == Kept(rest);
    KeptFewer(rest);
    ShownHead(g, Groups(rest));
    GroupsNonEmpty(g + rest);
    GroupsNonEmpty(Kept(rest));
    if SameFrom(n, Groups(g + rest), Groups(Kept(rest))) {
      SameCounts(n, Groups(g + rest), Groups(Kept(rest)));
    }
  }

  lemma HiddenHead(g: seq<Row>, rest: seq<Row>, n: nat)
    requires Stands(g, rest) && Hidden(g)
    ensures SameFrom(n, Groups(g + rest), Groups(Kept(g + rest))) <==>
              Groups(Kept(rest)) == [] && SameFrom(n + 1, Groups(rest), Groups(Kept(rest)))
  {
    StandsInFront(g, rest);
    KeptFront(g, rest);
    KeptAllCompacted(g);
    assert [] + Kept(rest) == Kept(rest);
    var gs, hs := Groups(rest), Groups(Kept(rest));
    GroupsNonEmpty(rest);
    GroupsNonEmpty(g + rest);
    GroupsNonEmpty(Kept(rest));
    if hs == [] {
      SameHidden(n, g, gs);
    } else {
      SameHead(n, [g] + gs, hs);
      assert hs[0] in hs;
    }
  }

  lemma PlainHead(g: seq<Row>, rest: seq<Row>, n: nat)
    requires Stands(g, rest) && !Touched(g) && Stands(g, Kept(rest))
    ensures SameFrom(n, Groups(g + rest), Groups(Kept(g + rest))) <==> SameFrom(n + 1, Groups(rest), Groups(Kept(rest)))
    ensures StartRemains(Groups(g + rest), Groups(Kept(g + rest))) <==> StartRemains(Groups(rest), Groups(Kept(rest)))
  {
    KeptFront(g, rest);
    KeptAllCompacted(g);
    StandsInFront(g, rest);
    StandsInFront(g, Kept(rest));
    GroupsNonEmpty(rest);
    GroupsNonEmpty(Kept(rest));
    SameStep(n, g, Groups(rest), Groups(Kept(rest)));
    StartCons(g, Groups(rest), Groups(Kept(rest)));
  }

  lemma StartCons(g: seq<Row>, gs: seq<seq<Row>>, hs: seq<seq<Row>>)
    ensures StartRemains([g] + gs, [g] + hs) <==> StartRemains(gs, hs)
  {
    var a, b := [g] + gs, [g] + hs;
    assert a[1..] == gs && b[1..] == hs;
    assert b <= a <==> hs <= gs;
    if StartRemains(gs, hs) {
      forall k | |b| <= k < |a| ensures Hidden(a[k]) {
        assert a[k] == gs[k - 1];
      }
    }
    if StartRemains(a, b) {
      forall k | |hs| <= k < |gs| ensures Hidden(gs[k]) {
        assert gs[k] == a[k + 1];
      }
    }
  }

  /** A touched first group is never what remains. */
  lemma TouchedHead(g: seq<Row>, rest: seq<Row>)
    requires Stands(g, rest) && Touched(g)
    ensures StartRemains(Groups(g + rest), Groups(Kept(g + rest))) <==>
              Hidden(g) && Groups(Kept(rest)) == [] && StartRemains(Groups(rest), Groups(Kept(rest)))
  {
    StandsInFront(g, rest);
    KeptFront(g, rest);
    KeptAllCompacted(g);
    var gs, hs := Groups(g + rest), Groups(Kept(g + rest));
    GroupsOfKept(g + rest);
    if hs != [] {
      assert hs[0] in hs && gs[0] == g;
    }
    if AllCompacted(g) {
      assert [] + Kept(rest) == Kept(rest);
      if hs == [] {
        HiddenCons(g, Groups(rest));
      }
    } else {
      PairParts(g);
      var x := KeptOfPair(g, rest);
      OneInFront(x, Kept(rest));
    }
  }

  lemma HiddenCons(g: seq<Row>, gs: seq<seq<Row>>)
    ensures StartRemains([g] + gs, []) <==> Hidden(g) && StartRemains(gs, [])
  {
    var a := [g] + gs;
    if StartRemains(a, []) {
      assert Hidden(a[0]);
      forall k | 0 <= k < |gs| ensures Hidden(gs[k]) {
        assert gs[k] == a[k + 1];
      }
    }
    if Hidden(g) && StartRemains(gs, []) {
      forall k | 0 <= k < |a| ensures Hidden(a[k]) {
        assert k > 0 ==> a[k] == gs[k - 1];
      }
    }
  }

  /** With turns numbered by position on both sides, the restores agree if and
      only if the groups of the remaining rows are a start of the original
      groups and all other groups are hidden. */
  lemma {:induction false} SameIsStart(rows: seq<Row>, n: nat)
    ensures SameFrom(n, Groups(rows), Groups(Kept(rows))) <==> StartRemains(Groups(rows), Groups(Kept(rows)))
    decreases |rows|
  {
    if rows != [] {
      var g, rest := Front(rows);
      if !HasContent(rows[0]) {
        SameIsStart(rest, n);
        SkipBlank(rows[0], rest);
        KeptCons(rows[0], rest);
        SkipBlank(rows[0], Kept(rest));
        assert [] + Kept(rest) == Kept(rest);
      } else {
        SameIsStart(rest, n + 1);
        HeadDecides(g, rest, n);
      }
    }
  }

  lemma HeadDecides(g: seq<Row>, rest: seq<Row>, n: nat)
    requires Stands(g, rest)
    requires SameFrom(n + 1, Groups(rest), Groups(Kept(rest))) <==> StartRemains(Groups(rest), Groups(Kept(rest)))
    ensures SameFrom(n, Groups(g + rest), Groups(Kept(g + rest))) <==> StartRemains(Groups(g + rest), Groups(Kept(g + rest)))
  {
    if !Touched(g) {
      if Stands(g, Kept(rest)) {
        PlainHead(g, rest, n);
      } else {
        JoinedHead(g, rest, n);
      }
    } else {
      TouchedHead(g, rest);
      if Hidden(g) {
        HiddenHead(g, rest, n);
      } else if AllCompacted(g) {
        UntaggedCompacted(g, rest, n);
      } else {
        TouchedPair(g, rest, n);
      }
    }
  }

  // ---- the same in terms of rows ----

  lemma JoinsLater(front: seq<Row>, rest: seq<Row>, i: nat)
    requires i < |rest|
    ensures Joins(front + rest, |front| + i) <==> Joins(rest, i)
  {
    var all := front + rest;
    assert all[|front| + i] == rest[i];
    if i + 1 < |rest| {
      assert all[|front| + i + 1] == rest[i + 1] && all[|front| + i + 1..] == rest[i + 1..];
    }
  }

  lemma NothingJoinsIn(front: seq<Row>, rest: seq<Row>)
    ensures NothingJoins(front + rest) <==> (forall i :: 0 <= i < |front| ==> !Joins(front + rest, i)) && NothingJoins(rest)
  {
    var all := front + rest;
    forall i | 0 <= i < |rest| ensures Joins(all, |front| + i) <==> Joins(rest, i) {
      JoinsLater(front, rest, i);
    }
    if NothingJoins(all) {
      forall i | 0 <= i < |rest| ensures !Joins(rest, i) {
        assert !Joins(all, |front| + i);
      }
    }
    if (forall i :: 0 <= i < |front| ==> !Joins(all, i)) && NothingJoins(rest) {
      forall i | 0 <= i < |all| ensures !Joins(all, i) {
        if i >= |front| {
          assert !Joins(rest, i - |front|);
        }
      }
    }
  }

  /** No content row of `rest` is kept. */
  predicate NoneKept(rest: seq<Row>) { forall r :: r in rest && HasContent(r) ==> r.compacted }

  lemma NoneKeptIs(rest: seq<Row>)
    ensures NoneKept(rest) <==> Groups(Kept(rest)) == []
  {
    NoGroups(Kept(rest));
    KeptMembers(rest);
  }

  /** The rows of `front` decide: one with content that is compacted lets
      nothing after it remain. */
  lemma TailIn(front: seq<Row>, rest: seq<Row>)
    ensures TailCompacted(front + rest) <==>
              TailCompacted(front) && TailCompacted(rest) && ((exists r :: r in front && HasContent(r) && r.compacted) ==> NoneKept(rest))
  {
    var all := front + rest;
    assert forall i :: 0 <= i < |front| ==> all[i] == front[i];
    assert forall i :: 0 <= i < |rest| ==> all[|front| + i] == rest[i];
    if TailCompacted(all) {
      forall i, j | 0 <= i < j < |rest| && HasContent(rest[i]) && rest[i].compacted && HasContent(rest[j]) ensures rest[j].compacted {
        assert all[|front| + i] == rest[i] && all[|front| + j] == rest[j];
      }
      forall r, q | r in front && HasContent(r) && r.compacted && q in rest && HasContent(q) ensures q.compacted {
        var i :| 0 <= i < |front| && front[i] == r;
        var j :| 0 <= j < |rest| && rest[j] == q;
        assert all[i] == r && all[|front| + j] == q;
      }
    }
    if TailCompacted(front) && TailCompacted(rest) && ((exists r :: r in front && HasContent(r) && r.compacted) ==> NoneKept(rest)) {
      forall i, j | 0 <= i < j < |all| && HasContent(all[i]) && all[i].compacted && HasContent(all[j]) ensures all[j].compacted {
        if i < |front| {
          assert all[i] in front;
          if j >= |front| {
            assert all[j] == rest[j - |front|] && all[j] in rest;
          }
        } else {
          assert all[i] == rest[i - |front|] && all[j] == rest[j - |front|];
        }
      }
    }
  }

  lemma SettledBlank(r: Row, rest: seq<Row>)
    requires !HasContent(r)
    ensures Settled([r] + rest) <==> Settled(rest)
  {
    TailIn([r], rest);
    SkipBlank(r, rest);
    NothingJoinsIn([r], rest);
  }

  lemma WholeIn(g: seq<Row>, rest: seq<Row>)
    requires Stands(g, rest)
    ensures WholeTurns(g + rest) <==> (Touched(g) ==> Hidden(g)) && WholeTurns(rest)
  {
    StandsInFront(g, rest);
    var gs := [g] + Groups(rest);
    assert g in gs && forall x :: x in gs <==> x == g || x in Groups(rest);
  }

  /** Only the last row of a group can gain a reply. */
  lemma HeadJoins(g: seq<Row>, rest: seq<Row>)
    requires Stands(g, rest)
    ensures (exists i :: 0 <= i < |g| && Joins(g + rest, i)) <==> |g| == 1 && !g[0].compacted && Replies(g[0], Kept(rest))
  {
    var all := g + rest;
    if |g| == 1 {
      assert all[0] == g[0] && all[1..] == rest;
      if rest != [] {
        assert all[1] == rest[0];
      } else {
        assert Kept(rest) == [];
      }
      assert Joins(all, 0) <==> !g[0].compacted && Replies(g[0], Kept(rest));
    } else {
      assert all[0] == g[0] && all[1] == g[1];
    }
  }

  lemma SettledIn(g: seq<Row>, rest: seq<Row>)
    requires Stands(g, rest)
    ensures !Touched(g) ==> (Settled(g + rest) <==> Settled(rest) && Stands(g, Kept(rest)))
    ensures Touched(g) ==> (Settled(g + rest) <==> Hidden(g) && NoneKept(rest) && Settled(rest))
  {
    TailIn(g, rest);
    WholeIn(g, rest);
    NothingJoinsIn(g, rest);
    HeadJoins(g, rest);
    GroupTail(g);
  }

  lemma GroupTail(g: seq<Row>)
    requires LegalShape(g)
    ensures Touched(g) <==> exists r :: r in g && HasContent(r) && r.compacted
    ensures !Touched(g) || Hidden(g) ==> TailCompacted(g)
    ensures |g| == 1 ==> (Touched(g) <==> g[0].compacted)
  {
    forall r | r in g ensures HasContent(r) {
      var i :| 0 <= i < |g| && g[i] == r;
    }
    assert forall i :: 0 <= i < |g| ==> g[i] in g;
  }

  lemma {:induction false} SettledIsStart(rows: seq<Row>)
    ensures Settled(rows) <==> StartRemains(Groups(rows), Groups(Kept(rows)))
    decreases |rows|
  {
    if rows != [] {
      var g, rest := Front(rows);
      SettledIsStart(rest);
      if !HasContent(rows[0]) {
        SettledBlank(rows[0], rest);
        SkipBlank(rows[0], rest);
        KeptCons(rows[0], rest);
        SkipBlank(rows[0], Kept(rest));
        assert [] + Kept(rest) == Kept(rest);
      } else {
        SettledIn(g, rest);
        NoneKeptIs(rest);
        if Touched(g) {
          TouchedHead(g, rest);
        } else if Stands(g, Kept(rest)) {
          PlainHead(g, rest, 0);
        } else {
          JoinedHead(g, rest, 0);
        }
      }
    }
  }

  /** With turns numbered by position on both sides, reading only the
      uncompacted rows restores what the full restore does if and only if
      compaction has taken whole tagged turns from the end and dropping the
      rows brings no reply next to a message it did not follow. */
  lemma PositionalExactly(rows: seq<Row>)
    requires ByPosition(rows) && ByPosition(Kept(rows))
    ensures LiveRestore(Kept(rows)) == FullRestore(rows) <==> Settled(rows)
  {
    SameIsStart(rows, 0);
    SettledIsStart(rows);
  }

  /** So on rows that all have content, compacted turn by turn and only once
      tagged, the compacted ones must be the last. */
  lemma CompactedMustBeLast(rows: seq<Row>)
    requires ByPosition(rows) && ByPosition(Kept(rows))
    requires (forall r :: r in rows ==> HasContent(r)) && WholeTurns(rows)
    ensures LiveRestore(Kept(rows)) == FullRestore(rows) <==>
              forall i, j :: 0 <= i < j < |rows| && rows[i].compacted ==> rows[j].compacted
  {
    PositionalExactly(rows);
    assert forall i :: 0 <= i < |rows| ==> rows[i] in rows;
    if TailCompacted(rows) {
      forall i | 0 <= i < |rows| ensures !Joins(rows, i) {
        SuffixJoinsNothing(rows, i);
      }
    }
  }

  lemma SuffixJoinsNothing(rows: seq<Row>, i: nat)
    requires i < |rows| && TailCompacted(rows) && forall k :: 0 <= k < |rows| ==> HasContent(rows[k])
    ensures !Joins(rows, i)
  {
    if i + 1 < |rows| {
      var tail := rows[i + 1..];
      assert tail == [tail[0]] + tail[1..];
      KeptCons(tail[0], tail[1..]);
      if tail[0].compacted {
        forall r | r in tail ensures r.compacted {
          var k :| 0 <= k < |tail| && tail[k] == r;
          assert rows[i + 1 + k] == r && rows[i + 1] == tail[0];
        }
        KeptMembers(tail);
      }
    }
  }
}
