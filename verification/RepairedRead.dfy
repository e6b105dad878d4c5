/** The relational read after the legacy repair, against the table as it was
    before. */
module RepairedRead {
  import opened Seqs
  import opened CanonicalRows
  import opened PositionalGrouping
  import opened ExplicitGrouping
  import opened LazyRepair
  import opened Restore
  import opened LiveRefinement
  import opened PositionalRefinement

  // ---- numbers on the rows do not show ----

  lemma {:induction false} StampedParts(g: seq<Row>, k: int)
    ensures UserPart(StampedGroup(g, k)) == UserPart(g)
    ensures AssistantPart(StampedGroup(g, k)) == AssistantPart(g)
  {
    if g != [] {
      StampedParts(g[1..], k);
      assert StampedGroup(g, k)[1..] == StampedGroup(g[1..], k);
    }
  }

  /** Two groups that restore alike. */
  predicate Alike(g: seq<Row>, h: seq<Row>) {
    && (g == [] <==> h == [])
    && PayloadOf(g) == PayloadOf(h) && (AllTagged(g) <==> AllTagged(h)) && (AllCompacted(g) <==> AllCompacted(h))
  }

  lemma StampedAlike(g: seq<Row>, k: int)
    ensures Alike(StampedGroup(g, k), g)
  {
    StampedParts(g, k);
    var s := StampedGroup(g, k);
    forall i | 0 <= i < |g| ensures s[i].tagged == g[i].tagged && s[i].compacted == g[i].compacted && s[i] in s && g[i] in g {
    }
  }

  lemma {:induction false} AlikeRestore(p: seq<(int, seq<Row>)>, q: seq<(int, seq<Row>)>)
    requires |p| == |q| && forall i :: 0 <= i < |p| ==> p[i].0 == q[i].0 && Alike(p[i].1, q[i].1)
    ensures FullHistory(p) == FullHistory(q) && PendingTurns(p) == PendingTurns(q)
  {
    if p != [] {
      AlikeRestore(p[1..], q[1..]);
      assert p[0].0 == q[0].0 && Alike(p[0].1, q[0].1);
    }
  }

  /** A repair that keeps the positional groups keeps the full restore. */
  lemma RepairKeepsRestore(rows: seq<Row>)
    requires (forall r :: r in rows ==> NumberOf(r) < 0) && CountsOpenings(rows)
    ensures FullRestore(AfterRepair(rows)) == FullRestore(rows)
  {
    RepairKeepsGroups(rows);
    var p, q := Numbered(StampedGroups(Groups(rows))), Numbered(Groups(rows));
    NumberedFromAt(0, StampedGroups(Groups(rows)));
    NumberedFromAt(0, Groups(rows));
    forall i | 0 <= i < |p| ensures p[i].0 == q[i].0 && Alike(p[i].1, q[i].1) {
      StampedAlike(Groups(rows)[i], i);
    }
    AlikeRestore(p, q);
    if rows != [] {
      assert rows[0] in rows;
    }
  }

  // ---- the read against the table from before ----

  lemma {:induction false} SelectedOrdered(rows: seq<Row>, pairs: seq<(int, seq<Row>)>)
    requires Ordered(pairs)
    ensures Ordered(Selected(rows, pairs))
    decreases pairs
  {
    if pairs != [] {
      var rest := pairs[1..];
      assert pairs == [pairs[0]] + rest && pairs[0] in pairs;
      SelectedOrdered(rows, rest);
      SelectedMembers(rows, rest);
      var sel := Selected(rows, rest);
      forall i | 0 <= i < |sel| ensures sel[i].0 > pairs[0].0 {
        assert sel[i] in sel;
        LaterAbove(pairs, sel[i]);
      }
    }
  }

  /** An admitted turn is not compacted, so that both restores show it. */
  lemma {:induction false} SelectedLive(rows: seq<Row>, pairs: seq<(int, seq<Row>)>)
    ensures FullHistory(Selected(rows, pairs)) == LiveHistory(Selected(rows, pairs))
    decreases pairs
  {
    if pairs != [] {
      SelectedLive(rows, pairs[1..]);
      var sel := Selected(rows, pairs);
      if Admits(rows, pairs[0]) {
        assert sel[0] == pairs[0] && sel[1..] == Selected(rows, pairs[1..]);
      } else {
        assert sel == Selected(rows, pairs[1..]);
      }
    }
  }

  /** For every table, and whether the repair can be written or not: the live
      restore through the relational read is the full restore the table had
      before if and only if under every number the admitted turn shows what
      the turn of that number showed. A repair that moves a group boundary
      makes a number show another turn. */
  lemma RepairedReadExact(rows: seq<Row>, writable: bool)
    ensures var read := ReadRows(rows, writable);
            LiveRestore(MergedReads(read)) == FullRestore(rows) <==>
              ShowsSameEverywhere(Selected(read, Grouped(read)), Grouped(rows))
  {
    var read := ReadRows(rows, writable);
    var sel := Selected(read, Grouped(read));
    GroupedAscends(read);
    GroupedAscends(rows);
    MergedLiveIsSelectedFull(read);
    SelectedLive(read, Grouped(read));
    SelectedOrdered(read, Grouped(read));
    TurnByTurn(sel, Grouped(rows));
    EverywhereIs(sel, Grouped(rows));
  }

  /** On an unnumbered table whose repair keeps the positional groups that
      means every repaired turn is preserved: numbers let an unanswered message
      through as soon as a later turn exists. The full read of the SQL stores
      repairs as well (virtual_context/storage/sqlite.py:3523-3545), so two
      reads of one store always compare by `MergedLiveExact` of the repaired
      rows. */
  lemma RepairedReadPreserved(rows: seq<Row>)
    requires (forall r :: r in rows ==> NumberOf(r) < 0) && CountsOpenings(rows)
    ensures LiveRestore(MergedReads(ReadRows(rows, true))) == FullRestore(rows) <==>
              forall p :: p in Grouped(AfterRepair(rows)) ==> Preserved(AfterRepair(rows), p)
  {
    RepairKeepsRestore(rows);
    MergedLiveExact(AfterRepair(rows));
  }
}
