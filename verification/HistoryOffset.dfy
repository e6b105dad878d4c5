/** How many messages of the in-memory history are already compacted. */
module HistoryOffset {
  import opened Seqs

  /** `EngineState.history_offset`, with the watermark already chosen. */
  function Offset(watermark: nat, historyLen: nat, indexed: Option<nat>): int {
    if watermark < historyLen then watermark
    else if indexed.None? then 0
    else
      var first := indexed.value - historyLen / 2;
      var compacted := watermark / 2;
      if compacted <= first then 0
      else
        var offset := (compacted - first) * 2;
        if offset < historyLen then offset else historyLen
  }

  /** The messages among the first `n` whose turn the watermark covers, where
      message `i` belongs to turn `first + i / 2`. */
  function Covered(first: int, n: nat, watermark: nat): nat {
    if n == 0 then 0
    else Covered(first, n - 1, watermark) + if first + (n - 1) / 2 < watermark / 2 then 1 else 0
  }

  /** The offset can be used to slice the history. */
  lemma OffsetInRange(watermark: nat, historyLen: nat, indexed: Option<nat>)
    ensures 0 <= Offset(watermark, historyLen, indexed) <= historyLen
    ensures indexed.None? && watermark >= historyLen ==> Offset(watermark, historyLen, indexed) == 0
  {
  }

  lemma {:induction false} CoveredClosed(first: int, n: nat, watermark: nat)
    ensures Covered(first, n, watermark) ==
            var full := 2 * (watermark / 2 - first);
            if full <= 0 then 0 else if full < n then full else n
  {
    if n > 0 {
      CoveredClosed(first, n - 1, watermark);
    }
  }

  /** When the history is the last turns of the index, with or without the
      message of a turn not yet indexed, the offset counts exactly the messages
      of compacted turns if and only if the watermark reaches past the history,
      or is zero, or is even and the history was never trimmed. */
  lemma OffsetExactlyWhen(watermark: nat, historyLen: nat, indexed: nat)
    requires historyLen / 2 <= indexed
    ensures Offset(watermark, historyLen, Some(indexed)) == Covered(indexed - historyLen / 2, historyLen, watermark) <==>
            watermark >= historyLen || watermark == 0 || (watermark % 2 == 0 && indexed == historyLen / 2)
  {
    CoveredClosed(indexed - historyLen / 2, historyLen, watermark);
  }

  /** Trimming two of three turns with the first compacted: the offset skips
      a message of a turn that is not. */
  lemma TrimmedSkipsTooMuch()
    ensures Offset(2, 4, Some(3)) == 2 && Covered(1, 4, 2) == 0
  {
    CoveredClosed(1, 4, 2);
  }

  /** The messages of a history of `n` that belong to compacted turns. */
  function CompactedMessages(first: int, n: nat, watermark: nat): set<int> {
    set i | 0 <= i < n && first + i / 2 < watermark / 2
  }

  lemma CompactedSnoc(first: int, n: nat, watermark: nat)
    ensures |CompactedMessages(first, n + 1, watermark)| ==
            |CompactedMessages(first, n, watermark)| + if first + n / 2 < watermark / 2 then 1 else 0
  {
    var before: set<int> := CompactedMessages(first, n, watermark);
    if first + n / 2 < watermark / 2 {
      assert CompactedMessages(first, n + 1, watermark) == before + {n as int};
    } else {
      assert CompactedMessages(first, n + 1, watermark) == before;
    }
  }

  lemma {:induction false} CoveredCounts(first: int, n: nat, watermark: nat)
    ensures Covered(first, n, watermark) == |CompactedMessages(first, n, watermark)|
  {
    if n == 0 {
      assert CompactedMessages(first, 0, watermark) == {};
    } else {
      CoveredCounts(first, n - 1, watermark);
      CompactedSnoc(first, n - 1, watermark);
    }
  }

  /** A watermark inside the history is taken as it is; one past it counts the
      compacted messages of the newest `historyLen`, or nothing without an
      index. */
  lemma OffsetIs(watermark: nat, historyLen: nat, indexed: Option<nat>)
    ensures watermark < historyLen ==> Offset(watermark, historyLen, indexed) == watermark
    ensures watermark >= historyLen ==>
              Offset(watermark, historyLen, indexed) ==
              if indexed.None? then 0 else |CompactedMessages(indexed.value - historyLen / 2, historyLen, watermark)|
  {
    if indexed.Some? {
      CoveredClosed(indexed.value - historyLen / 2, historyLen, watermark);
      CoveredCounts(indexed.value - historyLen / 2, historyLen, watermark);
    }
  }
}
