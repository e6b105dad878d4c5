/** The live index of per-turn tag metadata: a bounded list of entry objects
    with three lookup dictionaries, duplicate rejection, eviction of the oldest
    entry and canonical ids assigned in place. */
module TurnTags {
  import opened Seqs

  const MAX_ENTRIES: nat := 5000

  /** What is stored of one entry. */
  datatype Entry = Entry(turn: int, canonicalId: string, hash: string)

  predicate HasTurn(entries: seq<Entry>, turn: int) {
    exists x :: x in entries && x.turn == turn
  }

  predicate HasId(entries: seq<Entry>, id: string) {
    exists x :: x in entries && x.canonicalId == id
  }

  /** `append` keeps the original of two entries for the same turn or for the
      same canonical id, as far as the id dictionary knows it. */
  predicate Rejects(entries: seq<Entry>, e: Entry, known: bool) {
    HasTurn(entries, e.turn) || (e.canonicalId != "" && known)
  }

  /** What `append` does to the list of entries. */
  function AppendKnowing(entries: seq<Entry>, e: Entry, known: bool): seq<Entry> {
    if Rejects(entries, e, known) then entries
    else (if |entries| >= MAX_ENTRIES then entries[1..] else entries) + [e]
  }

  /** The same with an id dictionary that is up to date. */
  function Append(entries: seq<Entry>, e: Entry): seq<Entry> {
    AppendKnowing(entries, e, HasId(entries, e.canonicalId))
  }

  function AppendAll(entries: seq<Entry>, es: seq<Entry>): seq<Entry>
    decreases es
  {
    if es == [] then entries else AppendAll(Append(entries, es[0]), es[1..])
  }

  predicate Windowed(entries: seq<Entry>) {
    |entries| <= MAX_ENTRIES && forall i, j :: 0 <= i < j < |entries| ==> entries[i].turn != entries[j].turn
  }

  predicate IdsDistinct(entries: seq<Entry>) {
    forall i, j :: 0 <= i < j < |entries| && entries[i].canonicalId != "" ==> entries[i].canonicalId != entries[j].canonicalId
  }

  /** An entry whose turn or id is present is dropped; any other goes last, and
      the oldest of 5000 makes room for it. */
  lemma AppendIs(entries: seq<Entry>, e: Entry)
    ensures (exists x :: x in entries && (x.turn == e.turn || (e.canonicalId != "" && x.canonicalId == e.canonicalId))) ==>
              Append(entries, e) == entries
    ensures (forall x :: x in entries ==> x.turn != e.turn && (e.canonicalId == "" || x.canonicalId != e.canonicalId)) ==>
              Append(entries, e) == if |entries| < 5000 then entries + [e] else entries[1..] + [e]
  {
  }

  lemma AppendWindowed(entries: seq<Entry>, e: Entry, known: bool)
    requires Windowed(entries)
    ensures Windowed(AppendKnowing(entries, e, known))
  {
    forall i | 0 <= i < |entries| ensures entries[i] in entries {}
  }

  lemma AppendKeepsIds(entries: seq<Entry>, e: Entry)
    requires IdsDistinct(entries)
    ensures IdsDistinct(Append(entries, e))
  {
    forall i | 0 <= i < |entries| ensures entries[i] in entries {}
  }

  lemma {:induction false} AppendAllKeeps(entries: seq<Entry>, es: seq<Entry>)
    requires Windowed(entries) && IdsDistinct(entries)
    ensures Windowed(AppendAll(entries, es)) && IdsDistinct(AppendAll(entries, es))
    decreases es
  {
    if es != [] {
      AppendWindowed(entries, es[0], HasId(entries, es[0].canonicalId));
      AppendKeepsIds(entries, es[0]);
      AppendAllKeeps(Append(entries, es[0]), es[1..]);
    }
  }

  /** Rebuilding an index from a list with distinct turns and ids, entry by
      entry, gives the list back: nothing is rejected and nothing evicted. */
  lemma {:induction false} RebuildSame(done: seq<Entry>, rest: seq<Entry>)
    requires Windowed(done + rest) && IdsDistinct(done + rest)
    ensures AppendAll(done, rest) == done + rest
    decreases rest
  {
    if rest == [] {
      assert done + rest == done;
    } else {
      var all := done + rest;
      assert all[|done|] == rest[0];
      forall x | x in done ensures x.turn != rest[0].turn && (rest[0].canonicalId != "" ==> x.canonicalId != rest[0].canonicalId) {
        var i :| 0 <= i < |done| && done[i] == x;
        assert all[i] == x;
      }
      assert (done + [rest[0]]) + rest[1..] == all;
      RebuildSame(done + [rest[0]], rest[1..]);
    }
  }

  lemma {:induction false} RebuildShrinks(done: seq<Entry>, rest: seq<Entry>)
    ensures |AppendAll(done, rest)| <= |done| + |rest|
    ensures |AppendAll(done, rest)| == |done| + |rest| ==> AppendAll(done, rest) == done + rest
    decreases rest
  {
    if rest == [] {
      assert done + rest == done;
    } else {
      RebuildShrinks(Append(done, rest[0]), rest[1..]);
      assert (done + [rest[0]]) + rest[1..] == done + rest;
    }
  }

  lemma EmptyKeeps(es: seq<Entry>)
    ensures Windowed(AppendAll([], es)) && IdsDistinct(AppendAll([], es))
  {
    AppendAllKeeps([], es);
  }

  lemma {:induction false} RebuildMembers(done: seq<Entry>, rest: seq<Entry>)
    ensures forall x :: x in AppendAll(done, rest) ==> x in done || x in rest
    ensures |AppendAll(done, rest)| >= |done|
    decreases rest
  {
    if rest != [] {
      RebuildMembers(Append(done, rest[0]), rest[1..]);
    }
  }

  /** A rebuild keeps every entry exactly when the ids are distinct: of two
      entries with one id the later is dropped. */
  lemma RebuildExactly(entries: seq<Entry>)
    requires Windowed(entries)
    ensures IdsDistinct(entries) ==> AppendAll([], entries) == entries
    ensures !IdsDistinct(entries) ==> |AppendAll([], entries)| < |entries|
  {
    assert [] + entries == entries;
    if IdsDistinct(entries) {
      RebuildSame([], entries);
    } else {
      RebuildShrinks([], entries);
      EmptyKeeps(entries);
    }
  }

  // ---- ids assigned in place ----

  /** The entry of a turn gets another canonical id. */
  function Assigned(entries: seq<Entry>, turn: int, id: string): seq<Entry> {
    seq(|entries|, i requires 0 <= i < |entries| =>
      if entries[i].turn == turn && id != "" then entries[i].(canonicalId := id) else entries[i])
  }

  /** Another entry than that of `turn` has the id. */
  predicate CarriedElsewhere(entries: seq<Entry>, turn: int, id: string) {
    exists x :: x in entries && x.turn != turn && x.canonicalId == id
  }

  lemma AssignedWindowed(entries: seq<Entry>, turn: int, id: string)
    requires Windowed(entries)
    ensures Windowed(Assigned(entries, turn, id))
  {
  }

  /** Ids stay distinct exactly when the assigned one is carried by no other
      entry. */
  lemma AssignedIdsExactly(entries: seq<Entry>, turn: int, id: string)
    requires Windowed(entries) && IdsDistinct(entries) && HasTurn(entries, turn) && id != ""
    ensures IdsDistinct(Assigned(entries, turn, id)) <==> !CarriedElsewhere(entries, turn, id)
  {
    var to := Assigned(entries, turn, id);
    var k :| 0 <= k < |entries| && entries[k].turn == turn;
    if x :| x in entries && x.turn != turn && x.canonicalId == id {
      var i :| 0 <= i < |entries| && entries[i] == x;
      assert to[i].canonicalId == id && to[k].canonicalId == id;
    } else {
      forall i, j | 0 <= i < j < |to| && to[i].canonicalId != "" ensures to[i].canonicalId != to[j].canonicalId {
        assert entries[i] in entries && entries[j] in entries;
      }
    }
  }

  // ---- entry objects ----

  class TurnTagEntry {
    const turn: int
    const hash: string
    var canonicalId: string

    constructor (e: Entry)
      ensures AsEntry() == e
    {
      turn, hash, canonicalId := e.turn, e.hash, e.canonicalId;
    }

    function AsEntry(): Entry
      reads this
    {
      Entry(turn, canonicalId, hash)
    }
  }

  function Contents(es: seq<TurnTagEntry>): seq<Entry>
    reads es
  {
    seq(|es|, i requires 0 <= i < |es| reads es => es[i].AsEntry())
  }

  /** The entry `get_entry_by_hash` should find: the newest carrying it. */
  function LastWithHash(entries: seq<TurnTagEntry>, h: string): Option<TurnTagEntry> {
    if entries == [] then None
    else if entries[|entries| - 1].hash == h then Some(entries[|entries| - 1])
    else LastWithHash(entries[..|entries| - 1], h)
  }

  lemma {:induction false} LastWithHashMember(entries: seq<TurnTagEntry>, h: string)
    ensures LastWithHash(entries, h).Some? ==> LastWithHash(entries, h).value in entries && LastWithHash(entries, h).value.hash == h
    ensures LastWithHash(entries, h).None? <==> forall e :: e in entries ==> e.hash != h
  {
    if entries != [] {
      var n := |entries| - 1;
      LastWithHashMember(entries[..n], h);
      assert entries == entries[..n] + [entries[n]];
    }
  }

  /** Of the entries with a hash the last. */
  ghost predicate IsNewest(entries: seq<TurnTagEntry>, h: string, e: TurnTagEntry) {
    exists i :: 0 <= i < |entries| && entries[i] == e && e.hash == h && forall j :: i < j < |entries| ==> entries[j].hash != h
  }

  lemma {:induction false} LastIsNewest(entries: seq<TurnTagEntry>, h: string)
    ensures LastWithHash(entries, h).Some? ==> IsNewest(entries, h, LastWithHash(entries, h).value)
  {
    if entries != [] {
      var n := |entries| - 1;
      if entries[n].hash == h {
        assert IsNewest(entries, h, entries[n]);
      } else {
        LastIsNewest(entries[..n], h);
        if LastWithHash(entries, h).Some? {
          var e := LastWithHash(entries, h).value;
          var i :| 0 <= i < n && entries[..n][i] == e && e.hash == h && forall j :: i < j < n ==> entries[..n][j].hash != h;
          assert entries[i] == e;
          forall j | i < j < |entries| ensures entries[j].hash != h {
            assert j < n ==> entries[..n][j] == entries[j];
          }
        }
      }
    }
  }

  ghost predicate TurnsDistinct(entries: seq<TurnTagEntry>) {
    forall i, j :: 0 <= i < j < |entries| ==> entries[i].turn != entries[j].turn
  }

  /** Dropping the oldest entry frees its hash only if no newer entry has
      taken the hash over. */
  lemma {:induction false} EvictHash(entries: seq<TurnTagEntry>, h: string)
    requires entries != [] && TurnsDistinct(entries)
    ensures LastWithHash(entries[1..], h) ==
            if LastWithHash(entries, h) == Some(entries[0]) then None else LastWithHash(entries, h)
  {
    var n := |entries| - 1;
    if n == 0 {
      assert entries[1..] == [] && entries[..0] == [];
    } else {
      assert entries[..n][1..] == entries[1..][..n - 1];
      assert entries[1..][n - 1] == entries[n];
      if entries[n].hash != h {
        EvictHash(entries[..n], h);
        assert entries[..n][0] == entries[0];
      }
    }
  }

  // ---- the lookup dictionaries ----

  /** `byTurn` answers exactly for the entries in the window. */
  ghost predicate TurnsAgree(byTurn: map<int, TurnTagEntry>, entries: seq<TurnTagEntry>) {
    && (forall e :: e in entries ==> e.turn in byTurn && byTurn[e.turn] == e)
    && (forall t :: t in byTurn ==> byTurn[t] in entries && byTurn[t].turn == t)
  }

  /** So does `byCanonical`, unless an id was assigned without it. */
  ghost predicate CanonicalsAgree(byCanonical: map<string, TurnTagEntry>, entries: seq<TurnTagEntry>)
    reads entries
  {
    && (forall e :: e in entries && e.canonicalId != "" ==> e.canonicalId in byCanonical && byCanonical[e.canonicalId] == e)
    && (forall c :: c in byCanonical ==> c != "" && byCanonical[c] in entries && byCanonical[c].canonicalId == c)
  }

  /** `byHash` finds the newest entry carrying a hash. */
  ghost predicate HashesAgree(byHash: map<string, TurnTagEntry>, entries: seq<TurnTagEntry>) {
    && "" !in byHash
    && forall h :: h != "" ==> LastWithHash(entries, h) == if h in byHash then Some(byHash[h]) else None
  }

  /** `if key and d.get(key) is oldest: del d[key]` */
  function GuardedDelete(d: map<string, TurnTagEntry>, key: string, oldest: TurnTagEntry): map<string, TurnTagEntry> {
    if key != "" && key in d && d[key] == oldest then d - {key} else d
  }

  lemma OldestIsUnique(entries: seq<TurnTagEntry>)
    requires entries != [] && TurnsDistinct(entries)
    ensures forall e :: e in entries[1..] <==> e in entries && e != entries[0]
    ensures forall e :: e in entries[1..] ==> e.turn != entries[0].turn
  {
    var rest := entries[1..];
    assert entries == [entries[0]] + rest;
    forall e | e in rest ensures e.turn != entries[0].turn {
      var i :| 0 <= i < |rest| && rest[i] == e;
      assert entries[i + 1] == e;
    }
  }

  lemma EvictTurns(d: map<int, TurnTagEntry>, entries: seq<TurnTagEntry>)
    requires entries != [] && TurnsDistinct(entries) && TurnsAgree(d, entries)
    ensures entries[0].turn in d && d[entries[0].turn] == entries[0]
    ensures TurnsAgree(d - {entries[0].turn}, entries[1..])
  {
    OldestIsUnique(entries);
  }

  lemma EvictCanonicals(d: map<string, TurnTagEntry>, entries: seq<TurnTagEntry>)
    requires entries != [] && TurnsDistinct(entries) && CanonicalsAgree(d, entries)
    ensures CanonicalsAgree(GuardedDelete(d, entries[0].canonicalId, entries[0]), entries[1..])
  {
    OldestIsUnique(entries);
  }

  lemma EvictHashes(d: map<string, TurnTagEntry>, entries: seq<TurnTagEntry>)
    requires entries != [] && TurnsDistinct(entries) && HashesAgree(d, entries)
    ensures HashesAgree(GuardedDelete(d, entries[0].hash, entries[0]), entries[1..])
  {
    var d' := GuardedDelete(d, entries[0].hash, entries[0]);
    forall h | h != "" ensures LastWithHash(entries[1..], h) == if h in d' then Some(d'[h]) else None {
      EvictHash(entries, h);
      LastWithHashMember(entries, h);
    }
  }

  lemma PushTurns(d: map<int, TurnTagEntry>, entries: seq<TurnTagEntry>, e: TurnTagEntry)
    requires TurnsAgree(d, entries) && TurnsDistinct(entries) && e.turn !in d
    ensures TurnsAgree(d[e.turn := e], entries + [e]) && TurnsDistinct(entries + [e])
  {
    forall i | 0 <= i < |entries| ensures entries[i].turn != e.turn {
      assert entries[i] in entries;
    }
  }

  lemma PushHashes(d: map<string, TurnTagEntry>, entries: seq<TurnTagEntry>, e: TurnTagEntry)
    requires HashesAgree(d, entries)
    ensures HashesAgree(if e.hash != "" then d[e.hash := e] else d, entries + [e])
  {
    assert (entries + [e])[..|entries|] == entries;
  }

  lemma PushCanonicals(d: map<string, TurnTagEntry>, entries: seq<TurnTagEntry>, e: TurnTagEntry)
    requires CanonicalsAgree(d, entries) && e.canonicalId !in d
    ensures CanonicalsAgree(if e.canonicalId != "" then d[e.canonicalId := e] else d, entries + [e])
  {
  }

  lemma HoldsTurn(d: map<int, TurnTagEntry>, entries: seq<TurnTagEntry>, turn: int)
    requires TurnsAgree(d, entries)
    ensures turn in d <==> HasTurn(Contents(entries), turn)
  {
    if turn in d {
      var i :| 0 <= i < |entries| && entries[i] == d[turn];
      assert Contents(entries)[i].turn == turn;
    }
  }

  lemma HoldsId(d: map<string, TurnTagEntry>, entries: seq<TurnTagEntry>, id: string)
    requires CanonicalsAgree(d, entries) && id != ""
    ensures id in d <==> HasId(Contents(entries), id)
  {
    if id in d {
      var i :| 0 <= i < |entries| && entries[i] == d[id];
      assert Contents(entries)[i].canonicalId == id;
    }
  }

  function Appended(entries: seq<TurnTagEntry>, e: TurnTagEntry, held: bool): seq<TurnTagEntry> {
    if held then entries else (if |entries| >= MAX_ENTRIES then entries[1..] else entries) + [e]
  }

  lemma AppendedContents(d: map<int, TurnTagEntry>, entries: seq<TurnTagEntry>, e: TurnTagEntry, known: bool)
    requires TurnsAgree(d, entries)
    ensures Contents(Appended(entries, e, e.turn in d || (e.canonicalId != "" && known))) == AppendKnowing(Contents(entries), e.AsEntry(), known)
  {
    HoldsTurn(d, entries, e.turn);
  }

  /** A dictionary that is up to date makes `append` reject what it should. */
  lemma SyncedAppends(d: map<string, TurnTagEntry>, entries: seq<TurnTagEntry>, e: TurnTagEntry)
    ensures CanonicalsAgree(d, entries) ==>
              AppendKnowing(Contents(entries), e.AsEntry(), e.canonicalId in d) == Append(Contents(entries), e.AsEntry())
  {
    if CanonicalsAgree(d, entries) && e.canonicalId != "" {
      HoldsId(d, entries, e.canonicalId);
    }
  }

  class TurnTagIndex {
    var entries: seq<TurnTagEntry>
    var byTurn: map<int, TurnTagEntry>
    var byCanonical: map<string, TurnTagEntry>
    var byHash: map<string, TurnTagEntry>
    var evicted: nat

    /** Turns and hashes are looked up right; nothing is said of ids. */
    ghost predicate Valid()
      reads this
    {
      |entries| <= MAX_ENTRIES && TurnsDistinct(entries) && TurnsAgree(byTurn, entries) && HashesAgree(byHash, entries)
    }

    /** Ids are looked up right as well, so they are distinct. */
    ghost predicate Synced()
      reads this, entries
    {
      Valid() && CanonicalsAgree(byCanonical, entries)
    }

    constructor ()
      ensures Synced() && entries == [] && byCanonical == map[] && evicted == 0
    {
      entries, byTurn, byCanonical, byHash, evicted := [], map[], map[], map[], 0;
    }

    /** `_evict_oldest`, with the identity guard before each deletion. */
    method EvictOldest()
      requires Valid()
      modifies this
      ensures Valid() && (old(Synced()) ==> Synced())
      ensures entries == if old(entries) == [] then [] else old(entries)[1..]
      ensures old(entries) != [] ==> byCanonical == GuardedDelete(old(byCanonical), old(entries)[0].canonicalId, old(entries)[0])
      ensures old(entries) == [] ==> byCanonical == old(byCanonical)
      ensures evicted == if old(entries) == [] then old(evicted) else old(evicted) + 1
    {
      if entries == [] {
        return;
      }
      var oldest := entries[0];
      EvictTurns(byTurn, entries);
      EvictHashes(byHash, entries);
      if CanonicalsAgree(byCanonical, entries) {
        EvictCanonicals(byCanonical, entries);
      }
      if oldest.turn in byTurn && byTurn[oldest.turn] == oldest {
        byTurn := byTurn - {oldest.turn};
      }
      byCanonical := GuardedDelete(byCanonical, oldest.canonicalId, oldest);
      byHash := GuardedDelete(byHash, oldest.hash, oldest);
      entries := entries[1..];
      evicted := evicted + 1;
    }

    /** The entry goes last and into all three dictionaries. */
    method Push(e: TurnTagEntry)
      requires Valid() && |entries| < MAX_ENTRIES && e.turn !in byTurn
      modifies this
      ensures Valid() && (old(Synced()) && e.canonicalId !in old(byCanonical) ==> Synced())
      ensures entries == old(entries) + [e] && evicted == old(evicted)
      ensures byCanonical == if e.canonicalId != "" then old(byCanonical)[e.canonicalId := e] else old(byCanonical)
    {
      PushTurns(byTurn, entries, e);
      PushHashes(byHash, entries, e);
      if CanonicalsAgree(byCanonical, entries) && e.canonicalId !in byCanonical {
        PushCanonicals(byCanonical, entries, e);
      }
      byTurn := byTurn[e.turn := e];
      if e.canonicalId != "" {
        byCanonical := byCanonical[e.canonicalId := e];
      }
      if e.hash != "" {
        byHash := byHash[e.hash := e];
      }
      entries := entries + [e];
    }

    /** The oldest entry makes room at the bound and the new one goes last. */
    method Place(e: TurnTagEntry)
      requires Valid() && !Holds(e)
      modifies this
      ensures Valid() && (old(Synced()) ==> Synced())
      ensures entries == Appended(old(entries), e, false)
      ensures evicted == old(evicted) + if |old(entries)| >= MAX_ENTRIES then 1 else 0
    {
      if |entries| >= MAX_ENTRIES {
        EvictOldest();
        assert e.turn !in byTurn by {
          assert forall x :: x in entries ==> x in old(entries);
        }
      }
      Push(e);
    }

    /** A duplicate changes nothing. */
    method AppendEntry(e: TurnTagEntry)
      requires Valid()
      modifies this
      ensures Valid() && (old(Synced()) ==> Synced())
      ensures Contents(entries) == AppendKnowing(old(Contents(entries)), e.AsEntry(), e.canonicalId in old(byCanonical))
      ensures old(Synced()) ==> Contents(entries) == Append(old(Contents(entries)), e.AsEntry())
      ensures entries == Appended(old(entries), e, old(Holds(e)))
      ensures old((exists x :: x in entries && x.turn == e.turn) || (e.canonicalId != "" && e.canonicalId in byCanonical)) ==> unchanged(this)
      ensures old((forall x :: x in entries ==> x.turn != e.turn) && (e.canonicalId == "" || e.canonicalId !in byCanonical)) ==>
                entries == if |old(entries)| == 5000 then old(entries)[1..] + [e] else old(entries) + [e]
      ensures evicted == old(evicted) + if !old(Holds(e)) && |old(entries)| >= MAX_ENTRIES then 1 else 0
    {
      AppendedContents(byTurn, entries, e, e.canonicalId in byCanonical);
      SyncedAppends(byCanonical, entries, e);
      if Holds(e) {
        return;
      }
      Place(e);
    }

    /** The two lookups by which `append` rejects. */
    predicate Holds(e: TurnTagEntry)
      reads this, e
    {
      e.turn in byTurn || (e.canonicalId != "" && e.canonicalId in byCanonical)
    }

    /** `get_entry_by_hash` */
    method EntryByHash(h: string) returns (e: Option<TurnTagEntry>)
      requires Valid()
      ensures e.Some? ==> h != "" && IsNewest(entries, h, e.value)
      ensures e.None? ==> h == "" || forall x :: x in entries ==> x.hash != h
    {
      LastIsNewest(entries, h);
      LastWithHashMember(entries, h);
      e := if h in byHash then Some(byHash[h]) else None;
    }

    /** A completed turn fetches its entry and assigns the id of its first
        stored row: the id dictionary is not told. */
    method AssignCanonicalId(turn: int, id: string)
      requires Valid()
      modifies entries
      ensures Valid() && Contents(entries) == Assigned(old(Contents(entries)), turn, id)
      ensures unchanged(this)
      ensures forall x :: x in entries ==> x.canonicalId == if x.turn == turn && id != "" then id else old(x.canonicalId)
    {
      if turn in byTurn {
        var entry := byTurn[turn];
        if id != "" {
          entry.canonicalId := id;
        }
      }
    }

    /** `bind_canonical_turn_id`: an id already known wins over the turn. */
    method BindCanonicalTurnId(turn: int, id: string) returns (bound: Option<TurnTagEntry>)
      requires Valid()
      modifies this`byCanonical, entries
      ensures Valid() && entries == old(entries)
      ensures bound == if id == "" then None
                       else if id in old(byCanonical) then Some(old(byCanonical)[id])
                       else if turn in byTurn then Some(byTurn[turn]) else None
      ensures Contents(entries) == if id in old(byCanonical) then old(Contents(entries)) else Assigned(old(Contents(entries)), turn, id)
      ensures forall x :: x in entries ==>
                x.canonicalId == if x.turn == turn && id != "" && id !in old(byCanonical) then id else old(x.canonicalId)
      ensures byCanonical == if bound.Some? then old(byCanonical)[id := bound.value] else old(byCanonical)
      ensures old(Synced()) && (turn in byTurn ==> old(byTurn[turn].canonicalId) == "") ==> Synced()
    {
      if id == "" {
        return None;
      }
      if id in byCanonical {
        return Some(byCanonical[id]);
      }
      if turn !in byTurn {
        return None;
      }
      var entry := byTurn[turn];
      entry.canonicalId := id;
      byCanonical := byCanonical[id := entry];
      return Some(entry);
    }
  }
}
