/** Session state shared between workers: the engine's side (hydrate, extract,
    note the saved version) and the provider's optimistic save. */
module SessionStates {
  import opened Seqs
  import opened TurnTags

  /** What one load returns and one save writes. `generation` is the
      conversation generation, `index` the serialized turn-tag entries. */
  datatype SessionState = SessionState(generation: nat, version: nat, index: seq<Entry>)

  /** The stored key: missing, a deletion tombstone, or a state. */
  datatype Stored = Absent | Tombstone | Live(state: SessionState)

  /** `SessionStateProvider.save`: a tombstone and another generation are
      refused, and so is a state older than the stored one. The stored version
      is not required to be the loaded one. */
  function SaveState(stored: Stored, s: SessionState): (Stored, Option<nat>) {
    match stored
    case Tombstone => (stored, None)
    case Absent => (Live(s.(version := s.version + 1)), Some(s.version + 1))
    case Live(cur) =>
      if cur.generation != s.generation || cur.version > s.version then (stored, None)
      else (Live(s.(version := s.version + 1)), Some(s.version + 1))
  }

  /** The part of an engine that takes part in the protocol. */
  datatype Worker = Worker(generation: nat, version: nat, index: seq<Entry>)

  /** A nonzero version at or below the engine's own is not loaded again. */
  predicate AlreadyHeld(w: Worker, s: SessionState) {
    s.version != 0 && s.version <= w.version
  }

  function HydrateWorker(w: Worker, s: SessionState): Worker {
    if AlreadyHeld(w, s) then w else Worker(s.generation, s.version, AppendAll([], s.index))
  }

  /** Which states replace an engine's index, by version alone: one that the
      engine has or is past is ignored, unless it carries no version. */
  lemma HydrateByVersion(w: Worker, s: SessionState)
    ensures 0 < s.version <= w.version ==> HydrateWorker(w, s) == w
    ensures s.version == 0 || s.version > w.version ==>
              var to := HydrateWorker(w, s);
              && to.generation == s.generation && to.version == s.version
              && (Windowed(s.index) && IdsDistinct(s.index) ==> to.index == s.index)
              && (forall e :: e in to.index ==> e in s.index)
  {
    if s.version == 0 || s.version > w.version {
      RebuildMembers([], s.index);
      if Windowed(s.index) && IdsDistinct(s.index) {
        RebuildExactly(s.index);
      }
    }
  }

  lemma AppendAllStep(entries: seq<Entry>, es: seq<Entry>, i: nat)
    requires i < |es|
    ensures AppendAll(entries, es[i..]) == AppendAll(Append(entries, es[i]), es[i + 1..])
  {
    assert es[i..][1..] == es[i + 1..];
  }

  method AppendNew(index: TurnTagIndex, e: Entry)
    requires index.Synced()
    modifies index
    ensures index.Synced() && Contents(index.entries) == Append(old(Contents(index.entries)), e)
    ensures fresh(set x | x in index.entries && x !in old(index.entries))
  {
    var entry := new TurnTagEntry(e);
    index.AppendEntry(entry);
  }

  /** The loop over the serialized entries, each one a new object. */
  method Rebuild(es: seq<Entry>) returns (index: TurnTagIndex)
    ensures fresh(index) && fresh(index.entries) && index.Synced()
    ensures Contents(index.entries) == AppendAll([], es)
  {
    index := new TurnTagIndex();
    assert es[0..] == es && Contents(index.entries) == [];
    for i := 0 to |es|
      invariant fresh(index) && fresh(index.entries) && index.Synced()
      invariant AppendAll(Contents(index.entries), es[i..]) == AppendAll([], es)
    {
      AppendAllStep(Contents(index.entries), es, i);
      AppendNew(index, es[i]);
    }
    assert es[|es|..] == [];
  }

  class SessionEngine {
    var generation: nat
    var version: nat
    var turnTagIndex: TurnTagIndex

    ghost predicate Valid()
      reads this, turnTagIndex
    {
      turnTagIndex.Valid()
    }

    function AsWorker(): Worker
      reads this, turnTagIndex, turnTagIndex.entries
    {
      Worker(generation, version, Contents(turnTagIndex.entries))
    }

    constructor (generation: nat)
      ensures Valid() && fresh(turnTagIndex)
      ensures AsWorker() == Worker(generation, 0, [])
    {
      this.generation, this.version := generation, 0;
      this.turnTagIndex := new TurnTagIndex();
    }

    /** `hydrate_from_session_state`: replacing builds a new index object and
        leaves the old one as it was for whoever still holds it; a version
        already held changes nothing at all. The new index has entry objects of
        its own, and its id dictionary is up to date. */
    method Hydrate(state: SessionState)
      requires Valid()
      modifies this
      ensures Valid()
      ensures AsWorker() == HydrateWorker(old(AsWorker()), state)
      ensures 0 < state.version <= old(version) ==>
                && generation == old(generation) && version == old(version) && turnTagIndex == old(turnTagIndex)
                && turnTagIndex.entries == old(turnTagIndex.entries)
                && Contents(turnTagIndex.entries) == old(Contents(turnTagIndex.entries))
      ensures state.version == 0 || state.version > old(version) ==>
                && generation == state.generation && version == state.version
                && fresh(turnTagIndex) && turnTagIndex.Synced() && fresh(turnTagIndex.entries)
                && Contents(turnTagIndex.entries) == AppendAll([], state.index)
    {
      if state.version != 0 && state.version <= version {
        return;
      }
      version, generation := state.version, state.generation;
      var rebuilt := Rebuild(state.index);
      turnTagIndex := rebuilt;
    }

    /** `extract_session_state` */
    method Extract() returns (s: SessionState)
      requires Valid()
      ensures s == SessionState(generation, version, Contents(turnTagIndex.entries))
    {
      s := SessionState(generation, version, Contents(turnTagIndex.entries));
    }

    /** `note_session_state_saved` */
    method NoteSaved(saved: Option<nat>)
      requires Valid()
      modifies this`version
      ensures Valid() && turnTagIndex == old(turnTagIndex) && generation == old(generation)
      ensures version == if saved.Some? then saved.value else old(version)
    {
      if saved.Some? {
        version := saved.value;
      }
    }
  }
}
