/** Many workers over one stored session state, as a step relation with loads,
    extracted snapshots and version notes in flight. */
module SessionProtocol {
  import opened Seqs
  import opened TurnTags
  import opened SessionStates

  // ---- one index continuing another ----

  /** An entry without its canonical id, which a live index reassigns. */
  datatype Core = Core(turn: int, hash: string)

  function CoreOf(e: Entry): Core { Core(e.turn, e.hash) }

  function Bare(s: seq<Entry>): (b: seq<Core>)
    ensures |b| == |s|
  {
    seq(|s|, i requires 0 <= i < |s| => CoreOf(s[i]))
  }

  /** The newest entries that fit the index. */
  function Window(s: seq<Core>): seq<Core> {
    if |s| <= MAX_ENTRIES then s else s[|s| - MAX_ENTRIES..]
  }

  ghost predicate ExtendsBy(a: seq<Core>, more: seq<Core>, b: seq<Core>) {
    b == Window(a + more)
  }

  /** `b` is `a` with entries appended, the oldest evicted at the bound. */
  ghost predicate Extends(a: seq<Core>, b: seq<Core>) {
    exists more :: ExtendsBy(a, more, b)
  }

  /** The same of two indexes, whatever ids were assigned in between. */
  ghost predicate Continues(a: seq<Entry>, b: seq<Entry>) {
    Extends(Bare(a), Bare(b))
  }

  lemma DropThenAppend<T>(s: seq<T>, d: nat, n: seq<T>)
    requires d <= |s|
    ensures s[d..] + n == (s + n)[d..]
  {
  }

  lemma DropTwice<T>(s: seq<T>, d: nat, k: nat)
    requires d + k <= |s|
    ensures s[d..][k..] == s[d + k..]
  {
  }

  lemma WindowIs(s: seq<Core>, d: nat)
    requires d <= |s| && (d > 0 ==> |s| - d >= MAX_ENTRIES)
    ensures Window(s[d..]) == Window(s)
  {
    if |s| - d > MAX_ENTRIES {
      DropTwice(s, d, |s| - d - MAX_ENTRIES);
    }
  }

  lemma WindowTwice(s: seq<Core>, n: seq<Core>)
    ensures Window(Window(s) + n) == Window(s + n)
  {
    if |s| > MAX_ENTRIES {
      var d := |s| - MAX_ENTRIES;
      assert Window(s) + n == (s + n)[d..] by {
        DropThenAppend(s, d, n);
      }
      assert Window((s + n)[d..]) == Window(s + n) by {
        WindowIs(s + n, d);
      }
    }
  }

  lemma ExtendsTrans(a: seq<Core>, b: seq<Core>, c: seq<Core>)
    requires Extends(a, b) && Extends(b, c)
    ensures Extends(a, c)
  {
    var m :| ExtendsBy(a, m, b);
    var n :| ExtendsBy(b, n, c);
    WindowTwice(a + m, n);
    assert (a + m) + n == a + (m + n);
    assert ExtendsBy(a, m + n, c);
  }

  lemma ContinuesTrans(a: seq<Entry>, b: seq<Entry>, c: seq<Entry>)
    requires Continues(a, b) && Continues(b, c)
    ensures Continues(a, c)
  {
    ExtendsTrans(Bare(a), Bare(b), Bare(c));
  }

  lemma ContinuesSelf(a: seq<Entry>)
    requires |a| <= MAX_ENTRIES
    ensures Continues(a, a) && Continues([], a)
  {
    var s := Bare(a);
    assert s + [] == s && Bare([]) + s == s;
    assert ExtendsBy(s, [], s) && ExtendsBy(Bare([]), s, s);
  }

  lemma AppendContinues(a: seq<Entry>, e: Entry, known: bool)
    requires |a| <= MAX_ENTRIES
    ensures Continues(a, AppendKnowing(a, e, known))
  {
    var b := AppendKnowing(a, e, known);
    if Rejects(a, e, known) {
      ContinuesSelf(a);
    } else {
      assert Bare(b) == Window(Bare(a) + [CoreOf(e)]);
      assert ExtendsBy(Bare(a), [CoreOf(e)], Bare(b));
    }
  }

  lemma AssignedContinues(a: seq<Entry>, turn: int, id: string)
    requires |a| <= MAX_ENTRIES
    ensures Continues(a, Assigned(a, turn, id))
  {
    ContinuesSelf(a);
    assert Bare(Assigned(a, turn, id)) == Bare(a);
  }

  /** What continuing promises a reader: what is left of the earlier index is
      the start of the later one, and nothing is gone unless the later index
      is full. */
  lemma ContinuesKeeps(a: seq<Entry>, b: seq<Entry>)
    requires Continues(a, b)
    ensures |b| < MAX_ENTRIES ==> Bare(a) <= Bare(b)
    ensures exists d :: 0 <= d <= |a| && Bare(a)[d..] <= Bare(b) && (d > 0 ==> |b| == MAX_ENTRIES)
  {
    var s, t := Bare(a), Bare(b);
    var m :| ExtendsBy(s, m, t);
    var d := |s + m| - |t|;
    assert t == (s + m)[d..];
    if d <= |s| {
      assert (s + m)[d..] == s[d..] + m;
      assert s[d..] <= t;
    } else {
      assert s[|s|..] == [];
      assert s[|s|..] <= t;
    }
  }

  lemma ShorterIsNoContinuation(a: seq<Entry>, b: seq<Entry>)
    requires |b| < |a| <= MAX_ENTRIES
    ensures !Continues(a, b)
  {
    if Continues(a, b) {
      ContinuesKeeps(a, b);
    }
  }

  // ---- the system ----

  /** A saved version on its way back to a worker, with the generation the
      save was made in. */
  datatype Note = Note(worker: int, generation: nat, version: nat)

  datatype Slot = Slot(worker: int, state: SessionState)

  /** The current conversation generation: `committed[v]` is the index stored
      at its version v, `authored` the entries put into indexes of engines of
      this generation. The last two only observe. */
  datatype Era = Era(generation: nat, committed: seq<seq<Entry>>, authored: set<Core>)

  datatype System = System(
    era: Era,
    stored: Stored,
    workers: map<int, Worker>,
    loads: set<Slot>,
    snaps: set<Slot>,
    notes: set<Note>)

  /** In `Work`, `known` is whether the engine's id dictionary holds the id of
      the new entry; after an `Assign`, which goes round the dictionary, it
      may and it may not. */
  datatype Action =
    | Join(w: int)
    | Load(w: int)
    | LoadBackup(w: int, k: nat)
    | Hydrate(w: int, s: SessionState)
    | Work(w: int, e: Entry, known: bool)
    | Assign(w: int, turn: int, id: string)
    | Extract(w: int)
    | Save(w: int, s: SessionState)
    | Discard(w: int, s: SessionState)
    | DeliverNote(n: Note)
    | Delete
    | Undelete(g: nat)

  predicate Enabled(sys: System, a: Action) {
    match a
    case Join(w) => w !in sys.workers
    case Load(w) => w in sys.workers && sys.stored.Live?
    case LoadBackup(w, k) => w in sys.workers && 1 <= k < |sys.era.committed|
    case Hydrate(w, s) => w in sys.workers && Slot(w, s) in sys.loads
    case Work(w, _, _) => w in sys.workers
    case Assign(w, _, _) => w in sys.workers
    case Extract(w) => w in sys.workers
    case Save(w, s) => w in sys.workers && Slot(w, s) in sys.snaps
    case Discard(w, s) => Slot(w, s) in sys.snaps
    case DeliverNote(n) => n.worker in sys.workers && n in sys.notes
    case Delete => true
    case Undelete(g) =>
      (sys.stored.Tombstone? && g > sys.era.generation) || (sys.stored.Absent? && g >= sys.era.generation)
  }

  function Saved(sys: System, w: int, s: SessionState): System {
    var (stored, version) := SaveState(sys.stored, s);
    var rest := sys.(snaps := sys.snaps - {Slot(w, s)});
    if version.None? then rest
    else rest.(stored := stored,
               notes := sys.notes + {Note(w, s.generation, version.value)},
               era := sys.era.(committed := sys.era.committed + [s.index]))
  }

  /** A worker's index becomes `ix`; `added` are the entries that are new in it. */
  function Reindexed(sys: System, w: int, ix: seq<Entry>, added: set<Core>): System
    requires w in sys.workers
  {
    sys.(workers := sys.workers[w := sys.workers[w].(index := ix)],
         era := Authoring(sys.era, if sys.workers[w].generation == sys.era.generation then added else {}))
  }

  function Authoring(era: Era, added: set<Core>): Era {
    era.(authored := era.authored + added)
  }

  function Worked(sys: System, w: int, e: Entry, known: bool): System
    requires w in sys.workers
  {
    var ix := sys.workers[w].index;
    Reindexed(sys, w, AppendKnowing(ix, e, known), if Rejects(ix, e, known) then {} else {CoreOf(e)})
  }

  function Undeleted(sys: System, g: nat): System {
    sys.(era := Era(g, [[]], {}), stored := Live(SessionState(g, 0, [])))
  }

  function Apply(sys: System, a: Action): System
    requires Enabled(sys, a)
  {
    match a
    // Another engine starts.
    case Join(w) => sys.(workers := sys.workers[w := Worker(sys.era.generation, 0, [])])
    case Load(w) => sys.(loads := sys.loads + {Slot(w, sys.stored.state)})
    // The durable fallback carries no version.
    case LoadBackup(w, k) =>
      sys.(loads := sys.loads + {Slot(w, SessionState(sys.era.generation, 0, sys.era.committed[k]))})
    case Hydrate(w, s) => sys.(workers := sys.workers[w := HydrateWorker(sys.workers[w], s)])
    case Work(w, e, known) => Worked(sys, w, e, known)
    case Assign(w, turn, id) => Reindexed(sys, w, Assigned(sys.workers[w].index, turn, id), {})
    case Extract(w) => sys.(snaps := sys.snaps + {Slot(w, Snapshot(sys.workers[w]))})
    case Save(w, s) => Saved(sys, w, s)
    case Discard(w, s) => sys.(snaps := sys.snaps - {Slot(w, s)})
    case DeliverNote(n) =>
      sys.(notes := sys.notes - {n}, workers := sys.workers[n.worker := sys.workers[n.worker].(version := n.version)])
    case Delete => sys.(stored := Tombstone)
    case Undelete(g) =>
      if g == sys.era.generation then sys.(stored := Live(SessionState(g, 0, []))) else Undeleted(sys, g)
  }

  function Snapshot(w: Worker): SessionState {
    SessionState(w.generation, w.version, w.index)
  }

  /** What a replacing hydrate makes of a loaded state: of two entries with one
      canonical id only the first is kept. */
  function Rebuilt(s: SessionState): seq<Entry> {
    AppendAll([], s.index)
  }

  /** When a hydrate that replaces the index is harmless. At the stored version
      the rebuilt index must continue the stored one. An own save still to be
      acknowledged must not lie above the stored version, and at it the same
      must hold; an own snapshot that can still be saved must be continued by
      the rebuilt index. States of another generation and deleted
      conversations cannot be overwritten. */
  ghost predicate Covered(sys: System, w: int, s: SessionState)
    requires w in sys.workers
  {
    || AlreadyHeld(sys.workers[w], s)
    || !sys.stored.Live? || s.generation != sys.stored.state.generation
    || (var top := sys.stored.state;
        && (s.version == top.version ==> Continues(top.index, Rebuilt(s)))
        && (forall n :: n in sys.notes && n.worker == w ==>
              n.version <= top.version && (n.version == top.version ==> Continues(top.index, Rebuilt(s))))
        && (forall p :: p in sys.snaps && p.worker == w && p.state.generation == top.generation && p.state.version == top.version ==>
              Continues(p.state.index, Rebuilt(s))))
  }

  ghost predicate Careful(sys: System, a: Action) {
    a.Hydrate? && a.w in sys.workers ==> Covered(sys, a.w, a.s)
  }

  predicate Initial(sys: System) {
    && sys.stored == Absent
    && sys.loads == {} && sys.snaps == {} && sys.notes == {}
    && sys.era.committed == [[]]
    && (forall w :: w in sys.workers ==>
          && sys.workers[w].generation == sys.era.generation && sys.workers[w].version == 0
          && Written(sys.era, sys.workers[w].index))
  }

  ghost predicate IsRun(states: seq<System>, actions: seq<Action>) {
    && |states| == |actions| + 1
    && Initial(states[0])
    && forall i :: 0 <= i < |actions| ==>
         Enabled(states[i], actions[i]) && Careful(states[i], actions[i]) && states[i + 1] == Apply(states[i], actions[i])
  }

  // ---- the invariant, part by part ----

  predicate Written(era: Era, ix: seq<Entry>) {
    Windowed(ix) && forall e :: e in ix ==> CoreOf(e) in era.authored
  }

  ghost predicate EraInv(era: Era) {
    && |era.committed| > 0 && era.committed[0] == []
    && (forall i :: 0 <= i < |era.committed| ==> Written(era, era.committed[i]))
    && (forall i, j :: 0 <= i <= j < |era.committed| ==> Continues(era.committed[i], era.committed[j]))
  }

  predicate StoreInv(sys: System) {
    var n := |sys.era.committed|;
    && n > 0
    && (sys.stored.Live? ==> sys.stored.state == SessionState(sys.era.generation, n - 1, sys.era.committed[n - 1]))
    && (sys.stored.Absent? ==>
          && n == 1 && sys.loads == {} && sys.notes == {}
          && (forall w :: w in sys.workers ==> sys.workers[w].generation == sys.era.generation && sys.workers[w].version == 0)
          && (forall p :: p in sys.snaps ==> p.state.generation == sys.era.generation && p.state.version == 0))
  }

  /** The last version of the generation and the index stored at it. */
  function Top(era: Era): nat
    requires |era.committed| > 0
  {
    |era.committed| - 1
  }

  predicate WorkerBase(era: Era, w: Worker) {
    w.generation <= era.generation && Windowed(w.index) && (w.generation == era.generation ==> Written(era, w.index))
  }

  predicate LoadInv(era: Era, s: SessionState) {
    && s.generation <= era.generation
    && Windowed(s.index)
    && (s.generation == era.generation ==>
          && s.version < |era.committed| && Written(era, s.index)
          && (s.version > 0 ==> s.index == era.committed[s.version]))
  }

  predicate SnapBase(era: Era, s: SessionState) {
    s.generation <= era.generation && Windowed(s.index) && (s.generation == era.generation ==> Written(era, s.index))
  }

  /** An engine at the last version continues the last commit; what it holds
      at an earlier version does not matter, its saves are refused. */
  ghost predicate WorkerTop(era: Era, w: Worker)
    requires |era.committed| > 0
  {
    w.generation == era.generation ==>
      w.version <= Top(era) && (w.version == Top(era) ==> Continues(era.committed[Top(era)], w.index))
  }

  /** `w` is the engine the snapshot was extracted from, as it is now. */
  ghost predicate SnapTop(era: Era, w: Worker, s: SessionState)
    requires |era.committed| > 0
  {
    s.generation == era.generation ==>
      && s.version <= Top(era)
      && (s.version == Top(era) ==>
            Continues(era.committed[Top(era)], s.index) && (w.generation == era.generation ==> Continues(s.index, w.index)))
  }

  ghost predicate NoteTop(era: Era, w: Worker, n: Note)
    requires |era.committed| > 0
  {
    w.generation == era.generation ==>
      n.version <= Top(era) && (n.version == Top(era) ==> Continues(era.committed[Top(era)], w.index))
  }

  predicate BaseInv(sys: System) {
    && (forall w :: w in sys.workers ==> WorkerBase(sys.era, sys.workers[w]))
    && (forall l :: l in sys.loads ==> l.worker in sys.workers && LoadInv(sys.era, l.state))
    && (forall p :: p in sys.snaps ==> p.worker in sys.workers && SnapBase(sys.era, p.state))
    && (forall n :: n in sys.notes ==> n.worker in sys.workers)
  }

  ghost predicate TopInv(sys: System)
    requires |sys.era.committed| > 0 && BaseInv(sys)
  {
    && (forall w :: w in sys.workers ==> WorkerTop(sys.era, sys.workers[w]))
    && (forall p :: p in sys.snaps ==> SnapTop(sys.era, sys.workers[p.worker], p.state))
    && (forall n :: n in sys.notes ==> NoteTop(sys.era, sys.workers[n.worker], n))
  }

  ghost predicate Inv(sys: System) {
    && EraInv(sys.era)
    && StoreInv(sys)
    && BaseInv(sys)
    && (!sys.stored.Tombstone? ==> TopInv(sys))
  }

  lemma InitInv(sys: System)
    requires Initial(sys)
    ensures Inv(sys)
  {
    ContinuesSelf([]);
    forall w | w in sys.workers ensures WorkerTop(sys.era, sys.workers[w]) {
      ContinuesSelf(sys.workers[w].index);
    }
  }

  // ---- hydrate and join ----

  /** Putting another engine value in a worker's place. */
  lemma ReplaceWorker(sys: System, w: int, held: Worker)
    requires Inv(sys) && w in sys.workers && !sys.stored.Absent?
    requires WorkerBase(sys.era, held)
    requires sys.stored.Live? ==>
               && WorkerTop(sys.era, held)
               && (forall n :: n in sys.notes && n.worker == w ==> NoteTop(sys.era, held, n))
               && (forall p :: p in sys.snaps && p.worker == w ==> SnapTop(sys.era, held, p.state))
    ensures Inv(sys.(workers := sys.workers[w := held]))
  {
  }

  lemma RebuiltWindowed(s: SessionState)
    ensures Windowed(Rebuilt(s)) && IdsDistinct(Rebuilt(s))
    ensures forall x :: x in Rebuilt(s) ==> x in s.index
  {
    EmptyKeeps(s.index);
    RebuildMembers([], s.index);
  }

  lemma RebuiltBase(era: Era, l: SessionState)
    requires LoadInv(era, l)
    ensures WorkerBase(era, Worker(l.generation, l.version, Rebuilt(l)))
  {
    RebuiltWindowed(l);
  }

  /** Rebuilding loses nothing of an index exactly when its ids are distinct. */
  lemma RebuiltContinuesExactly(s: SessionState)
    requires Windowed(s.index)
    ensures Continues(s.index, Rebuilt(s)) <==> IdsDistinct(s.index)
  {
    RebuildExactly(s.index);
    if IdsDistinct(s.index) {
      ContinuesSelf(s.index);
    } else {
      ShorterIsNoContinuation(s.index, Rebuilt(s));
    }
  }

  lemma HydrateInv(sys: System, w: int, s: SessionState)
    requires Inv(sys) && Enabled(sys, Hydrate(w, s)) && Covered(sys, w, s)
    ensures Inv(Apply(sys, Hydrate(w, s)))
  {
    if AlreadyHeld(sys.workers[w], s) {
      assert Apply(sys, Hydrate(w, s)) == sys;
    } else {
      assert Slot(w, s) in sys.loads;
      RebuiltBase(sys.era, s);
      ReplaceWorker(sys, w, Worker(s.generation, s.version, Rebuilt(s)));
    }
  }

  lemma JoinInv(sys: System, w: int)
    requires Inv(sys) && Enabled(sys, Join(w))
    ensures Inv(Apply(sys, Join(w)))
  {
    ContinuesSelf([]);
    var sys' := Apply(sys, Join(w));
    assert WorkerTop(sys.era, sys'.workers[w]);
  }

  // ---- local work: appended entries and assigned ids ----

  lemma WrittenStays(era: Era, added: set<Core>, ix: seq<Entry>)
    requires Written(era, ix)
    ensures Written(Authoring(era, added), ix)
  {
  }

  lemma AuthoringEra(era: Era, added: set<Core>)
    requires EraInv(era)
    ensures EraInv(Authoring(era, added))
  {
    forall i | 0 <= i < |era.committed| ensures Written(Authoring(era, added), era.committed[i]) {
      WrittenStays(era, added, era.committed[i]);
    }
  }

  lemma AuthoringBase(sys: System, added: set<Core>)
    requires BaseInv(sys)
    ensures BaseInv(sys.(era := Authoring(sys.era, added)))
  {
    forall ix | Written(sys.era, ix) ensures Written(Authoring(sys.era, added), ix) {
      WrittenStays(sys.era, added, ix);
    }
  }

  /** The index of one engine is replaced by one that continues it. */
  predicate Reworked(sys: System, w: int, ix: seq<Entry>, added: set<Core>) {
    && w in sys.workers && Windowed(ix)
    && forall e :: e in ix ==> CoreOf(e) in added || exists x :: x in sys.workers[w].index && CoreOf(x) == CoreOf(e)
  }

  lemma ReindexedBase(sys: System, w: int, ix: seq<Entry>, added: set<Core>)
    requires BaseInv(sys) && Reworked(sys, w, ix, added)
    ensures BaseInv(Reindexed(sys, w, ix, added))
  {
    var from, to := sys.workers[w], Reindexed(sys, w, ix, added);
    assert WorkerBase(sys.era, from);
    assert WorkerBase(to.era, to.workers[w]);
    AuthoringBase(sys, if from.generation == sys.era.generation then added else {});
  }

  lemma WorkerTopMoves(era: Era, added: set<Core>, from: Worker, ix: seq<Entry>)
    requires |era.committed| > 0 && WorkerTop(era, from) && Continues(from.index, ix)
    ensures WorkerTop(Authoring(era, added), from.(index := ix))
  {
    if from.generation == era.generation && from.version == Top(era) {
      ContinuesTrans(era.committed[Top(era)], from.index, ix);
    }
  }

  lemma SnapTopMoves(era: Era, added: set<Core>, from: Worker, ix: seq<Entry>, s: SessionState)
    requires |era.committed| > 0 && SnapTop(era, from, s) && Continues(from.index, ix)
    ensures SnapTop(Authoring(era, added), from.(index := ix), s)
  {
    if s.generation == era.generation == from.generation && s.version == Top(era) {
      ContinuesTrans(s.index, from.index, ix);
    }
  }

  lemma NoteTopMoves(era: Era, added: set<Core>, from: Worker, ix: seq<Entry>, n: Note)
    requires |era.committed| > 0 && NoteTop(era, from, n) && Continues(from.index, ix)
    ensures NoteTop(Authoring(era, added), from.(index := ix), n)
  {
    if from.generation == era.generation && n.version == Top(era) {
      ContinuesTrans(era.committed[Top(era)], from.index, ix);
    }
  }

  lemma ReindexedTop(sys: System, w: int, ix: seq<Entry>, added: set<Core>)
    requires |sys.era.committed| > 0 && BaseInv(sys) && TopInv(sys)
    requires w in sys.workers && Continues(sys.workers[w].index, ix)
    ensures var to := Reindexed(sys, w, ix, added);
            && (forall v :: v in to.workers ==> WorkerTop(to.era, to.workers[v]))
            && (forall p :: p in to.snaps ==> SnapTop(to.era, to.workers[p.worker], p.state))
            && (forall n :: n in to.notes ==> NoteTop(to.era, to.workers[n.worker], n))
  {
    var to := Reindexed(sys, w, ix, added);
    var more := if sys.workers[w].generation == sys.era.generation then added else {};
    forall v | v in to.workers ensures WorkerTop(to.era, to.workers[v]) {
      assert WorkerTop(sys.era, sys.workers[v]);
      if v == w {
        WorkerTopMoves(sys.era, more, sys.workers[w], ix);
      }
    }
    forall p | p in to.snaps ensures SnapTop(to.era, to.workers[p.worker], p.state) {
      assert SnapTop(sys.era, sys.workers[p.worker], p.state);
      if p.worker == w {
        SnapTopMoves(sys.era, more, sys.workers[w], ix, p.state);
      }
    }
    forall n | n in to.notes ensures NoteTop(to.era, to.workers[n.worker], n) {
      assert NoteTop(sys.era, sys.workers[n.worker], n);
      if n.worker == w {
        NoteTopMoves(sys.era, more, sys.workers[w], ix, n);
      }
    }
  }

  lemma ReindexedInv(sys: System, w: int, ix: seq<Entry>, added: set<Core>)
    requires Inv(sys) && Reworked(sys, w, ix, added) && Continues(sys.workers[w].index, ix)
    ensures Inv(Reindexed(sys, w, ix, added))
  {
    var to := Reindexed(sys, w, ix, added);
    assert EraInv(to.era) by {
      AuthoringEra(sys.era, if sys.workers[w].generation == sys.era.generation then added else {});
    }
    assert BaseInv(to) by {
      ReindexedBase(sys, w, ix, added);
    }
    if !sys.stored.Tombstone? {
      ReindexedTop(sys, w, ix, added);
    }
  }

  lemma WorkInv(sys: System, w: int, e: Entry, known: bool)
    requires Inv(sys) && Enabled(sys, Work(w, e, known))
    ensures Inv(Apply(sys, Work(w, e, known)))
  {
    var from := sys.workers[w];
    assert WorkerBase(sys.era, from);
    AppendWindowed(from.index, e, known);
    AppendContinues(from.index, e, known);
    ReindexedInv(sys, w, AppendKnowing(from.index, e, known), if Rejects(from.index, e, known) then {} else {CoreOf(e)});
  }

  lemma AssignInv(sys: System, w: int, turn: int, id: string)
    requires Inv(sys) && Enabled(sys, Assign(w, turn, id))
    ensures Inv(Apply(sys, Assign(w, turn, id)))
  {
    var from := sys.workers[w];
    assert WorkerBase(sys.era, from);
    AssignedWindowed(from.index, turn, id);
    AssignedContinues(from.index, turn, id);
    var ix := Assigned(from.index, turn, id);
    forall e | e in ix ensures exists x :: x in from.index && CoreOf(x) == CoreOf(e) {
      var i :| 0 <= i < |ix| && ix[i] == e;
      assert from.index[i] in from.index && CoreOf(from.index[i]) == CoreOf(e);
    }
    ReindexedInv(sys, w, ix, {});
  }

  // ---- extract, save, note ----

  lemma ExtractInv(sys: System, w: int)
    requires Inv(sys) && Enabled(sys, Extract(w))
    ensures Inv(Apply(sys, Extract(w)))
  {
    ContinuesSelf(sys.workers[w].index);
  }

  /** The provider only refuses older versions, yet an accepted save always
      carries exactly the stored version: no worker is ever ahead. */
  lemma AcceptedSave(sys: System, w: int, s: SessionState)
    requires Inv(sys) && Enabled(sys, Save(w, s))
    ensures SaveState(sys.stored, s).1.Some? ==>
              s.generation == sys.era.generation && s.version == |sys.era.committed| - 1
  {
    assert Slot(w, s) in sys.snaps;
  }

  function Committing(era: Era, ix: seq<Entry>): Era {
    era.(committed := era.committed + [ix])
  }

  /** One more commit, on top of the last one. */
  lemma CommitEra(era: Era, ix: seq<Entry>)
    requires EraInv(era) && Written(era, ix)
    requires Continues(era.committed[|era.committed| - 1], ix)
    ensures EraInv(Committing(era, ix))
  {
    var n := |era.committed|;
    var more := Committing(era, ix);
    ContinuesSelf(ix);
    forall i | 0 <= i < n ensures Continues(era.committed[i], ix) {
      assert Continues(era.committed[i], era.committed[n - 1]);
      ContinuesTrans(era.committed[i], era.committed[n - 1], ix);
    }
    forall j | 0 <= j < n ensures more.committed[j] == era.committed[j] {}
    forall i | 0 <= i <= n ensures Written(more, more.committed[i]) {
      assert Written(era, more.committed[i]);
    }
  }

  /** A commit leaves everything that is in flight behind. */
  lemma CommitKeepsBase(era: Era, ix: seq<Entry>)
    ensures forall w :: WorkerBase(era, w) ==> WorkerBase(Committing(era, ix), w)
    ensures forall s :: LoadInv(era, s) ==> LoadInv(Committing(era, ix), s)
    ensures forall s :: SnapBase(era, s) ==> SnapBase(Committing(era, ix), s)
  {
    forall x | Written(era, x) ensures Written(Committing(era, ix), x) {}
  }

  lemma CommitKeepsTop(era: Era, ix: seq<Entry>)
    requires |era.committed| > 0
    ensures forall w :: WorkerTop(era, w) ==> WorkerTop(Committing(era, ix), w)
    ensures forall w, s :: SnapTop(era, w, s) ==> SnapTop(Committing(era, ix), w, s)
    ensures forall w, n :: NoteTop(era, w, n) ==> NoteTop(Committing(era, ix), w, n)
  {
  }

  lemma AcceptedAfter(sys: System, w: int, s: SessionState)
    requires Inv(sys) && Enabled(sys, Save(w, s)) && SaveState(sys.stored, s).1.Some?
    ensures var era := Committing(sys.era, s.index);
            && Apply(sys, Save(w, s)) == System(era, Live(s.(version := s.version + 1)), sys.workers, sys.loads, sys.snaps - {Slot(w, s)},
                                                sys.notes + {Note(w, s.generation, s.version + 1)})
            && s.generation == era.generation && s.version + 1 == Top(era) && EraInv(era)
            && NoteTop(era, sys.workers[w], Note(w, s.generation, s.version + 1))
  {
    AcceptedSave(sys, w, s);
    assert Slot(w, s) in sys.snaps;
    assert SnapTop(sys.era, sys.workers[w], s) && SnapBase(sys.era, s);
    CommitEra(sys.era, s.index);
  }

  lemma SaveInv(sys: System, w: int, s: SessionState)
    requires Inv(sys) && Enabled(sys, Save(w, s))
    ensures Inv(Apply(sys, Save(w, s)))
  {
    assert Slot(w, s) in sys.snaps;
    if SaveState(sys.stored, s).1.Some? {
      AcceptedInv(sys, w, s);
    }
  }

  lemma AcceptedInv(sys: System, w: int, s: SessionState)
    requires Inv(sys) && Enabled(sys, Save(w, s)) && SaveState(sys.stored, s).1.Some?
    ensures Inv(Apply(sys, Save(w, s)))
  {
    AcceptedAfter(sys, w, s);
    var saved := Apply(sys, Save(w, s));
    assert BaseInv(saved) by {
      CommitKeepsBase(sys.era, s.index);
    }
    CommitKeepsTop(sys.era, s.index);
    assert StoreInv(saved);
  }

  lemma DeliverInv(sys: System, n: Note)
    requires Inv(sys) && Enabled(sys, DeliverNote(n))
    ensures Inv(Apply(sys, DeliverNote(n)))
  {
    var from := sys.workers[n.worker];
    var to := from.(version := n.version);
    assert WorkerBase(sys.era, from) && WorkerBase(sys.era, to);
    if !sys.stored.Tombstone? {
      assert NoteTop(sys.era, from, n);
      assert WorkerTop(sys.era, to);
      assert forall m :: NoteTop(sys.era, from, m) ==> NoteTop(sys.era, to, m);
      assert forall s :: SnapTop(sys.era, from, s) ==> SnapTop(sys.era, to, s);
    }
  }

  lemma UndeleteInv(sys: System, g: nat)
    requires Inv(sys) && Enabled(sys, Undelete(g))
    ensures Inv(Apply(sys, Undelete(g)))
  {
    ContinuesSelf([]);
    if g > sys.era.generation {
      var era := Era(g, [[]], {});
      assert forall w :: WorkerBase(sys.era, w) ==> WorkerBase(era, w) && WorkerTop(era, w);
      assert forall s :: LoadInv(sys.era, s) ==> LoadInv(era, s);
      forall n | n in sys.notes ensures NoteTop(era, sys.workers[n.worker], n) {
        assert WorkerBase(sys.era, sys.workers[n.worker]);
      }
    }
  }

  lemma ReadInv(sys: System, w: int, s: SessionState)
    requires Inv(sys) && w in sys.workers && LoadInv(sys.era, s) && !sys.stored.Absent?
    ensures Inv(sys.(loads := sys.loads + {Slot(w, s)}))
  {
  }

  lemma LoadedInv(sys: System, a: Action)
    requires Inv(sys) && Enabled(sys, a) && (a.Load? || a.LoadBackup?)
    ensures Inv(Apply(sys, a))
  {
    var k := if a.Load? then |sys.era.committed| - 1 else a.k;
    assert Written(sys.era, sys.era.committed[k]);
    var s := if a.Load? then sys.stored.state else SessionState(sys.era.generation, 0, sys.era.committed[k]);
    ReadInv(sys, a.w, s);
  }

  lemma StepInv(sys: System, a: Action)
    requires Inv(sys) && Enabled(sys, a) && Careful(sys, a)
    ensures Inv(Apply(sys, a))
  {
    match a {
      case Join(w) => JoinInv(sys, w);
      case Load(_) => LoadedInv(sys, a);
      case LoadBackup(_, _) => LoadedInv(sys, a);
      case Hydrate(w, s) => HydrateInv(sys, w, s);
      case Work(w, e, known) => WorkInv(sys, w, e, known);
      case Assign(w, turn, id) => AssignInv(sys, w, turn, id);
      case Extract(w) => ExtractInv(sys, w);
      case Save(w, s) => SaveInv(sys, w, s);
      case Discard(_, _) =>
      case DeliverNote(n) => DeliverInv(sys, n);
      case Delete =>
      case Undelete(g) => UndeleteInv(sys, g);
    }
  }

  lemma {:induction false} RunInv(states: seq<System>, actions: seq<Action>, i: nat)
    requires IsRun(states, actions) && i < |states|
    ensures Inv(states[i])
    decreases i
  {
    if i == 0 {
      InitInv(states[0]);
    } else {
      RunInv(states, actions, i - 1);
      StepInv(states[i - 1], actions[i - 1]);
    }
  }

  // ---- the main results ----

  lemma StepGrows(sys: System, a: Action)
    requires Enabled(sys, a)
    ensures Apply(sys, a).era.generation >= sys.era.generation
    ensures Apply(sys, a).era.generation == sys.era.generation ==>
              sys.era.committed <= Apply(sys, a).era.committed
  {
  }

  lemma {:induction false} RunGrows(states: seq<System>, actions: seq<Action>, i: nat, j: nat)
    requires IsRun(states, actions) && i <= j < |states|
    ensures states[i].era.generation <= states[j].era.generation
    ensures states[i].era.generation == states[j].era.generation ==> states[i].era.committed <= states[j].era.committed
    decreases j
  {
    if i < j {
      RunGrows(states, actions, i, j - 1);
      StepGrows(states[j - 1], actions[j - 1]);
    }
  }

  /** Over every run, each state stored later in a generation continues each
      state stored earlier in it, and versions only go up. */
  lemma CommittedIndexesGrow(states: seq<System>, actions: seq<Action>, i: nat, j: nat)
    requires IsRun(states, actions) && i <= j < |states|
    requires states[i].stored.Live? && states[j].stored.Live?
    requires states[i].era.generation == states[j].era.generation
    ensures Continues(states[i].stored.state.index, states[j].stored.state.index)
    ensures states[i].stored.state.version <= states[j].stored.state.version
  {
    RunInv(states, actions, i);
    RunInv(states, actions, j);
    RunGrows(states, actions, i, j);
    var m := |states[i].era.committed| - 1;
    assert states[j].era.committed[m] == states[i].era.committed[m];
  }

  // ---- work not committed yet ----

  lemma StepKeepsWork(sys: System, a: Action, w: int)
    requires Inv(sys) && Enabled(sys, a) && w in sys.workers
    requires a.Hydrate? && a.w == w ==> 0 < a.s.version <= sys.workers[w].version
    ensures w in Apply(sys, a).workers && Continues(sys.workers[w].index, Apply(sys, a).workers[w].index)
  {
    var ix := sys.workers[w].index;
    assert WorkerBase(sys.era, sys.workers[w]);
    ContinuesSelf(ix);
    match a {
      case Hydrate(v, s) =>
        if v == w {
          HydrateByVersion(sys.workers[w], s);
        }
      case Work(_, e, known) => AppendContinues(ix, e, known);
      case Assign(_, turn, id) => AssignedContinues(ix, turn, id);
      case _ =>
    }
  }

  /** The engine does not hydrate here, or from a version it has or is past. */
  predicate HydratesHeld(sys: System, a: Action, w: int) {
    a.Hydrate? && a.w == w && w in sys.workers ==> 0 < a.s.version <= sys.workers[w].version
  }

  lemma RunStepKeepsWork(states: seq<System>, actions: seq<Action>, w: int, k: nat)
    requires IsRun(states, actions) && k < |actions| && w in states[k].workers && HydratesHeld(states[k], actions[k], w)
    ensures w in states[k + 1].workers && Continues(states[k].workers[w].index, states[k + 1].workers[w].index)
  {
    RunInv(states, actions, k);
    StepKeepsWork(states[k], actions[k], w);
  }

  lemma HeldInRun(states: seq<System>, actions: seq<Action>, w: int, k: nat)
    requires IsRun(states, actions) && k < |states| && w in states[k].workers
    ensures Continues(states[k].workers[w].index, states[k].workers[w].index)
  {
    RunInv(states, actions, k);
    assert WorkerBase(states[k].era, states[k].workers[w]);
    ContinuesSelf(states[k].workers[w].index);
  }

  /** Over every run, as long as an engine only hydrates from versions it has
      or is past, its index keeps growing: what it has put in and not committed
      yet stays, whatever it and the others do. */
  lemma {:induction false} HeldHydratesKeepWork(states: seq<System>, actions: seq<Action>, w: int, i: nat, j: nat)
    requires IsRun(states, actions) && i <= j < |states| && w in states[i].workers
    requires forall k :: i <= k < j ==> HydratesHeld(states[k], actions[k], w)
    ensures w in states[j].workers && Continues(states[i].workers[w].index, states[j].workers[w].index)
    decreases j
  {
    if i == j {
      HeldInRun(states, actions, w, i);
    } else {
      HeldHydratesKeepWork(states, actions, w, i, j - 1);
      RunStepKeepsWork(states, actions, w, j - 1);
      ContinuesTrans(states[i].workers[w].index, states[j - 1].workers[w].index, states[j].workers[w].index);
    }
  }

  /** An entry put in and not committed is still there after a hydrate from a
      version the engine has, and after one from another version only if that
      state holds it. */
  lemma HydrateKeepsEntryExactly(sys: System, w: int, s: SessionState, e: Entry)
    requires Enabled(sys, Hydrate(w, s)) && e in sys.workers[w].index && Windowed(s.index) && IdsDistinct(s.index)
    ensures e in Apply(sys, Hydrate(w, s)).workers[w].index <==> 0 < s.version <= sys.workers[w].version || e in s.index
  {
    HydrateByVersion(sys.workers[w], s);
  }

  /** What is stored holds only entries put in by engines of the stored
      generation: a worker from before a deletion cannot bring anything back. */
  lemma NothingResurrected(states: seq<System>, actions: seq<Action>, i: nat)
    requires IsRun(states, actions) && i < |states| && states[i].stored.Live?
    ensures states[i].stored.state.generation == states[i].era.generation
    ensures forall e :: e in states[i].stored.state.index ==> CoreOf(e) in states[i].era.authored
  {
    RunInv(states, actions, i);
    var m := |states[i].era.committed| - 1;
    assert Written(states[i].era, states[i].era.committed[m]);
  }

  // ---- exactly which hydrates lose work ----

  /** A path of enabled steps whose hydrates are harmless. */
  ghost predicate Steps(a: System, acts: seq<Action>, b: System)
    decreases |acts|
  {
    if acts == [] then a == b
    else Enabled(a, acts[0]) && Careful(a, acts[0]) && Steps(Apply(a, acts[0]), acts[1..], b)
  }

  ghost predicate Reaches(a: System, b: System) {
    exists acts :: Steps(a, acts, b)
  }

  /** `b` is stored after `a` in its generation and does not continue it. */
  ghost predicate Lost(a: System, b: System) {
    && a.stored.Live? && b.stored.Live? && a.stored.state.generation == b.stored.state.generation
    && !Continues(a.stored.state.index, b.stored.state.index)
  }

  /** Some continuation stores an index that drops what was stored before. */
  ghost predicate CanLose(sys: System) {
    exists mid, end :: Reaches(sys, mid) && Reaches(mid, end) && Lost(mid, end)
  }

  lemma {:induction false} StepsKeep(a: System, acts: seq<Action>, b: System)
    requires Inv(a) && Steps(a, acts, b)
    ensures Inv(b) && a.era.generation <= b.era.generation
    ensures a.era.generation == b.era.generation ==> a.era.committed <= b.era.committed
    decreases |acts|
  {
    if acts != [] {
      StepInv(a, acts[0]);
      StepGrows(a, acts[0]);
      StepsKeep(Apply(a, acts[0]), acts[1..], b);
    }
  }

  lemma NothingLost(mid: System, end: System)
    requires Inv(mid) && Inv(end)
    requires mid.era.generation == end.era.generation ==> mid.era.committed <= end.era.committed
    ensures !Lost(mid, end)
  {
    if mid.stored.Live? && end.stored.Live? && mid.era.generation == end.era.generation {
      assert end.era.committed[Top(mid.era)] == mid.era.committed[Top(mid.era)];
    }
  }

  lemma NeverLoses(sys: System)
    requires Inv(sys)
    ensures !CanLose(sys)
  {
    forall mid, end | Reaches(sys, mid) && Reaches(mid, end) ensures !Lost(mid, end) {
      var first :| Steps(sys, first, mid);
      StepsKeep(sys, first, mid);
      var later :| Steps(mid, later, end);
      StepsKeep(mid, later, end);
      NothingLost(mid, end);
    }
  }

  lemma ReachHere(a: System)
    ensures Reaches(a, a)
  {
    assert Steps(a, [], a);
  }

  lemma ReachNext(a: System, act: Action, b: System)
    requires Enabled(a, act) && Careful(a, act) && Reaches(Apply(a, act), b)
    ensures Reaches(a, b)
  {
    var rest :| Steps(Apply(a, act), rest, b);
    assert ([act] + rest)[1..] == rest;
    assert Steps(a, [act] + rest, b);
  }

  // ---- an engine at the stored version or above ----

  /** The engine extracts what it holds and saves it. */
  function SaveNow(sys: System, w: int): System
    requires w in sys.workers
  {
    Apply(Apply(sys, Extract(w)), Save(w, Snapshot(sys.workers[w])))
  }

  lemma ReachSaveNow(sys: System, w: int)
    requires w in sys.workers
    ensures Reaches(sys, SaveNow(sys, w))
  {
    ReachHere(SaveNow(sys, w));
    ReachNext(Apply(sys, Extract(w)), Save(w, Snapshot(sys.workers[w])), SaveNow(sys, w));
    ReachNext(sys, Extract(w), SaveNow(sys, w));
  }

  /** Its save succeeds whatever it holds. Above the stored version it can only
      be by a note from an earlier generation, which the provider's test does
      not catch. */
  lemma SaveNowOverwrites(sys: System, w: int)
    requires sys.stored.Live? && w in sys.workers
    requires sys.workers[w].generation == sys.stored.state.generation && sys.workers[w].version >= sys.stored.state.version
    ensures SaveNow(sys, w).stored
         == Live(SessionState(sys.stored.state.generation, sys.workers[w].version + 1, sys.workers[w].index))
  {
  }

  lemma SaveNowLoses(sys: System, w: int)
    requires sys.stored.Live? && w in sys.workers
    requires sys.workers[w].generation == sys.stored.state.generation && sys.workers[w].version >= sys.stored.state.version
    requires !Continues(sys.stored.state.index, sys.workers[w].index)
    ensures Lost(sys, SaveNow(sys, w)) && CanLose(sys)
  {
    SaveNowOverwrites(sys, w);
    ReachHere(sys);
    ReachSaveNow(sys, w);
  }

  lemma LosesLater(sys: System, act: Action)
    requires Enabled(sys, act) && Careful(sys, act) && CanLose(Apply(sys, act))
    ensures CanLose(sys)
  {
    var mid, end :| Reaches(Apply(sys, act), mid) && Reaches(mid, end) && Lost(mid, end);
    ReachNext(sys, act, mid);
  }

  /** A replacing hydrate at the stored version that drops an entry. */
  lemma UncoveredLoadLosesWork(sys: System, w: int, l: SessionState)
    requires sys.stored.Live? && Enabled(sys, Hydrate(w, l)) && !AlreadyHeld(sys.workers[w], l)
    requires l.generation == sys.stored.state.generation && l.version == sys.stored.state.version
    requires !Continues(sys.stored.state.index, Rebuilt(l))
    ensures CanLose(Apply(sys, Hydrate(w, l)))
  {
    SaveNowLoses(Apply(sys, Hydrate(w, l)), w);
  }

  /** Any replacing hydrate with a save of the same engine still to be noted,
      from a state that does not contain what is stored, lets the engine
      overwrite it: every step is enabled and the save is accepted. */
  lemma UncoveredNoteLosesWork(sys: System, l: SessionState, n: Note)
    requires sys.stored.Live? && Enabled(sys, Hydrate(n.worker, l)) && n in sys.notes
    requires l.generation == sys.stored.state.generation && n.version >= sys.stored.state.version
    requires !AlreadyHeld(sys.workers[n.worker], l) && !Continues(sys.stored.state.index, Rebuilt(l))
    ensures var hydrated := Apply(sys, Hydrate(n.worker, l));
            Enabled(hydrated, DeliverNote(n)) &&
            var noted := Apply(hydrated, DeliverNote(n));
            Lost(noted, SaveNow(noted, n.worker)) && CanLose(hydrated)
  {
    var hydrated := Apply(sys, Hydrate(n.worker, l));
    SaveNowLoses(Apply(hydrated, DeliverNote(n)), n.worker);
    LosesLater(hydrated, DeliverNote(n));
  }

  // ---- an own snapshot that can still be saved ----

  lemma SavedAfter(sys: System, w: int, p: SessionState)
    requires sys.stored.Live? && Enabled(sys, Save(w, p))
    requires p.generation == sys.stored.state.generation && p.version == sys.stored.state.version
    ensures var saved := Apply(sys, Save(w, p));
            && saved.stored == Live(p.(version := p.version + 1)) && saved.workers == sys.workers
            && Note(w, p.generation, p.version + 1) in saved.notes
  {
  }

  /** The same from a snapshot that is extracted but not yet saved: its save
      goes through, and the engine then overwrites it. */
  lemma UncoveredSnapshotLosesWork(sys: System, w: int, l: SessionState, p: SessionState)
    requires sys.stored.Live? && Enabled(sys, Hydrate(w, l)) && Slot(w, p) in sys.snaps
    requires p.generation == sys.stored.state.generation == l.generation
    requires p.version == sys.stored.state.version
    requires !AlreadyHeld(sys.workers[w], l) && !Continues(p.index, Rebuilt(l))
    ensures var hydrated := Apply(sys, Hydrate(w, l));
            Enabled(hydrated, Save(w, p)) &&
            var saved := Apply(hydrated, Save(w, p));
            var note := Note(w, p.generation, p.version + 1);
            && saved.stored == Live(p.(version := p.version + 1)) && Enabled(saved, DeliverNote(note))
            && Lost(saved, SaveNow(Apply(saved, DeliverNote(note)), w)) && CanLose(hydrated)
  {
    var hydrated := Apply(sys, Hydrate(w, l));
    SavedAfter(hydrated, w, p);
    var saved, note := Apply(hydrated, Save(w, p)), Note(w, p.generation, p.version + 1);
    SaveNowLoses(Apply(saved, DeliverNote(note)), w);
    LosesLater(saved, DeliverNote(note));
    LosesLater(hydrated, Save(w, p));
  }

  // ---- an own note above the stored version ----

  lemma {:induction false} FreshNumber(s: set<int>) returns (k: int)
    ensures forall x :: x in s ==> x < k
  {
    if s == {} {
      k := 0;
    } else {
      SetHasMember(s);
      var x :| x in s;
      var m := FreshNumber(s - {x});
      k := if m > x then m else x + 1;
      forall y | y in s ensures y < k {
        assert y == x || y in s - {x};
      }
    }
  }

  function Turns(es: seq<Entry>): set<int> { set e | e in es :: e.turn }

  /** Another engine starts and reads what is stored. */
  function Started(sys: System, x: int): System
    requires sys.stored.Live? && x !in sys.workers
  {
    Apply(Apply(sys, Join(x)), Load(x))
  }

  /** It hydrates from that. */
  function Restarted(sys: System, x: int): System
    requires sys.stored.Live? && x !in sys.workers
  {
    Apply(Started(sys, x), Hydrate(x, sys.stored.state))
  }

  lemma RestartedIs(sys: System, x: int)
    requires sys.stored.Live? && x !in sys.workers
    ensures Restarted(sys, x) == sys.(
              workers := sys.workers[x := Worker(sys.stored.state.generation, sys.stored.state.version, Rebuilt(sys.stored.state))],
              loads := sys.loads + {Slot(x, sys.stored.state)})
  {
    var top := sys.stored.state;
    var held := Worker(top.generation, top.version, Rebuilt(top));
    assert sys.workers[x := Worker(sys.era.generation, 0, [])][x := held] == sys.workers[x := held];
  }

  /** Nothing of an engine that is not there is in flight. */
  predicate NothingOf(sys: System, x: int) {
    && x !in sys.workers
    && (forall n :: n in sys.notes ==> n.worker != x) && forall p :: p in sys.snaps ==> p.worker != x
  }

  lemma StartedCovered(sys: System, x: int)
    requires sys.stored.Live? && NothingOf(sys, x) && Windowed(sys.stored.state.index)
    ensures Covered(Started(sys, x), x, sys.stored.state) <==> IdsDistinct(sys.stored.state.index)
    ensures !OwnNoteAbove(Started(sys, x), x)
  {
    RebuiltContinuesExactly(sys.stored.state);
  }

  lemma ReachRestarted(sys: System, x: int)
    requires sys.stored.Live? && NothingOf(sys, x)
    requires Windowed(sys.stored.state.index) && IdsDistinct(sys.stored.state.index)
    ensures Reaches(sys, Restarted(sys, x))
  {
    StartedCovered(sys, x);
    ReachHere(Restarted(sys, x));
    ReachNext(Started(sys, x), Hydrate(x, sys.stored.state), Restarted(sys, x));
    ReachNext(Apply(sys, Join(x)), Load(x), Restarted(sys, x));
    ReachNext(sys, Join(x), Restarted(sys, x));
  }

  lemma LastStays(c: seq<Entry>, b: seq<Entry>)
    requires c != [] && |b| < MAX_ENTRIES
    ensures Continues(c, b) ==> c[|c| - 1].turn in Turns(b)
  {
    if Continues(c, b) {
      ContinuesKeeps(c, b);
      var k := |c| - 1;
      assert Bare(b)[k] == Bare(c)[k];
      assert b[k] in b;
    }
  }

  lemma NewEntryStays(a: seq<Entry>, e: Entry, b: seq<Entry>)
    requires |b| < MAX_ENTRIES && e.canonicalId == "" && e.turn !in Turns(a) && e.turn !in Turns(b)
    ensures !Continues(AppendKnowing(a, e, false), b)
  {
    forall x | x in a ensures x.turn != e.turn {
      assert x.turn in Turns(a);
    }
    var c := AppendKnowing(a, e, false);
    assert c[|c| - 1] == e;
    LastStays(c, b);
  }

  /** A started engine indexes one turn and saves. */
  function Rival(sys: System, x: int, e: Entry): System
    requires sys.stored.Live? && x !in sys.workers
  {
    SaveNow(Apply(Restarted(sys, x), Work(x, e, false)), x)
  }

  lemma ReachRival(sys: System, x: int, e: Entry, end: System)
    requires sys.stored.Live? && NothingOf(sys, x)
    requires Windowed(sys.stored.state.index) && IdsDistinct(sys.stored.state.index)
    requires Lost(Rival(sys, x, e), end) && Reaches(Rival(sys, x, e), end)
    ensures CanLose(sys)
  {
    var hydrated := Restarted(sys, x);
    var worked := Apply(hydrated, Work(x, e, false));
    ReachSaveNow(worked, x);
    assert CanLose(worked);
    LosesLater(hydrated, Work(x, e, false));
    ReachRestarted(sys, x);
    LosesAfter(sys, hydrated);
  }

  lemma LosesAfter(sys: System, to: System)
    requires Reaches(sys, to) && CanLose(to)
    ensures CanLose(sys)
  {
    var acts :| Steps(sys, acts, to);
    LosesAlong(sys, acts, to);
  }

  lemma {:induction false} LosesAlong(sys: System, acts: seq<Action>, to: System)
    requires Steps(sys, acts, to) && CanLose(to)
    ensures CanLose(sys)
    decreases |acts|
  {
    if acts != [] {
      LosesAlong(Apply(sys, acts[0]), acts[1..], to);
      LosesLater(sys, acts[0]);
    }
  }

  lemma RivalStores(sys: System, x: int, e: Entry)
    requires sys.stored.Live? && x !in sys.workers
    requires Windowed(sys.stored.state.index) && IdsDistinct(sys.stored.state.index)
    ensures var top, to := sys.stored.state, Rival(sys, x, e);
            && to.stored == Live(SessionState(top.generation, top.version + 1, AppendKnowing(top.index, e, false)))
            && sys.workers.Keys <= to.workers.Keys
            && forall p :: p in sys.snaps && p.worker != x ==> p in to.snaps
  {
    RestartedIs(sys, x);
    RebuildExactly(sys.stored.state.index);
    SaveNowOverwrites(Apply(Restarted(sys, x), Work(x, e, false)), x);
  }

  /** Another engine commits, then a snapshot of a higher version is saved over
      it. */
  lemma RivalIsOverwritten(sys: System, w: int, p: SessionState)
    requires sys.stored.Live? && Windowed(sys.stored.state.index) && IdsDistinct(sys.stored.state.index)
    requires (forall n :: n in sys.notes ==> n.worker in sys.workers) && forall q :: q in sys.snaps ==> q.worker in sys.workers
    requires Slot(w, p) in sys.snaps && p.generation == sys.stored.state.generation && p.version > sys.stored.state.version
    requires |p.index| < MAX_ENTRIES
    ensures CanLose(sys)
  {
    var x := FreshNumber(sys.workers.Keys);
    var turn := FreshNumber(Turns(sys.stored.state.index) + Turns(p.index));
    var e := Entry(turn, "", "");
    RivalStores(sys, x, e);
    NewEntryStays(sys.stored.state.index, e, p.index);
    OverwrittenBy(Rival(sys, x, e), w, p);
    ReachRival(sys, x, e, Apply(Rival(sys, x, e), Save(w, p)));
  }

  lemma OverwrittenBy(rival: System, w: int, p: SessionState)
    requires rival.stored.Live? && w in rival.workers && Slot(w, p) in rival.snaps
    requires p.generation == rival.stored.state.generation && p.version >= rival.stored.state.version
    requires !Continues(rival.stored.state.index, p.index)
    ensures Lost(rival, Apply(rival, Save(w, p))) && Reaches(rival, Apply(rival, Save(w, p)))
  {
    var end := Apply(rival, Save(w, p));
    ReachHere(end);
    ReachNext(rival, Save(w, p), end);
  }

  /** A note of an earlier generation above the stored version lets the engine
      overwrite what another engine stores meanwhile. */
  lemma ForeignNoteLosesWork(sys: System, l: SessionState, n: Note)
    requires Inv(sys) && sys.stored.Live? && Enabled(sys, Hydrate(n.worker, l)) && n in sys.notes
    requires l.generation == sys.stored.state.generation && n.version > sys.stored.state.version
    requires !AlreadyHeld(sys.workers[n.worker], l) && |Rebuilt(l)| < MAX_ENTRIES && IdsDistinct(sys.stored.state.index)
    ensures CanLose(Apply(sys, Hydrate(n.worker, l)))
  {
    var w := n.worker;
    var hydrated := Apply(sys, Hydrate(w, l));
    var noted := Apply(hydrated, DeliverNote(n));
    assert Written(sys.era, sys.era.committed[Top(sys.era)]);
    RivalIsOverwritten(Apply(noted, Extract(w)), w, Snapshot(noted.workers[w]));
    LosesLater(noted, Extract(w));
    LosesLater(hydrated, DeliverNote(n));
  }

  ghost predicate OwnNoteAbove(sys: System, w: int) {
    sys.stored.Live? && exists n :: n in sys.notes && n.worker == w && n.version > sys.stored.state.version
  }

  lemma UncoveredLoses(sys: System, w: int, l: SessionState)
    requires Inv(sys) && sys.stored.Live? && Enabled(sys, Hydrate(w, l)) && !Covered(sys, w, l)
    requires OwnNoteAbove(sys, w) ==> IdsDistinct(sys.stored.state.index) && |Rebuilt(l)| < MAX_ENTRIES
    ensures CanLose(Apply(sys, Hydrate(w, l)))
  {
    var top := sys.stored.state;
    if l.version == top.version && !Continues(top.index, Rebuilt(l)) {
      UncoveredLoadLosesWork(sys, w, l);
    } else if n :| n in sys.notes && n.worker == w && n.version > top.version {
      ForeignNoteLosesWork(sys, l, n);
    } else if n :| n in sys.notes && n.worker == w && n.version == top.version && !Continues(top.index, Rebuilt(l)) {
      UncoveredNoteLosesWork(sys, l, n);
    } else {
      var p :| p in sys.snaps && p.worker == w && p.state.generation == top.generation && p.state.version == top.version
               && !Continues(p.state.index, Rebuilt(l));
      assert p == Slot(w, p.state);
      UncoveredSnapshotLosesWork(sys, w, l, p.state);
    }
  }

  /** In every reachable state a hydrate is harmless exactly when it is
      covered: otherwise some continuation stores an index that drops a commit.
      The premise concerns only an own note above the stored version, so one
      of an earlier generation: there a full index escapes the converse, since
      after eviction it may continue anything, and so does a stored index with
      repeated ids, from which no other engine can start. */
  lemma HydrateExactly(sys: System, w: int, l: SessionState)
    requires Inv(sys) && sys.stored.Live? && Enabled(sys, Hydrate(w, l))
    requires OwnNoteAbove(sys, w) ==> IdsDistinct(sys.stored.state.index) && |Rebuilt(l)| < MAX_ENTRIES
    ensures Covered(sys, w, l) <==> !CanLose(Apply(sys, Hydrate(w, l)))
  {
    if Covered(sys, w, l) {
      HydrateInv(sys, w, l);
      NeverLoses(Apply(sys, Hydrate(w, l)));
    } else {
      UncoveredLoses(sys, w, l);
    }
  }

  lemma FullIndexContinuesAll(a: seq<Entry>, b: seq<Entry>)
    requires |b| == MAX_ENTRIES
    ensures Continues(a, b)
  {
    assert (Bare(a) + Bare(b))[|a|..] == Bare(b);
    assert ExtendsBy(Bare(a), Bare(b), Bare(b));
  }

  // ---- ids assigned in place ----

  lemma StartedInv(sys: System, x: int)
    requires Inv(sys) && sys.stored.Live? && x !in sys.workers
    ensures Inv(Started(sys, x)) && NothingOf(sys, x) && Windowed(sys.stored.state.index)
  {
    JoinInv(sys, x);
    LoadedInv(Apply(sys, Join(x)), Load(x));
    assert Written(sys.era, sys.era.committed[Top(sys.era)]);
  }

  /** An engine that starts from what is stored is harmless exactly when the
      stored ids are distinct. */
  lemma RestartExactly(sys: System, x: int)
    requires Inv(sys) && sys.stored.Live? && x !in sys.workers
    ensures CanLose(Restarted(sys, x)) <==> !IdsDistinct(sys.stored.state.index)
  {
    StartedInv(sys, x);
    StartedCovered(sys, x);
    HydrateExactly(Started(sys, x), x, sys.stored.state);
  }

  /** The engine assigns an id to a turn and saves. */
  function AssignThenSave(sys: System, w: int, turn: int, id: string): System
    requires w in sys.workers
  {
    SaveNow(Apply(sys, Assign(w, turn, id)), w)
  }

  lemma SaveNowInv(sys: System, w: int)
    requires Inv(sys) && w in sys.workers
    ensures Inv(SaveNow(sys, w)) && SaveNow(sys, w).workers == sys.workers
  {
    ExtractInv(sys, w);
    SaveInv(Apply(sys, Extract(w)), w, Snapshot(sys.workers[w]));
  }

  lemma AssignThenSaveInv(sys: System, w: int, turn: int, id: string)
    requires Inv(sys) && w in sys.workers
    ensures Inv(AssignThenSave(sys, w, turn, id)) && AssignThenSave(sys, w, turn, id).workers.Keys == sys.workers.Keys
  {
    AssignInv(sys, w, turn, id);
    SaveNowInv(Apply(sys, Assign(w, turn, id)), w);
  }

  lemma AssignThenSaveStores(sys: System, w: int, turn: int, id: string)
    requires sys.stored.Live? && w in sys.workers
    requires sys.workers[w].generation == sys.stored.state.generation && sys.workers[w].version == sys.stored.state.version
    ensures AssignThenSave(sys, w, turn, id).stored
         == Live(SessionState(sys.stored.state.generation, sys.stored.state.version + 1, Assigned(sys.workers[w].index, turn, id)))
  {
    SaveNowOverwrites(Apply(sys, Assign(w, turn, id)), w);
  }

  /** Assigning an id goes round the test for duplicates: what is stored then
      is safe to start from exactly when no other entry carries the id. */
  lemma AssignExactly(sys: System, w: int, turn: int, id: string, x: int)
    requires Inv(sys) && sys.stored.Live? && w in sys.workers && x !in sys.workers
    requires sys.workers[w].generation == sys.stored.state.generation && sys.workers[w].version == sys.stored.state.version
    requires IdsDistinct(sys.workers[w].index) && HasTurn(sys.workers[w].index, turn) && id != ""
    ensures var saved := AssignThenSave(sys, w, turn, id);
            saved.stored.Live? && x !in saved.workers &&
            (CanLose(Restarted(saved, x)) <==> CarriedElsewhere(sys.workers[w].index, turn, id))
  {
    AssignThenSaveInv(sys, w, turn, id);
    AssignThenSaveStores(sys, w, turn, id);
    RestartExactly(AssignThenSave(sys, w, turn, id), x);
    assert WorkerBase(sys.era, sys.workers[w]);
    AssignedIdsExactly(sys.workers[w].index, turn, id);
  }

  /** Ids are assigned only if no other entry carries them, and the id
      dictionary misses none that an entry carries. */
  predicate KeepsIds(sys: System, a: Action) {
    match a
    case Work(w, e, known) => w in sys.workers && HasId(sys.workers[w].index, e.canonicalId) ==> known
    case Assign(w, turn, id) => w in sys.workers && id != "" ==> !CarriedElsewhere(sys.workers[w].index, turn, id)
    case _ => true
  }

  predicate AllDistinct(sys: System) {
    && (forall w :: w in sys.workers ==> Windowed(sys.workers[w].index) && IdsDistinct(sys.workers[w].index))
    && (forall p :: p in sys.snaps ==> IdsDistinct(p.state.index))
    && (forall i :: 0 <= i < |sys.era.committed| ==> IdsDistinct(sys.era.committed[i]))
    && (sys.stored.Live? ==> IdsDistinct(sys.stored.state.index))
  }

  lemma AppendKnowingKeepsIds(entries: seq<Entry>, e: Entry, known: bool)
    requires IdsDistinct(entries) && (HasId(entries, e.canonicalId) ==> known)
    ensures IdsDistinct(AppendKnowing(entries, e, known))
  {
    forall i | 0 <= i < |entries| ensures entries[i] in entries {}
  }

  lemma AssignedKeepsIds(entries: seq<Entry>, turn: int, id: string)
    requires Windowed(entries) && IdsDistinct(entries) && (id != "" ==> !CarriedElsewhere(entries, turn, id))
    ensures IdsDistinct(Assigned(entries, turn, id))
  {
    if id != "" && HasTurn(entries, turn) {
      AssignedIdsExactly(entries, turn, id);
    } else {
      assert forall i :: 0 <= i < |entries| ==> entries[i] in entries;
      assert Assigned(entries, turn, id) == entries;
    }
  }

  lemma StepKeepsDistinct(sys: System, a: Action)
    requires Enabled(sys, a) && KeepsIds(sys, a) && AllDistinct(sys)
    ensures AllDistinct(Apply(sys, a))
  {
    match a {
      case Hydrate(w, s) => RebuiltWindowed(s);
      case Work(w, e, known) =>
        AppendWindowed(sys.workers[w].index, e, known);
        AppendKnowingKeepsIds(sys.workers[w].index, e, known);
      case Assign(w, turn, id) =>
        AssignedWindowed(sys.workers[w].index, turn, id);
        AssignedKeepsIds(sys.workers[w].index, turn, id);
      case Save(w, s) => assert Slot(w, s) in sys.snaps;
      case _ =>
    }
  }

  /** Over every run that keeps ids apart, an engine can start from whatever is
      stored without losing anything. */
  lemma {:induction false} DistinctIdsKeepRestarts(states: seq<System>, actions: seq<Action>, i: nat, x: int)
    requires IsRun(states, actions) && AllDistinct(states[0]) && i < |states|
    requires forall k :: 0 <= k < |actions| ==> KeepsIds(states[k], actions[k])
    requires states[i].stored.Live? && x !in states[i].workers
    ensures !CanLose(Restarted(states[i], x))
  {
    DistinctRun(states, actions, i);
    RunInv(states, actions, i);
    RestartExactly(states[i], x);
  }

  lemma {:induction false} DistinctRun(states: seq<System>, actions: seq<Action>, i: nat)
    requires IsRun(states, actions) && AllDistinct(states[0]) && i < |states|
    requires forall k :: 0 <= k < |actions| ==> KeepsIds(states[k], actions[k])
    ensures AllDistinct(states[i])
    decreases i
  {
    if i > 0 {
      DistinctRun(states, actions, i - 1);
      StepKeepsDistinct(states[i - 1], actions[i - 1]);
    }
  }

  // ---- deletions whose undelete keeps the generation ----

  /** What an undelete stores admits exactly the engines of its generation, at
      any version. */
  lemma UndeleteAdmitsExactly(g: nat, s: SessionState)
    ensures SaveState(Live(SessionState(g, 0, [])), s) ==
            if s.generation == g then (Live(s.(version := s.version + 1)), Some(s.version + 1))
            else (Live(SessionState(g, 0, [])), None)
  {
  }

  /** What holds without any care about hydrates and generations. */
  predicate Placed(sys: System) {
    && (forall w :: w in sys.workers ==> sys.workers[w].generation <= sys.era.generation)
    && (forall l :: l in sys.loads ==> l.worker in sys.workers && l.state.generation <= sys.era.generation)
    && (forall p :: p in sys.snaps ==> p.worker in sys.workers && p.state.generation <= sys.era.generation)
    && (sys.stored.Live? ==> sys.stored.state.generation == sys.era.generation)
    && (sys.stored.Absent? ==>
          && sys.loads == {} && |sys.era.committed| == 1
          && (forall w :: w in sys.workers ==> sys.workers[w].generation == sys.era.generation)
          && forall p :: p in sys.snaps ==> p.state.generation == sys.era.generation)
  }

  /** Any step, and an undelete of a tombstone at any generation not lower
      than the last. */
  predicate LooselyEnabled(sys: System, a: Action) {
    Enabled(sys, a) || (a.Undelete? && sys.stored.Tombstone? && a.g >= sys.era.generation)
  }

  function LooselyApply(sys: System, a: Action): System
    requires LooselyEnabled(sys, a)
  {
    if Enabled(sys, a) then Apply(sys, a) else Undeleted(sys, a.g)
  }

  ghost predicate IsLooseRun(states: seq<System>, actions: seq<Action>) {
    && |states| == |actions| + 1
    && Initial(states[0])
    && forall i :: 0 <= i < |actions| ==>
         LooselyEnabled(states[i], actions[i]) && states[i + 1] == LooselyApply(states[i], actions[i])
  }

  lemma SavePlaced(sys: System, w: int, s: SessionState)
    requires Placed(sys) && Enabled(sys, Save(w, s))
    ensures Placed(Saved(sys, w, s))
  {
    assert Slot(w, s) in sys.snaps;
  }

  lemma HeldPlaced(sys: System, w: int, held: Worker)
    requires Placed(sys) && held.generation <= sys.era.generation && !sys.stored.Absent?
    ensures Placed(sys.(workers := sys.workers[w := held]))
  {
  }

  lemma HydratePlaced(sys: System, w: int, s: SessionState)
    requires Placed(sys) && Enabled(sys, Hydrate(w, s))
    ensures Placed(Apply(sys, Hydrate(w, s)))
  {
    assert Slot(w, s) in sys.loads;
    HeldPlaced(sys, w, HydrateWorker(sys.workers[w], s));
  }

  lemma StepPlaced(sys: System, a: Action)
    requires Placed(sys) && Enabled(sys, a)
    ensures Placed(Apply(sys, a))
  {
    if a.Hydrate? {
      HydratePlaced(sys, a.w, a.s);
    } else if a.Save? {
      SavePlaced(sys, a.w, a.s);
    } else {
      OtherStepPlaced(sys, a);
    }
  }

  lemma OtherStepPlaced(sys: System, a: Action)
    requires Placed(sys) && Enabled(sys, a) && !a.Hydrate? && !a.Save?
    ensures Placed(Apply(sys, a))
  {
  }

  lemma LooseStepPlaced(sys: System, a: Action)
    requires Placed(sys) && LooselyEnabled(sys, a)
    ensures Placed(LooselyApply(sys, a))
  {
    if Enabled(sys, a) {
      StepPlaced(sys, a);
    }
  }

  lemma {:induction false} LooseRunPlaced(states: seq<System>, actions: seq<Action>, i: nat)
    requires IsLooseRun(states, actions) && i < |states|
    ensures Placed(states[i])
    decreases i
  {
    if i > 0 {
      LooseRunPlaced(states, actions, i - 1);
      LooseStepPlaced(states[i - 1], actions[i - 1]);
    }
  }

  ghost predicate StepsAnyhow(a: System, acts: seq<Action>, b: System)
    decreases |acts|
  {
    if acts == [] then a == b
    else Enabled(a, acts[0]) && StepsAnyhow(Apply(a, acts[0]), acts[1..], b)
  }

  /** Something stored in generation `g` was put in by no engine since. */
  predicate BringsBack(sys: System, g: nat) {
    && sys.stored.Live? && sys.stored.state.generation == g == sys.era.generation
    && exists e :: e in sys.stored.state.index && CoreOf(e) !in sys.era.authored
  }

  ghost predicate ComesBack(sys: System, g: nat) {
    exists acts, end :: StepsAnyhow(sys, acts, end) && BringsBack(end, g)
  }

  /** An engine, an extracted snapshot or a load under way still holds entries
      of generation `g`. */
  predicate Carried(sys: System, g: nat) {
    || (exists w :: w in sys.workers && sys.workers[w].generation == g && sys.workers[w].index != [])
    || (exists p :: p in sys.snaps && p.state.generation == g && p.state.index != [])
    || (exists l :: l in sys.loads && l.state.generation == g && l.state.index != [])
  }

  predicate AllAuthored(era: Era, ix: seq<Entry>) {
    forall e :: e in ix ==> CoreOf(e) in era.authored
  }

  /** Everything of generation `g` was put in since the undelete. */
  predicate Clean(sys: System, g: nat) {
    && !sys.stored.Absent? && Placed(sys) && sys.era.generation >= g
    && (sys.era.generation == g ==>
          && (forall w :: w in sys.workers && sys.workers[w].generation == g ==> AllAuthored(sys.era, sys.workers[w].index))
          && (forall l :: l in sys.loads && l.state.generation == g ==> AllAuthored(sys.era, l.state.index))
          && (forall p :: p in sys.snaps && p.state.generation == g ==> AllAuthored(sys.era, p.state.index))
          && (forall i :: 0 <= i < |sys.era.committed| ==> AllAuthored(sys.era, sys.era.committed[i]))
          && (sys.stored.Live? ==> AllAuthored(sys.era, sys.stored.state.index)))
  }

  lemma MoreAuthored(era: Era, added: set<Core>)
    ensures forall ix :: AllAuthored(era, ix) ==> AllAuthored(Authoring(era, added), ix)
  {
  }

  lemma AppendAuthored(era: Era, ix: seq<Entry>, e: Entry, known: bool)
    requires AllAuthored(era, ix)
    ensures AllAuthored(Authoring(era, if Rejects(ix, e, known) then {} else {CoreOf(e)}), AppendKnowing(ix, e, known))
  {
  }

  lemma AssignedAuthored(era: Era, ix: seq<Entry>, turn: int, id: string)
    requires AllAuthored(era, ix)
    ensures AllAuthored(era, Assigned(ix, turn, id))
  {
    var to := Assigned(ix, turn, id);
    forall e | e in to ensures CoreOf(e) in era.authored {
      var i :| 0 <= i < |to| && to[i] == e;
      assert ix[i] in ix && CoreOf(ix[i]) == CoreOf(e);
    }
  }

  lemma ReindexedClean(sys: System, g: nat, w: int, ix: seq<Entry>, added: set<Core>)
    requires Clean(sys, g) && w in sys.workers
    requires sys.workers[w].generation == g && AllAuthored(sys.era, sys.workers[w].index) ==> AllAuthored(Authoring(sys.era, added), ix)
    ensures Clean(Reindexed(sys, w, ix, added), g)
  {
    MoreAuthored(sys.era, if sys.workers[w].generation == sys.era.generation then added else {});
  }

  lemma HydrateClean(sys: System, w: int, s: SessionState, g: nat)
    requires Clean(sys, g) && Enabled(sys, Hydrate(w, s))
    ensures Clean(Apply(sys, Hydrate(w, s)), g)
  {
    HydratePlaced(sys, w, s);
    assert Slot(w, s) in sys.loads;
    RebuiltWindowed(s);
  }

  lemma SaveClean(sys: System, w: int, s: SessionState, g: nat)
    requires Clean(sys, g) && Enabled(sys, Save(w, s))
    ensures Clean(Apply(sys, Save(w, s)), g)
  {
    SavePlaced(sys, w, s);
    assert Slot(w, s) in sys.snaps;
  }

  lemma WorkClean(sys: System, w: int, e: Entry, known: bool, g: nat)
    requires Clean(sys, g) && w in sys.workers
    ensures Clean(Worked(sys, w, e, known), g)
  {
    var ix := sys.workers[w].index;
    if AllAuthored(sys.era, ix) {
      AppendAuthored(sys.era, ix, e, known);
    }
    ReindexedClean(sys, g, w, AppendKnowing(ix, e, known), if Rejects(ix, e, known) then {} else {CoreOf(e)});
  }

  lemma AssignClean(sys: System, w: int, turn: int, id: string, g: nat)
    requires Clean(sys, g) && w in sys.workers
    ensures Clean(Apply(sys, Assign(w, turn, id)), g)
  {
    var ix := sys.workers[w].index;
    if AllAuthored(sys.era, ix) {
      AssignedAuthored(sys.era, ix, turn, id);
    }
    ReindexedClean(sys, g, w, Assigned(ix, turn, id), {});
  }

  lemma OtherStepClean(sys: System, a: Action, g: nat)
    requires Clean(sys, g) && Enabled(sys, a) && !a.Hydrate? && !a.Save? && !a.Work? && !a.Assign?
    ensures Clean(Apply(sys, a), g)
  {
    OtherStepPlaced(sys, a);
  }

  lemma StepClean(sys: System, a: Action, g: nat)
    requires Clean(sys, g) && Enabled(sys, a)
    ensures Clean(Apply(sys, a), g)
  {
    match a {
      case Hydrate(w, s) => HydrateClean(sys, w, s, g);
      case Save(w, s) => SaveClean(sys, w, s, g);
      case Work(w, e, known) => WorkClean(sys, w, e, known, g);
      case Assign(w, turn, id) => AssignClean(sys, w, turn, id, g);
      case _ => OtherStepClean(sys, a, g);
    }
  }

  lemma {:induction false} StaysClean(sys: System, acts: seq<Action>, end: System, g: nat)
    requires Clean(sys, g) && StepsAnyhow(sys, acts, end)
    ensures !BringsBack(end, g)
    decreases |acts|
  {
    if acts != [] {
      StepClean(sys, acts[0], g);
      StaysClean(Apply(sys, acts[0]), acts[1..], end, g);
    }
  }

  /** What an accepted save of generation `g` brings back. */
  lemma SaveBringsBack(sys: System, w: int, p: SessionState, g: nat)
    requires Enabled(sys, Save(w, p)) && sys.stored == Live(SessionState(g, 0, []))
    requires sys.era.generation == g == p.generation && sys.era.authored == {} && p.index != []
    ensures BringsBack(Apply(sys, Save(w, p)), g)
  {
    UndeleteAdmitsExactly(g, p);
    assert p.index[0] in p.index;
  }

  lemma EngineBringsBack(sys: System, w: int, g: nat) returns (acts: seq<Action>, end: System)
    requires sys.stored == Live(SessionState(g, 0, [])) && sys.era.generation == g && sys.era.authored == {}
    requires w in sys.workers && sys.workers[w].generation == g && sys.workers[w].index != []
    ensures StepsAnyhow(sys, acts, end) && BringsBack(end, g)
  {
    var p := Snapshot(sys.workers[w]);
    var extracted := Apply(sys, Extract(w));
    SaveBringsBack(extracted, w, p, g);
    end := Apply(extracted, Save(w, p));
    assert StepsAnyhow(extracted, [Save(w, p)], end);
    acts := [Extract(w), Save(w, p)];
    assert acts[1..] == [Save(w, p)];
  }

  /** A load under way is taken in once the engine has read the empty state,
      whose version 0 replaces any it holds. */
  lemma LoadBringsBack(sys: System, w: int, l: SessionState, g: nat) returns (acts: seq<Action>, end: System)
    requires sys.stored == Live(SessionState(g, 0, [])) && sys.era.generation == g && sys.era.authored == {}
    requires w in sys.workers && Slot(w, l) in sys.loads && l.generation == g && l.index != []
    ensures StepsAnyhow(sys, acts, end) && BringsBack(end, g)
  {
    var empty := SessionState(g, 0, []);
    var read := Apply(sys, Load(w));
    var emptied := Apply(read, Hydrate(w, empty));
    var held := Apply(emptied, Hydrate(w, l));
    RebuildMembers(Append([], l.index[0]), l.index[1..]);
    var rest;
    rest, end := EngineBringsBack(held, w, g);
    acts := [Load(w), Hydrate(w, empty), Hydrate(w, l)] + rest;
    assert acts[1..][1..][1..] == rest;
    assert StepsAnyhow(emptied, acts[1..][1..], end);
    assert StepsAnyhow(read, acts[1..], end);
  }

  lemma CarriedComesBack(sys: System, g: nat) returns (acts: seq<Action>, end: System)
    requires Placed(sys) && sys.stored.Tombstone? && Carried(sys, g)
    ensures StepsAnyhow(Undeleted(sys, g), acts, end) && BringsBack(end, g)
  {
    var to := Undeleted(sys, g);
    if w :| w in sys.workers && sys.workers[w].generation == g && sys.workers[w].index != [] {
      acts, end := EngineBringsBack(to, w, g);
    } else if p :| p in sys.snaps && p.state.generation == g && p.state.index != [] {
      assert p == Slot(p.worker, p.state);
      SaveBringsBack(to, p.worker, p.state, g);
      acts, end := [Save(p.worker, p.state)], Apply(to, Save(p.worker, p.state));
      assert StepsAnyhow(end, acts[1..], end);
    } else {
      var l :| l in sys.loads && l.state.generation == g && l.state.index != [];
      assert l == Slot(l.worker, l.state);
      acts, end := LoadBringsBack(to, l.worker, l.state, g);
    }
  }

  /** After an undelete at any generation, whatever happens next: a deleted
      entry is stored again in some continuation exactly when the generation
      was kept and something of it was still held. */
  lemma UndeleteExactly(sys: System, g: nat)
    requires Placed(sys) && sys.stored.Tombstone? && g >= sys.era.generation
    ensures ComesBack(Undeleted(sys, g), g) <==> Carried(sys, g)
    ensures g > sys.era.generation ==> !Carried(sys, g)
  {
    if Carried(sys, g) {
      var acts, end := CarriedComesBack(sys, g);
      assert StepsAnyhow(Undeleted(sys, g), acts, end) && BringsBack(end, g);
    } else {
      assert Clean(Undeleted(sys, g), g);
      forall acts, end | StepsAnyhow(Undeleted(sys, g), acts, end) ensures !BringsBack(end, g) {
        StaysClean(Undeleted(sys, g), acts, end, g);
      }
    }
  }

  // ---- the hazard is reachable ----

  function Fresh(): System {
    System(Era(0, [[]], {}), Absent, map[0 := Worker(0, 0, [])], {}, {}, {})
  }

  lemma NothingLeft(e: Entry)
    ensures !Continues([e], [])
  {
    ShorterIsNoContinuation([e], []);
  }

  /** The run up to the hazard: commit, work, extract, and read the
      unversioned durable fallback before saving. */
  function HazardActions(e: Entry): seq<Action> {
    [Extract(0), Save(0, SessionState(0, 0, [])), DeliverNote(Note(0, 0, 1)), Work(0, e, false), Extract(0), LoadBackup(0, 1)]
  }

  function HazardStates(e: Entry): seq<System> {
    var empty, kept := SessionState(0, 0, []), Slot(0, SessionState(0, 1, [e]));
    var stored := Live(SessionState(0, 1, []));
    var s1 := Fresh().(snaps := {Slot(0, empty)});
    var s2 := System(Era(0, [[], []], {}), stored, map[0 := Worker(0, 0, [])], {}, {}, {Note(0, 0, 1)});
    var s3 := s2.(workers := map[0 := Worker(0, 1, [])], notes := {});
    var s4 := s3.(workers := map[0 := Worker(0, 1, [e])], era := Era(0, [[], []], {CoreOf(e)}));
    var s5 := s4.(snaps := {kept});
    [Fresh(), s1, s2, s3, s4, s5, s5.(loads := {Slot(0, empty)})]
  }

  lemma HazardStep(e: Entry, i: nat)
    requires i < 6
    ensures var s, a := HazardStates(e), HazardActions(e);
            Enabled(s[i], a[i]) && Careful(s[i], a[i]) && s[i + 1] == Apply(s[i], a[i])
  {
    var s, a := HazardStates(e), HazardActions(e);
    var to, from := s[i + 1], Apply(s[i], a[i]);
    assert [] + [e] == [e] && AppendKnowing([], e, false) == [e];
    assert to.snaps == from.snaps && to.notes == from.notes && to.loads == from.loads && to.workers == from.workers;
    assert to.era.authored == from.era.authored && to.era.committed == from.era.committed;
  }

  /** The hazard is reachable by careful steps alone. */
  lemma HazardReachable(e: Entry)
    ensures IsRun(HazardStates(e), HazardActions(e))
    ensures var sys := HazardStates(e)[6];
            var l, p := SessionState(0, 0, []), SessionState(0, 1, [e]);
            && sys.stored == Live(SessionState(0, 1, []))
            && Enabled(sys, Hydrate(0, l)) && Slot(0, p) in sys.snaps
            && !AlreadyHeld(sys.workers[0], l) && !Continues(p.index, Rebuilt(l))
  {
    NothingLeft(e);
    forall i: nat | i < 6
      ensures var s, a := HazardStates(e), HazardActions(e);
              Enabled(s[i], a[i]) && Careful(s[i], a[i]) && s[i + 1] == Apply(s[i], a[i])
    {
      HazardStep(e, i);
    }
  }
}
