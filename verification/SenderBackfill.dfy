/** Recovering the sender column of canonical rows, and exactly when a second
    run still changes something. */
module SenderBackfill {
  import opened Seqs
  import opened Text

  datatype Row = Row(id: string, actor: string, sender: string, user: string, userRaw: string)

  /** Derivation from raw content, which may fail; the profile store, which
      may not know an actor; and lower-casing. */
  datatype Env = Env(name: string -> Option<string>, profile: string -> Option<string>, lower: string -> string)

  type Names = map<string, string>

  datatype Proposal = Nothing | FillWith(name: string) | Correct(expected: string, name: string)

  function RawName(env: Env, r: Row): Option<string> {
    match env.name(r.userRaw)
    case None => None
    case Some(name) => Some(Strip(name))
  }

  function Actor(r: Row): string { Strip(r.actor) }

  /** The display names of the actors seen in the conversation. */
  function NamesOf(env: Env, rows: seq<Row>): Names {
    NamesAmong(env, ActorsOf(rows))
  }

  predicate Profiled(env: Env, actor: string) {
    env.profile(actor).Some? && Strip(env.profile(actor).value) != ""
  }

  function NamesAmong(env: Env, actors: set<string>): Names {
    map a | a in actors && Profiled(env, a) :: Strip(env.profile(a).value)
  }

  function ActorsOf(rows: seq<Row>): set<string> {
    set r | r in rows && Actor(r) != "" :: Actor(r)
  }

  function OwnName(names: Names, r: Row): string {
    if Actor(r) in names then names[Actor(r)] else ""
  }

  /** The name contradicts the row's own actor and is another participant's. */
  predicate Smeared(env: Env, names: Names, r: Row, stored: string) {
    && Actor(r) != "" && OwnName(names, r) != "" && r.id != "" && !Blank(r.user)
    && env.lower(stored) != env.lower(OwnName(names, r))
    && exists a :: a in names && a != Actor(r) && env.lower(stored) == env.lower(names[a])
  }

  function FromProfile(names: Names, r: Row): Proposal {
    if Actor(r) != "" && OwnName(names, r) != "" && r.id != "" then FillWith(OwnName(names, r)) else Nothing
  }

  function Propose(env: Env, names: Names, r: Row): Proposal {
    var stored := Strip(r.sender);
    if stored != "" then
      if Smeared(env, names, r, stored) then Correct(stored, OwnName(names, r)) else Nothing
    else if Blank(r.user) then Nothing
    else if Blank(r.userRaw) then FromProfile(names, r)
    else
      match RawName(env, r)
      case None => Nothing
      case Some(name) =>
        if name == "" then FromProfile(names, r) else if r.id != "" then FillWith(name) else Nothing
  }

  // ---- the two guarded writes ----

  function TrimLeft(s: string): string {
    if s != "" && s[0] == ' ' then TrimLeft(s[1..]) else s
  }

  function TrimRight(s: string): string {
    if s != "" && s[|s| - 1] == ' ' then TrimRight(s[..|s| - 1]) else s
  }

  /** SQL trims spaces only. */
  function SqlTrim(s: string): string { TrimRight(TrimLeft(s)) }

  function FillSender(r: Row, name: string): Row {
    if Strip(name) != "" && SqlTrim(r.sender) == "" then r.(sender := Strip(name)) else r
  }

  function SwapSender(r: Row, expected: string, name: string): Row {
    if Strip(expected) != "" && Strip(name) != "" && SqlTrim(r.sender) == Strip(expected) then r.(sender := Strip(name)) else r
  }

  /** What a whole run does to one row. */
  function Step(env: Env, names: Names, r: Row): Row {
    match Propose(env, names, r)
    case Nothing => r
    case FillWith(name) => FillSender(r, name)
    case Correct(expected, name) => SwapSender(r, expected, name)
  }

  function Run(env: Env, rows: seq<Row>): (r: seq<Row>)
    ensures |r| == |rows|
  {
    RunFirst(env, rows, |rows|)
  }

  /** A run whose loop stopped after `n` rows. */
  function RunFirst(env: Env, rows: seq<Row>, n: nat): (r: seq<Row>)
    requires n <= |rows|
    ensures |r| == |rows|
  {
    var names := NamesOf(env, rows);
    seq(|rows|, i requires 0 <= i < |rows| => if i < n then Step(env, names, rows[i]) else rows[i])
  }

  predicate Distinct(rows: seq<Row>) {
    forall i, j :: 0 <= i < j < |rows| ==> rows[i].id != rows[j].id
  }

  // ---- the procedure ----

  type Upgrades = map<string, string>

  type Corrections = map<string, (string, string)>

  function Ids(rows: seq<Row>): (r: seq<string>)
    ensures |r| == |rows|
  {
    seq(|rows|, i requires 0 <= i < |rows| => rows[i].id)
  }

  function FillIn(p: Proposal): Option<string> {
    if p.FillWith? then Some(p.name) else None
  }

  function CorrectionIn(p: Proposal): Option<(string, string)> {
    if p.Correct? then Some((p.expected, p.name)) else None
  }

  function Proposals(env: Env, names: Names, rows: seq<Row>): (r: seq<Proposal>)
    ensures |r| == |rows|
  {
    seq(|rows|, i requires 0 <= i < |rows| => Propose(env, names, rows[i]))
  }

  function FillsIn(ps: seq<Proposal>): (r: seq<Option<string>>)
    ensures |r| == |ps|
  {
    seq(|ps|, i requires 0 <= i < |ps| => FillIn(ps[i]))
  }

  function CorrectionsIn(ps: seq<Proposal>): (r: seq<Option<(string, string)>>)
    ensures |r| == |ps|
  {
    seq(|ps|, i requires 0 <= i < |ps| => CorrectionIn(ps[i]))
  }

  /** The two dictionaries after the first `n` rows. */
  function FillsOf(rows: seq<Row>, ps: seq<Proposal>, n: nat): Upgrades
    requires n <= |rows| == |ps|
  {
    PutFirst(Ids(rows), FillsIn(ps), n)
  }

  function CorrectionsOf(rows: seq<Row>, ps: seq<Proposal>, n: nat): Corrections
    requires n <= |rows| == |ps|
  {
    PutFirst(Ids(rows), CorrectionsIn(ps), n)
  }

  function WritesOf(rows: seq<Row>, ps: seq<Proposal>, n: nat): nat
    requires n <= |rows| == |ps|
  {
    |FillsOf(rows, ps, n)| + |CorrectionsOf(rows, ps, n)|
  }

  /** A limit stops the loop at the first row before which that many writes
      were collected; without one it visits every row. */
  ghost predicate StopsAt(rows: seq<Row>, ps: seq<Proposal>, limit: Option<nat>, n: nat)
    requires n <= |rows| == |ps|
  {
    match limit
    case None => n == |rows|
    case Some(most) =>
      WritesOf(rows, ps, n) <= most && (n < |rows| ==> WritesOf(rows, ps, n) == most) && Room(rows, ps, most, n)
  }

  ghost predicate Room(rows: seq<Row>, ps: seq<Proposal>, most: nat, n: nat)
    requires n <= |rows| == |ps|
  {
    forall m: nat :: m < n ==> WritesOf(rows, ps, m) < most
  }

  lemma RoomSnoc(rows: seq<Row>, ps: seq<Proposal>, most: nat, n: nat)
    requires n < |rows| == |ps| && Room(rows, ps, most, n) && WritesOf(rows, ps, n) < most
    ensures Room(rows, ps, most, n + 1)
  {
  }

  lemma CollectedSnoc(rows: seq<Row>, ps: seq<Proposal>, n: nat)
    requires n < |rows| == |ps|
    ensures FillsOf(rows, ps, n + 1) == Put(FillsOf(rows, ps, n), rows[n].id, FillIn(ps[n]))
    ensures CorrectionsOf(rows, ps, n + 1) == Put(CorrectionsOf(rows, ps, n), rows[n].id, CorrectionIn(ps[n]))
  {
  }

  lemma NamesOneMore(env: Env, actors: set<string>, a: string)
    ensures NamesAmong(env, actors + {a}) ==
            if Profiled(env, a) then NamesAmong(env, actors)[a := Strip(env.profile(a).value)] else NamesAmong(env, actors)
  {
  }

  method GatherNames(env: Env, rows: seq<Row>) returns (names: Names)
    ensures names == NamesOf(env, rows)
  {
    var actors := ActorsOf(rows);
    var todo := actors;
    names := map[];
    while todo != {}
      invariant todo <= actors
      invariant names == NamesAmong(env, actors - todo)
    {
      var a :| a in todo;
      NamesOneMore(env, actors - todo, a);
      assert actors - (todo - {a}) == actors - todo + {a};
      todo := todo - {a};
      var profile := env.profile(a);
      if profile.Some? && Strip(profile.value) != "" {
        names := names[a := Strip(profile.value)];
      }
    }
    assert actors - {} == actors;
  }

  /** The loop body's decision for one row. */
  method ProposeFor(env: Env, names: Names, r: Row) returns (p: Proposal)
    ensures p == Propose(env, names, r)
  {
    var stored, own := Strip(r.sender), OwnName(names, r);
    if stored != "" {
      if Smeared(env, names, r, stored) {
        return Correct(stored, own);
      }
      return Nothing;
    }
    if Blank(r.user) {
      return Nothing;
    }
    if !Blank(r.userRaw) {
      var name := RawName(env, r);
      if name.None? {
        return Nothing;
      }
      if name.value != "" {
        return if r.id != "" then FillWith(name.value) else Nothing;
      }
    }
    return if Actor(r) != "" && own != "" && r.id != "" then FillWith(own) else Nothing;
  }

  method Collect(env: Env, names: Names, rows: seq<Row>, limit: Option<nat>) returns (ups: Upgrades, cors: Corrections, ghost n: nat)
    ensures n <= |rows|
    ensures var ps := Proposals(env, names, rows);
            ups == FillsOf(rows, ps, n) && cors == CorrectionsOf(rows, ps, n) && StopsAt(rows, ps, limit, n)
  {
    ghost var ps := Proposals(env, names, rows);
    ups, cors := map[], map[];
    for i := 0 to |rows|
      invariant ups == FillsOf(rows, ps, i) && cors == CorrectionsOf(rows, ps, i)
      invariant limit.Some? ==> |ups| + |cors| <= limit.value && Room(rows, ps, limit.value, i)
    {
      if limit.Some? && |ups| + |cors| >= limit.value {
        n := i;
        return;
      }
      CollectedSnoc(rows, ps, i);
      if limit.Some? {
        RoomSnoc(rows, ps, limit.value, i);
      }
      var p := ProposeFor(env, names, rows[i]);
      assert p == ps[i];
      ups, cors := OneMore(ups, cors, rows[i].id, p);
    }
    n := |rows|;
  }

  method OneMore(ups: Upgrades, cors: Corrections, id: string, p: Proposal) returns (ups': Upgrades, cors': Corrections)
    ensures ups' == Put(ups, id, FillIn(p)) && cors' == Put(cors, id, CorrectionIn(p))
    ensures |ups'| + |cors'| <= |ups| + |cors| + 1
  {
    ups', cors' := ups, cors;
    match p
    case Nothing =>
    case FillWith(name) =>
      ups' := ups[id := name];
    case Correct(expected, name) =>
      cors' := cors[id := (expected, name)];
  }

  function FillWhere(rows: seq<Row>, id: string, name: string): (r: seq<Row>)
    ensures |r| == |rows|
  {
    seq(|rows|, i requires 0 <= i < |rows| => if rows[i].id == id then FillSender(rows[i], name) else rows[i])
  }

  function SwapWhere(rows: seq<Row>, id: string, pair: (string, string)): (r: seq<Row>)
    ensures |r| == |rows|
  {
    seq(|rows|, i requires 0 <= i < |rows| => if rows[i].id == id then SwapSender(rows[i], pair.0, pair.1) else rows[i])
  }

  function Filled(rows: seq<Row>, ups: Upgrades): (r: seq<Row>)
    ensures |r| == |rows|
  {
    seq(|rows|, i requires 0 <= i < |rows| => if rows[i].id in ups then FillSender(rows[i], ups[rows[i].id]) else rows[i])
  }

  function Swapped(rows: seq<Row>, cors: Corrections): (r: seq<Row>)
    ensures |r| == |rows|
  {
    seq(|rows|, i requires 0 <= i < |rows| =>
      if rows[i].id in cors then SwapSender(rows[i], cors[rows[i].id].0, cors[rows[i].id].1) else rows[i])
  }

  class SenderTable {
    var rows: seq<Row>

    constructor (initial: seq<Row>)
      ensures rows == initial
    {
      rows := initial;
    }

    method UpdateSendersIfEmpty(ups: Upgrades)
      modifies this
      ensures rows == Filled(old(rows), ups)
    {
      var todo := ups.Keys;
      ghost var done: Upgrades := map[];
      assert rows == Filled(rows, done);
      while todo != {}
        invariant todo <= ups.Keys && done == ups - todo
        invariant rows == Filled(old(rows), done)
      {
        var k :| k in todo;
        FilledOneMore(old(rows), done, k, ups[k]);
        rows := FillWhere(rows, k, ups[k]);
        todo := todo - {k};
        done := done[k := ups[k]];
      }
      assert done == ups;
    }

    method UpdateSendersIfMatches(cors: Corrections)
      modifies this
      ensures rows == Swapped(old(rows), cors)
    {
      var todo := cors.Keys;
      ghost var done: Corrections := map[];
      assert rows == Swapped(rows, done);
      while todo != {}
        invariant todo <= cors.Keys && done == cors - todo
        invariant rows == Swapped(old(rows), done)
      {
        var k :| k in todo;
        SwappedOneMore(old(rows), done, k, cors[k]);
        rows := SwapWhere(rows, k, cors[k]);
        todo := todo - {k};
        done := done[k := cors[k]];
      }
      assert done == cors;
    }

    /** `backfill_senders` */
    method BackfillSenders(env: Env, limit: Option<nat>)
      requires Distinct(rows)
      modifies this
      ensures limit.None? ==> rows == Run(env, old(rows))
      ensures var before := old(rows);
              var ps := Proposals(env, NamesOf(env, before), before);
              exists n: nat :: n <= |before| && StopsAt(before, ps, limit, n) && rows == RunFirst(env, before, n)
    {
      var names := GatherNames(env, rows);
      var ups, cors, n := Collect(env, names, rows, limit);
      UpdateSendersIfEmpty(ups);
      UpdateSendersIfMatches(cors);
      WritesAreRun(env, old(rows), n);
      assert rows == RunFirst(env, old(rows), n);
    }
  }

  lemma FilledOneMore(rows: seq<Row>, done: Upgrades, k: string, name: string)
    requires k !in done
    ensures FillWhere(Filled(rows, done), k, name) == Filled(rows, done[k := name])
  {
  }

  lemma SwappedOneMore(rows: seq<Row>, done: Corrections, k: string, pair: (string, string))
    requires k !in done
    ensures SwapWhere(Swapped(rows, done), k, pair) == Swapped(rows, done[k := pair])
  {
  }

  lemma CollectedLookup(rows: seq<Row>, ps: seq<Proposal>, n: nat, i: nat)
    requires Distinct(rows) && n <= |rows| == |ps| && i < |rows|
    ensures AtKey(FillsOf(rows, ps, n), rows[i].id) == if i < n then FillIn(ps[i]) else None
    ensures AtKey(CorrectionsOf(rows, ps, n), rows[i].id) == if i < n then CorrectionIn(ps[i]) else None
  {
    var ids := Ids(rows);
    assert forall k :: 0 <= k < |rows| && k != i ==> ids[k] != ids[i];
    if i < n {
      PutFirstLookup(ids, FillsIn(ps), n, i);
      PutFirstLookup(ids, CorrectionsIn(ps), n, i);
    } else {
      PutFirstAbsent(ids, FillsIn(ps), n, ids[i]);
      PutFirstAbsent(ids, CorrectionsIn(ps), n, ids[i]);
    }
  }

  /** Writing one row from the two dictionaries. */
  function WriteBoth(r: Row, fill: Option<string>, cor: Option<(string, string)>): Row {
    var filled := if fill.Some? then FillSender(r, fill.value) else r;
    if cor.Some? then SwapSender(filled, cor.value.0, cor.value.1) else filled
  }

  lemma WrittenRow(rows: seq<Row>, ups: Upgrades, cors: Corrections, i: nat)
    requires i < |rows|
    ensures Swapped(Filled(rows, ups), cors)[i] == WriteBoth(rows[i], AtKey(ups, rows[i].id), AtKey(cors, rows[i].id))
  {
  }

  lemma StepWrites(env: Env, names: Names, r: Row)
    ensures var p := Propose(env, names, r); WriteBoth(r, FillIn(p), CorrectionIn(p)) == Step(env, names, r)
  {
  }

  lemma WritesAreRun(env: Env, rows: seq<Row>, n: nat)
    requires Distinct(rows) && n <= |rows|
    ensures var ps := Proposals(env, NamesOf(env, rows), rows);
            Swapped(Filled(rows, FillsOf(rows, ps, n)), CorrectionsOf(rows, ps, n)) == RunFirst(env, rows, n)
  {
    var names := NamesOf(env, rows);
    var ps := Proposals(env, names, rows);
    forall i | 0 <= i < |rows|
      ensures Swapped(Filled(rows, FillsOf(rows, ps, n)), CorrectionsOf(rows, ps, n))[i] == RunFirst(env, rows, n)[i]
    {
      WrittenRow(rows, FillsOf(rows, ps, n), CorrectionsOf(rows, ps, n), i);
      CollectedLookup(rows, ps, n, i);
      StepWrites(env, names, rows[i]);
    }
  }

  // ---- runs repeated ----

  /** The row takes its name from raw text in this run. */
  predicate FilledFromRaw(env: Env, r: Row) {
    && SqlTrim(r.sender) == "" && !Blank(r.user) && !Blank(r.userRaw) && r.id != ""
    && RawName(env, r).Some? && RawName(env, r).value != ""
  }

  /** The recovered name is then read as another member's. */
  predicate ThenCorrected(env: Env, names: Names, r: Row) {
    FilledFromRaw(env, r) && Smeared(env, names, r, RawName(env, r).value)
  }

  lemma TrimBlank(s: string)
    ensures SqlTrim(s) == "" ==> Strip(s) == ""
    ensures Strip(s) == s ==> SqlTrim(s) == s
  {
    TrimLeftBlank(s);
    TrimRightBlank(TrimLeft(s));
    StripBlank(s);
  }

  lemma {:induction false} TrimLeftBlank(s: string)
    ensures Blank(TrimLeft(s)) ==> Blank(s)
  {
    if s != "" && s[0] == ' ' {
      TrimLeftBlank(s[1..]);
      assert s == [s[0]] + s[1..];
    }
  }

  lemma {:induction false} TrimRightBlank(s: string)
    ensures TrimRight(s) == "" ==> Blank(s)
  {
    if s != "" && s[|s| - 1] == ' ' {
      TrimRightBlank(s[..|s| - 1]);
    }
  }

  predicate CleanNames(names: Names) {
    forall a :: a in names ==> names[a] != "" && Strip(names[a]) == names[a]
  }

  lemma NamesAreClean(env: Env, rows: seq<Row>)
    ensures CleanNames(NamesOf(env, rows))
  {
    forall a | a in NamesOf(env, rows) ensures Strip(NamesOf(env, rows)[a]) == NamesOf(env, rows)[a] {
      StripIdempotent(env.profile(a).value);
    }
  }

  /** A row whose sender is its own actor's name is left alone. */
  lemma OwnNameStays(env: Env, names: Names, r: Row)
    requires CleanNames(names) && Actor(r) in names && r.sender == OwnName(names, r)
    ensures Step(env, names, r) == r
  {
  }

  /** One row's second visit changes it exactly when the first one took a
      name from raw text that reads as another member's; the second visit is
      then a correction, and there is no third change. */
  lemma StepTwice(env: Env, names: Names, r: Row)
    requires CleanNames(names)
    ensures var once := Step(env, names, r);
            var twice := Step(env, names, once);
            && (twice != once <==> ThenCorrected(env, names, r))
            && (twice != once ==> Propose(env, names, once) == Correct(once.sender, OwnName(names, r)))
            && Step(env, names, twice) == twice
  {
    var once := Step(env, names, r);
    TrimBlank(r.sender);
    match Propose(env, names, r)
    case Nothing =>
    case FillWith(name) =>
      if FilledFromRaw(env, r) {
        StripIdempotent(env.name(r.userRaw).value);
        RawThenOwn(env, names, r, once);
      } else if once != r {
        OwnNameStays(env, names, once);
      }
    case Correct(expected, name) =>
      StripIdempotent(r.sender);
      if once != r {
        OwnNameStays(env, names, once);
      }
  }

  lemma RawThenOwn(env: Env, names: Names, r: Row, once: Row)
    requires CleanNames(names) && FilledFromRaw(env, r) && once == r.(sender := RawName(env, r).value)
    requires Strip(once.sender) == once.sender
    ensures var twice := Step(env, names, once);
            && (twice != once <==> ThenCorrected(env, names, r))
            && (twice != once ==> Propose(env, names, once) == Correct(once.sender, OwnName(names, r)))
            && Step(env, names, twice) == twice
  {
    TrimBlank(once.sender);
    var twice := Step(env, names, once);
    if twice != once {
      OwnNameStays(env, names, twice);
    }
  }

  lemma NamesKept(env: Env, rows: seq<Row>)
    ensures NamesOf(env, Run(env, rows)) == NamesOf(env, rows)
  {
    var after := Run(env, rows);
    forall i | 0 <= i < |rows| ensures after[i].actor == rows[i].actor {
    }
    forall a ensures a in ActorsOf(after) <==> a in ActorsOf(rows) {
      if a in ActorsOf(rows) {
        var r :| r in rows && Actor(r) != "" && Actor(r) == a;
        var i :| 0 <= i < |rows| && rows[i] == r;
        assert after[i] in after;
      }
      if a in ActorsOf(after) {
        var r :| r in after && Actor(r) != "" && Actor(r) == a;
        var i :| 0 <= i < |after| && after[i] == r;
        assert rows[i] in rows;
      }
    }
    assert ActorsOf(after) == ActorsOf(rows);
  }

  /** With the profiles fixed, a second unlimited run is a no-op exactly when
      no row was filled from raw text with another member's name. */
  lemma OneRunExactly(env: Env, rows: seq<Row>)
    ensures Run(env, Run(env, rows)) == Run(env, rows) <==>
              forall i :: 0 <= i < |rows| ==> !ThenCorrected(env, NamesOf(env, rows), rows[i])
  {
    var names, once := NamesOf(env, rows), Run(env, rows);
    var twice := Run(env, once);
    NamesAreClean(env, rows);
    NamesKept(env, rows);
    forall i | 0 <= i < |rows| ensures twice[i] != once[i] <==> ThenCorrected(env, names, rows[i]) {
      StepTwice(env, names, rows[i]);
    }
    if forall i :: 0 <= i < |rows| ==> !ThenCorrected(env, names, rows[i]) {
      assert twice == once;
    }
  }

  /** What the second run changes it changes by smear correction, on rows the
      first run filled from raw text; a third run changes nothing. */
  lemma TwoRunsSuffice(env: Env, rows: seq<Row>)
    ensures var once := Run(env, rows);
            var twice := Run(env, once);
            && Run(env, twice) == twice
            && forall i :: 0 <= i < |rows| && twice[i] != once[i] ==>
                 && FilledFromRaw(env, rows[i])
                 && Propose(env, NamesOf(env, rows), once[i]) == Correct(once[i].sender, OwnName(NamesOf(env, rows), rows[i]))
  {
    var names, once := NamesOf(env, rows), Run(env, rows);
    var twice := Run(env, once);
    NamesAreClean(env, rows);
    NamesKept(env, rows);
    NamesKept(env, once);
    forall i | 0 <= i < |rows|
      ensures Run(env, twice)[i] == twice[i]
      ensures twice[i] != once[i] ==>
                FilledFromRaw(env, rows[i]) && Propose(env, names, once[i]) == Correct(once[i].sender, OwnName(names, rows[i]))
    {
      StepTwice(env, names, rows[i]);
    }
  }

  /** No run overwrites a stored sender unless the swap's expected value is
      still there and belongs to another participant. */
  lemma OnlySmearsAreOverwritten(env: Env, rows: seq<Row>, n: nat, i: nat)
    requires n <= |rows| && i < |rows|
    ensures var r, r' := rows[i], RunFirst(env, rows, n)[i];
            && r' == r.(sender := r'.sender)
            && (SqlTrim(r.sender) != "" && r' != r ==>
                  SqlTrim(r.sender) == Strip(r.sender) && Smeared(env, NamesOf(env, rows), r, Strip(r.sender))
                  && r'.sender == OwnName(NamesOf(env, rows), r))
  {
    NamesAreClean(env, rows);
    StripIdempotent(rows[i].sender);
  }

  function AnnOrBob(actor: string): Option<string> { Some(if actor == "1" then "Ann" else "Bob") }

  function SaysBob(raw: string): Option<string> { Some("Bob") }

  function Example(): seq<Row> {
    [Row("x", "1", "", "hi", "hi"), Row("y", "2", "Bob", "yo", "yo")]
  }

  lemma ExampleActors()
    ensures ActorsOf(Example()) == {"1", "2"}
  {
    StripFixed("1");
    StripFixed("2");
    var rows := Example();
    assert rows[0] in rows && rows[1] in rows;
    assert Actor(rows[0]) == "1" && Actor(rows[1]) == "2";
  }

  lemma ExampleNames(env: Env)
    requires env.profile == AnnOrBob
    ensures NamesOf(env, Example()) == map["1" := "Ann", "2" := "Bob"]
  {
    StripFixed("Bob");
    StripFixed("Ann");
    ExampleActors();
  }

  lemma ExampleIsCorrected(env: Env, names: Names)
    requires env.name == SaysBob && env.lower("Ann") != env.lower("Bob") && names == map["1" := "Ann", "2" := "Bob"]
    ensures ThenCorrected(env, names, Example()[0])
  {
    var r := Example()[0];
    StripFixed("Bob");
    StripFixed("1");
    assert Actor(r) == "1" && RawName(env, r) == Some("Bob");
    assert !IsSpace(r.user[0]) && !IsSpace(r.userRaw[0]);
    assert "2" in names && names["2"] == "Bob";
  }

  /** The one-run claim fails: a member whose raw text names another member
      is filled with that name and corrected only by the next run. */
  lemma SecondRunCorrects(env: Env)
    requires env.profile == AnnOrBob && env.name == SaysBob && env.lower("Ann") != env.lower("Bob")
    ensures Run(env, Run(env, Example())) != Run(env, Example())
  {
    ExampleNames(env);
    ExampleIsCorrected(env, NamesOf(env, Example()));
    OneRunExactly(env, Example());
  }

  // ---- what a run writes, read off the columns ----

  predicate Spaces(s: string) { forall i :: 0 <= i < |s| ==> s[i] == ' ' }

  lemma {:induction false} TrimLeftCuts(s: string) returns (lead: string)
    ensures s == lead + TrimLeft(s) && Spaces(lead) && (TrimLeft(s) != "" ==> TrimLeft(s)[0] != ' ')
  {
    if s != "" && s[0] == ' ' {
      var rest := TrimLeftCuts(s[1..]);
      lead := [s[0]] + rest;
      Regroup([s[0]], rest, TrimLeft(s));
      assert s == [s[0]] + s[1..];
    } else {
      lead := "";
    }
  }

  lemma {:induction false} TrimRightCuts(s: string) returns (trail: string)
    ensures s == TrimRight(s) + trail && Spaces(trail) && (TrimRight(s) != "" ==> TrimRight(s)[|TrimRight(s)| - 1] != ' ')
  {
    if s != "" && s[|s| - 1] == ' ' {
      var rest := TrimRightCuts(s[..|s| - 1]);
      trail := rest + [s[|s| - 1]];
      Regroup(TrimRight(s), rest, [s[|s| - 1]]);
      assert s == s[..|s| - 1] + [s[|s| - 1]];
    } else {
      trail := "";
    }
  }

  /** SQL's trim takes the spaces off the two ends and nothing else. */
  lemma SqlTrimCuts(s: string) returns (lead: string, trail: string)
    ensures s == lead + SqlTrim(s) + trail && Spaces(lead) && Spaces(trail)
    ensures SqlTrim(s) != "" ==> SqlTrim(s)[0] != ' ' && SqlTrim(s)[|SqlTrim(s)| - 1] != ' '
  {
    lead := TrimLeftCuts(s);
    trail := TrimRightCuts(TrimLeft(s));
  }

  lemma SqlTrimEmpty(s: string)
    ensures SqlTrim(s) == "" <==> Spaces(s)
  {
    var lead, trail := SqlTrimCuts(s);
    if SqlTrim(s) != "" {
      assert s[|lead|] == SqlTrim(s)[0];
    }
  }

  /** The actor takes part in the conversation, and its profile has this
      display name. */
  ghost predicate GoesBy(env: Env, rows: seq<Row>, actor: string, name: string) {
    && actor != "" && (exists i :: 0 <= i < |rows| && Strip(rows[i].actor) == actor)
    && env.profile(actor).Some? && name == Strip(env.profile(actor).value) && name != ""
  }

  /** For a message without sender, the name its raw text gives and, when the
      raw text is blank or gives a blank one, its actor's name. */
  ghost predicate NameFor(env: Env, rows: seq<Row>, r: Row, name: string) {
    && r.id != "" && !Blank(r.user) && Blank(r.sender)
    && if !Blank(r.userRaw) && (env.name(r.userRaw).None? || !Blank(env.name(r.userRaw).value))
       then env.name(r.userRaw).Some? && name == Strip(env.name(r.userRaw).value)
       else GoesBy(env, rows, Strip(r.actor), name)
  }

  ghost predicate IsAnothers(env: Env, rows: seq<Row>, r: Row) {
    exists a, name :: a != Strip(r.actor) && GoesBy(env, rows, a, name) && env.lower(Strip(r.sender)) == env.lower(name)
  }

  /** For a message that carries another participant's name, its own actor's. */
  ghost predicate OwnNameFor(env: Env, rows: seq<Row>, r: Row, name: string) {
    && r.id != "" && !Blank(r.user) && !Blank(r.sender)
    && GoesBy(env, rows, Strip(r.actor), name) && env.lower(Strip(r.sender)) != env.lower(name)
    && IsAnothers(env, rows, r)
  }

  /** The name is written where the column holds nothing but spaces. */
  ghost predicate TakesName(env: Env, rows: seq<Row>, r: Row, name: string) {
    NameFor(env, rows, r, name) && Spaces(r.sender)
  }

  /** And where it holds the other name with at most spaces around. */
  ghost predicate GetsOwnName(env: Env, rows: seq<Row>, r: Row, name: string) {
    OwnNameFor(env, rows, r, name) && SqlTrim(r.sender) == Strip(r.sender)
  }

  lemma NamesAreProfiles(env: Env, rows: seq<Row>, actor: string, name: string)
    ensures GoesBy(env, rows, actor, name) <==> actor in NamesOf(env, rows) && NamesOf(env, rows)[actor] == name
  {
    if GoesBy(env, rows, actor, name) {
      var i :| 0 <= i < |rows| && Strip(rows[i].actor) == actor;
      assert rows[i] in rows;
    }
    if actor in NamesOf(env, rows) {
      var r :| r in rows && Actor(r) != "" && Actor(r) == actor;
      var i :| 0 <= i < |rows| && rows[i] == r;
      assert Strip(rows[i].actor) == actor;
    }
  }

  lemma SmearedIs(env: Env, rows: seq<Row>, r: Row, name: string)
    requires Strip(r.sender) != ""
    ensures OwnNameFor(env, rows, r, name) <==>
            Smeared(env, NamesOf(env, rows), r, Strip(r.sender)) && name == OwnName(NamesOf(env, rows), r)
  {
    var names := NamesOf(env, rows);
    StripBlank(r.sender);
    NamesAreClean(env, rows);
    NamesAreProfiles(env, rows, Strip(r.actor), name);
    if IsAnothers(env, rows, r) {
      var a, other :| a != Strip(r.actor) && GoesBy(env, rows, a, other) && env.lower(Strip(r.sender)) == env.lower(other);
      NamesAreProfiles(env, rows, a, other);
    }
    if Smeared(env, names, r, Strip(r.sender)) {
      var a :| a in names && a != Actor(r) && env.lower(Strip(r.sender)) == env.lower(names[a]);
      NamesAreProfiles(env, rows, a, names[a]);
    }
  }

  lemma NameForIs(env: Env, rows: seq<Row>, r: Row, name: string)
    requires Strip(r.sender) == ""
    ensures NameFor(env, rows, r, name) <==> Propose(env, NamesOf(env, rows), r) == FillWith(name)
  {
    StripBlank(r.sender);
    NamesAreClean(env, rows);
    NamesAreProfiles(env, rows, Strip(r.actor), name);
    if env.name(r.userRaw).Some? {
      StripBlank(env.name(r.userRaw).value);
    }
  }

  lemma FillIsClean(env: Env, rows: seq<Row>, r: Row)
    ensures var p := Propose(env, NamesOf(env, rows), r); p.FillWith? ==> p.name != "" && Strip(p.name) == p.name
  {
    NamesAreClean(env, rows);
    if env.name(r.userRaw).Some? {
      StripIdempotent(env.name(r.userRaw).value);
    }
  }

  /** The sender a run that stopped after `n` rows leaves, for every visited
      row; nothing else changes. */
  lemma RunWrites(env: Env, rows: seq<Row>, n: nat, i: nat, name: string)
    requires n <= |rows| && i < |rows|
    ensures var r, r' := rows[i], RunFirst(env, rows, n)[i];
            && r' == r.(sender := r'.sender)
            && (i < n && (TakesName(env, rows, r, name) || GetsOwnName(env, rows, r, name)) ==> r'.sender == name)
            && (r' != r ==> i < n && (TakesName(env, rows, r, r'.sender) || GetsOwnName(env, rows, r, r'.sender)))
  {
    var r, r' := rows[i], RunFirst(env, rows, n)[i];
    if i < n {
      StepWritesName(env, rows, r, name);
      StepWritesName(env, rows, r, r'.sender);
    }
  }

  lemma StepWritesName(env: Env, rows: seq<Row>, r: Row, name: string)
    ensures var r' := Step(env, NamesOf(env, rows), r);
            && r' == r.(sender := r'.sender)
            && (TakesName(env, rows, r, name) || GetsOwnName(env, rows, r, name) ==> r'.sender == name)
            && (r' != r && name == r'.sender ==> TakesName(env, rows, r, name) || GetsOwnName(env, rows, r, name))
  {
    SqlTrimEmpty(r.sender);
    StripBlank(r.sender);
    NamesAreClean(env, rows);
    StripIdempotent(r.sender);
    if SqlTrim(r.sender) == "" {
      TrimBlank(r.sender);
      FillIsClean(env, rows, r);
      NameForIs(env, rows, r, name);
    } else if Strip(r.sender) != "" && SqlTrim(r.sender) == Strip(r.sender) {
      SmearedIs(env, rows, r, name);
    }
  }

  /** For which rows the loop has a write to collect. */
  function Offers(ps: seq<Proposal>): (r: seq<bool>)
    ensures |r| == |ps|
  {
    seq(|ps|, i requires 0 <= i < |ps| => ps[i] != Nothing)
  }

  lemma WritesStep(rows: seq<Row>, ps: seq<Proposal>, n: nat)
    requires Distinct(rows) && n < |rows| == |ps|
    ensures WritesOf(rows, ps, n + 1) == WritesOf(rows, ps, n) + if Offers(ps)[n] then 1 else 0
  {
    var ids := Ids(rows);
    CollectedSnoc(rows, ps, n);
    PutFirstAbsent(ids, FillsIn(ps), n, rows[n].id);
    PutFirstAbsent(ids, CorrectionsIn(ps), n, rows[n].id);
    PutAbsent(FillsOf(rows, ps, n), rows[n].id, FillIn(ps[n]));
    PutAbsent(CorrectionsOf(rows, ps, n), rows[n].id, CorrectionIn(ps[n]));
  }

  lemma {:induction false} WritesAreOffers(rows: seq<Row>, ps: seq<Proposal>, n: nat)
    requires Distinct(rows) && n <= |rows| == |ps|
    ensures WritesOf(rows, ps, n) == Count(Offers(ps)[..n])
  {
    if n > 0 {
      WritesAreOffers(rows, ps, n - 1);
      WritesStep(rows, ps, n - 1);
      CountSnoc(Offers(ps), n - 1);
    }
  }

  /** A limited run visits the shortest stretch of rows with `most` proposals,
      or all of them when there are no more than that. */
  lemma StopsExactly(rows: seq<Row>, ps: seq<Proposal>, most: nat, n: nat)
    requires Distinct(rows) && n <= |rows| == |ps|
    ensures StopsAt(rows, ps, Some(most), n) <==>
            && Count(Offers(ps)[..n]) <= most && (n < |rows| ==> Count(Offers(ps)[..n]) == most)
            && forall m: nat :: m < n ==> Count(Offers(ps)[..m]) < most
  {
    forall m: nat | m <= n ensures WritesOf(rows, ps, m) == Count(Offers(ps)[..m]) {
      WritesAreOffers(rows, ps, m);
    }
  }

  /** The rows with a proposal, whether the column admits it or not. */
  lemma ProposedFor(env: Env, rows: seq<Row>, r: Row)
    ensures Propose(env, NamesOf(env, rows), r) != Nothing <==>
            exists name :: NameFor(env, rows, r, name) || OwnNameFor(env, rows, r, name)
  {
    var p := Propose(env, NamesOf(env, rows), r);
    StripBlank(r.sender);
    if p.FillWith? {
      NameForIs(env, rows, r, p.name);
    }
    if p.Correct? {
      SmearedIs(env, rows, r, p.name);
    }
    if name :| NameFor(env, rows, r, name) || OwnNameFor(env, rows, r, name) {
      if Strip(r.sender) == "" {
        NameForIs(env, rows, r, name);
      } else {
        SmearedIs(env, rows, r, name);
      }
    }
  }
}
