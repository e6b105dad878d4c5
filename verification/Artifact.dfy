/** The canonical repair artifact and the loader that accepts or refuses it. */
module Artifact {
  import opened Seqs
  import opened Text

  datatype CanonicalRow = CanonicalRow(
    id: string,
    conversation: string,
    group: int,
    sortKey: int,
    hash: string,
    normalizedUser: string,
    normalizedAssistant: string,
    user: string,
    assistant: string,
    sender: string,
    sourceMessage: string,
    channel: string,
    audience: string)

  datatype Membership = Membership(
    scope: string,
    platform: string,
    account: string,
    message: string,
    canonicalId: string,
    assistantId: string,
    assistantHash: string,
    group: int,
    pairVersion: int,
    audience: string,
    channel: string,
    guild: string,
    sourceActor: string,
    bodySha: string,
    canonicalHash: string)

  datatype GroupMapping = GroupMapping(oldGroup: int, target: Option<int>, classification: string)

  /** The identity the repair is for, and the two digests, which stay
      abstract: the turn hash of a row with its normalized texts, and the
      body checksum. */
  datatype Identity = Identity(
    owner: string,
    scope: string,
    platform: string,
    account: string,
    guild: string,
    turnHash: (string, string) -> (string, string, string),
    sha: string -> string)

  const ACTOR_PREFIX := "actor:discord:"

  const QUARANTINED := "quarantined_"

  // ---- what the loader demands ----

  predicate IsUser(r: CanonicalRow) { r.user != "" }

  predicate IsAssistant(r: CanonicalRow) { r.assistant != "" }

  predicate RowOk(w: Identity, r: CanonicalRow) {
    && r.conversation == w.owner
    && w.turnHash(r.user, r.assistant) == (r.hash, r.normalizedUser, r.normalizedAssistant)
    && (IsUser(r) ==> r.sourceMessage != "" && ACTOR_PREFIX <= r.sender)
    && (!IsUser(r) ==> IsAssistant(r))
  }

  /** Ids and sort keys are unique, and so are the source messages of user
      rows. */
  predicate RowsApart(a: CanonicalRow, b: CanonicalRow) {
    && a.id != b.id && a.sortKey != b.sortKey
    && (IsUser(a) && IsUser(b) ==> a.sourceMessage != b.sourceMessage)
  }

  predicate RowsOk(w: Identity, rows: seq<CanonicalRow>) {
    && (forall i :: 0 <= i < |rows| ==> RowOk(w, rows[i]))
    && (forall i, j :: 0 <= i < j < |rows| ==> RowsApart(rows[i], rows[j]))
  }

  function GroupNumbers(rows: seq<CanonicalRow>): set<int> {
    set r | r in rows :: r.group
  }

  /** The rows of one group, in order. */
  function Members(rows: seq<CanonicalRow>, g: int): seq<CanonicalRow> {
    if rows == [] then []
    else Members(rows[..|rows| - 1], g) + if rows[|rows| - 1].group == g then [rows[|rows| - 1]] else []
  }

  /** Two rows, one with user content and one with assistant content. */
  predicate PairedGroup(m: seq<CanonicalRow>) {
    && |m| == 2
    && (if IsUser(m[0]) then 1 else 0) + (if IsUser(m[1]) then 1 else 0) == 1
    && (if IsAssistant(m[0]) then 1 else 0) + (if IsAssistant(m[1]) then 1 else 0) == 1
  }

  predicate GroupsOk(rows: seq<CanonicalRow>) {
    forall g :: g in GroupNumbers(rows) ==> PairedGroup(Members(rows, g))
  }

  /** The membership describes the user row `u` and the assistant row `a`. */
  predicate Fences(w: Identity, s: Membership, u: CanonicalRow, a: CanonicalRow) {
    && IsUser(u) && s.canonicalId == u.id && s.assistantId == a.id && a.id != u.id
    && a.conversation == w.owner && Blank(a.user) && !Blank(a.assistant) && a.group == u.group
    && s.group == -1 && s.pairVersion == 1
    && s.assistantHash == a.hash
    && s.scope == w.scope && s.platform == w.platform && s.account == w.account && s.guild == w.guild
    && s.message == u.sourceMessage && s.sourceActor == u.sender && s.channel == u.channel && s.audience == u.audience
    && s.canonicalHash == u.hash && s.bodySha == w.sha(u.user)
  }

  predicate Fenced(w: Identity, rows: seq<CanonicalRow>, s: Membership) {
    exists i, j :: 0 <= i < |rows| && 0 <= j < |rows| && Fences(w, s, rows[i], rows[j])
  }

  predicate SourcesApart(a: Membership, b: Membership) {
    && a.canonicalId != b.canonicalId
    && (a.scope, a.platform, a.account, a.message) != (b.scope, b.platform, b.account, b.message)
  }

  function UserIds(rows: seq<CanonicalRow>): set<string> {
    set r | r in rows && IsUser(r) :: r.id
  }

  function SourceIds(sources: seq<Membership>): set<string> {
    set s | s in sources :: s.canonicalId
  }

  predicate SourcesOk(w: Identity, rows: seq<CanonicalRow>, sources: seq<Membership>) {
    && (forall i :: 0 <= i < |sources| ==> Fenced(w, rows, sources[i]))
    && (forall i, j :: 0 <= i < j < |sources| ==> SourcesApart(sources[i], sources[j]))
    && SourceIds(sources) == UserIds(rows)
  }

  predicate MappingOk(rows: seq<CanonicalRow>, m: GroupMapping) {
    && (m.target.Some? ==> m.target.value in GroupNumbers(rows))
    && (m.target.None? <==> QUARANTINED <= m.classification)
  }

  predicate MappingsOk(rows: seq<CanonicalRow>, maps: seq<GroupMapping>) {
    && (forall i :: 0 <= i < |maps| ==> MappingOk(rows, maps[i]))
    && (forall i, j :: 0 <= i < j < |maps| ==> maps[i].oldGroup != maps[j].oldGroup)
  }

  predicate ArtifactOk(w: Identity, rows: seq<CanonicalRow>, sources: seq<Membership>, maps: seq<GroupMapping>) {
    RowsOk(w, rows) && GroupsOk(rows) && SourcesOk(w, rows, sources) && MappingsOk(rows, maps)
  }

  // ---- the loader ----

  /** The dictionaries the row loop fills. */
  datatype Known = Known(
    ids: set<string>,
    sourceIds: set<string>,
    sortKeys: set<int>,
    users: map<string, CanonicalRow>,
    byId: map<string, CanonicalRow>,
    groups: map<int, seq<CanonicalRow>>)

  ghost predicate Knows(k: Known, rows: seq<CanonicalRow>) {
    KnowsSets(k, rows) && KnowsRows(k, rows) && KnowsGroups(k, rows)
  }

  method LoadRow(w: Identity, k: Known, ghost done: seq<CanonicalRow>, r: CanonicalRow) returns (k': Option<Known>)
    requires Knows(k, done) && RowsOk(w, done)
    ensures k'.Some? <==> RowsOk(w, done + [r])
    ensures k'.Some? ==> Knows(k'.value, done + [r])
  {
    RowsOkSnoc(w, done, r);
    if r.id in k.ids {
      return None;
    }
    if r.conversation != w.owner {
      return None;
    }
    if r.sortKey in k.sortKeys {
      return None;
    }
    if w.turnHash(r.user, r.assistant) != (r.hash, r.normalizedUser, r.normalizedAssistant) {
      return None;
    }
    if r.user != "" {
      if r.sourceMessage == "" || r.sourceMessage in k.sourceIds || !(ACTOR_PREFIX <= r.sender) {
        return None;
      }
    } else if r.assistant == "" {
      return None;
    }
    SetsSnoc(k, done, r);
    RowsSnoc(k, done, r);
    GroupsSnoc(k, done, r);
    return Some(Learn(k, r));
  }

  function Learn(k: Known, r: CanonicalRow): Known {
    Known(k.ids + {r.id},
          if IsUser(r) then k.sourceIds + {r.sourceMessage} else k.sourceIds,
          k.sortKeys + {r.sortKey},
          if IsUser(r) then k.users[r.id := r] else k.users,
          k.byId[r.id := r],
          k.groups[r.group := (if r.group in k.groups then k.groups[r.group] else []) + [r]])
  }

  ghost predicate KnowsSets(k: Known, rows: seq<CanonicalRow>) {
    && k.ids == (set r | r in rows :: r.id)
    && k.sourceIds == (set r | r in rows && IsUser(r) :: r.sourceMessage)
    && k.sortKeys == (set r | r in rows :: r.sortKey)
  }

  ghost predicate KnowsRows(k: Known, rows: seq<CanonicalRow>) {
    && k.users.Keys == UserIds(rows)
    && (forall r :: r in rows ==> r.id in k.byId && k.byId[r.id] == r && (IsUser(r) ==> k.users[r.id] == r))
    && (forall i :: i in k.byId ==> k.byId[i] in rows && k.byId[i].id == i)
    && (forall i :: i in k.users ==> k.users[i] in rows && IsUser(k.users[i]) && k.users[i].id == i)
  }

  ghost predicate KnowsGroups(k: Known, rows: seq<CanonicalRow>) {
    && k.groups.Keys == GroupNumbers(rows)
    && (forall g :: g in k.groups ==> k.groups[g] == Members(rows, g))
  }

  lemma SetsSnoc(k: Known, done: seq<CanonicalRow>, r: CanonicalRow)
    requires KnowsSets(k, done)
    ensures KnowsSets(Learn(k, r), done + [r])
  {
    var k', rows := Learn(k, r), done + [r];
    assert k'.ids == (set x | x in rows :: x.id);
    assert k'.sortKeys == (set x | x in rows :: x.sortKey);
    assert k'.sourceIds == (set x | x in rows && IsUser(x) :: x.sourceMessage);
  }

  lemma RowsSnoc(k: Known, done: seq<CanonicalRow>, r: CanonicalRow)
    requires KnowsRows(k, done) && forall x :: x in done ==> x.id != r.id
    ensures KnowsRows(Learn(k, r), done + [r])
  {
    var k', rows := Learn(k, r), done + [r];
    assert forall x :: x in rows <==> x in done || x == r;
    assert k'.users.Keys == UserIds(rows);
  }

  lemma GroupsSnoc(k: Known, done: seq<CanonicalRow>, r: CanonicalRow)
    requires KnowsGroups(k, done)
    ensures KnowsGroups(Learn(k, r), done + [r])
  {
    var k', rows := Learn(k, r), done + [r];
    assert k'.groups.Keys == GroupNumbers(rows);
    assert rows[..|done|] == done;
    forall g | g in k'.groups ensures k'.groups[g] == Members(rows, g) {
      if g !in k.groups {
        NoMembers(done, g);
      }
    }
  }

  lemma {:induction false} NoMembers(rows: seq<CanonicalRow>, g: int)
    requires g !in GroupNumbers(rows)
    ensures Members(rows, g) == []
    decreases |rows|
  {
    if rows != [] {
      var front, r := rows[..|rows| - 1], rows[|rows| - 1];
      assert r in rows && r.group in GroupNumbers(rows);
      assert forall x :: x in front ==> x in rows;
      NoMembers(front, g);
    }
  }

  lemma RowsOkSnoc(w: Identity, done: seq<CanonicalRow>, r: CanonicalRow)
    requires RowsOk(w, done)
    ensures RowsOk(w, done + [r]) <==> RowOk(w, r) && forall x :: x in done ==> RowsApart(x, r)
  {
    var rows := done + [r];
    if RowsOk(w, rows) {
      assert rows[|done|] == r;
      forall x | x in done ensures RowsApart(x, r) {
        var i :| 0 <= i < |done| && done[i] == x;
        assert RowsApart(rows[i], rows[|done|]);
      }
    }
    if RowOk(w, r) && forall x :: x in done ==> RowsApart(x, r) {
      forall i, j | 0 <= i < j < |rows| ensures RowsApart(rows[i], rows[j]) {
        assert i < |done| ==> done[i] in done;
      }
    }
  }

  method LoadRows(w: Identity, rows: seq<CanonicalRow>) returns (k: Option<Known>)
    ensures k.Some? <==> RowsOk(w, rows)
    ensures k.Some? ==> Knows(k.value, rows)
  {
    var known := Known({}, {}, {}, map[], map[], map[]);
    for i := 0 to |rows|
      invariant Knows(known, rows[..i]) && RowsOk(w, rows[..i])
    {
      assert rows[..i + 1] == rows[..i] + [rows[i]];
      var next := LoadRow(w, known, rows[..i], rows[i]);
      if next.None? {
        RowsOkPrefix(w, rows, i + 1);
        return None;
      }
      known := next.value;
    }
    assert rows[..|rows|] == rows;
    return Some(known);
  }

  lemma RowsOkPrefix(w: Identity, rows: seq<CanonicalRow>, n: nat)
    requires n <= |rows|
    ensures RowsOk(w, rows) ==> RowsOk(w, rows[..n])
  {
  }

  /** The membership check, by lookup of both ids. */
  method CheckSource(w: Identity, rows: seq<CanonicalRow>, k: Known, s: Membership) returns (ok: bool)
    requires Knows(k, rows)
    ensures ok <==> Fenced(w, rows, s)
  {
    ok := false;
    if s.canonicalId in k.users && s.assistantId in k.byId {
      ok := Fences(w, s, k.users[s.canonicalId], k.byId[s.assistantId]);
    }
    LookupFences(w, rows, k, s);
  }

  lemma LookupFences(w: Identity, rows: seq<CanonicalRow>, k: Known, s: Membership)
    requires Knows(k, rows)
    ensures Fenced(w, rows, s) <==>
              s.canonicalId in k.users && s.assistantId in k.byId && Fences(w, s, k.users[s.canonicalId], k.byId[s.assistantId])
  {
    if i, j :| 0 <= i < |rows| && 0 <= j < |rows| && Fences(w, s, rows[i], rows[j]) {
      assert rows[i] in rows && rows[j] in rows;
    }
    if s.canonicalId in k.users && s.assistantId in k.byId && Fences(w, s, k.users[s.canonicalId], k.byId[s.assistantId]) {
      var u, a := k.users[s.canonicalId], k.byId[s.assistantId];
      var i :| 0 <= i < |rows| && rows[i] == u;
      var j :| 0 <= j < |rows| && rows[j] == a;
      assert Fences(w, s, rows[i], rows[j]);
    }
  }

  function KeyOf(s: Membership): (string, string, string, string) {
    (s.scope, s.platform, s.account, s.message)
  }

  ghost predicate SourcesSoFar(w: Identity, rows: seq<CanonicalRow>, ss: seq<Membership>) {
    && (forall i :: 0 <= i < |ss| ==> Fenced(w, rows, ss[i]))
    && (forall i, j :: 0 <= i < j < |ss| ==> SourcesApart(ss[i], ss[j]))
  }

  function SourceKeys(ss: seq<Membership>): set<(string, string, string, string)> {
    set s | s in ss :: KeyOf(s)
  }

  lemma SourcesSnoc(w: Identity, rows: seq<CanonicalRow>, ss: seq<Membership>, s: Membership)
    ensures SourcesSoFar(w, rows, ss + [s]) <==>
              SourcesSoFar(w, rows, ss) && Fenced(w, rows, s) && KeyOf(s) !in SourceKeys(ss) && s.canonicalId !in SourceIds(ss)
    ensures SourceKeys(ss + [s]) == SourceKeys(ss) + {KeyOf(s)}
    ensures SourceIds(ss + [s]) == SourceIds(ss) + {s.canonicalId}
  {
    var all := ss + [s];
    assert all[|ss|] == s && forall i :: 0 <= i < |ss| ==> all[i] == ss[i];
    if SourcesSoFar(w, rows, all) {
      forall x | x in ss ensures SourcesApart(x, s) {
        var i :| 0 <= i < |ss| && ss[i] == x;
        assert SourcesApart(all[i], all[|ss|]);
      }
      forall i, j | 0 <= i < j < |ss| ensures SourcesApart(ss[i], ss[j]) {
        assert SourcesApart(all[i], all[j]);
      }
      forall i | 0 <= i < |ss| ensures Fenced(w, rows, ss[i]) {
        assert Fenced(w, rows, all[i]);
      }
      assert Fenced(w, rows, all[|ss|]);
    }
    if SourcesSoFar(w, rows, ss) && Fenced(w, rows, s) && KeyOf(s) !in SourceKeys(ss) && s.canonicalId !in SourceIds(ss) {
      forall i | 0 <= i < |ss| ensures SourcesApart(ss[i], s) {
        assert ss[i] in ss;
      }
    }
  }

  lemma SourcesPrefix(w: Identity, rows: seq<CanonicalRow>, ss: seq<Membership>, n: nat)
    requires n <= |ss|
    ensures SourcesSoFar(w, rows, ss) ==> SourcesSoFar(w, rows, ss[..n])
  {
  }

  lemma SourcesStep(w: Identity, rows: seq<CanonicalRow>, ss: seq<Membership>, i: nat, good: bool)
    requires i < |ss| && SourcesSoFar(w, rows, ss[..i])
    requires good <==> Fenced(w, rows, ss[i]) && KeyOf(ss[i]) !in SourceKeys(ss[..i]) && ss[i].canonicalId !in SourceIds(ss[..i])
    ensures good ==> SourcesSoFar(w, rows, ss[..i + 1])
    ensures !good ==> !SourcesSoFar(w, rows, ss)
    ensures SourceKeys(ss[..i + 1]) == SourceKeys(ss[..i]) + {KeyOf(ss[i])}
    ensures SourceIds(ss[..i + 1]) == SourceIds(ss[..i]) + {ss[i].canonicalId}
  {
    assert ss[..i + 1] == ss[..i] + [ss[i]];
    SourcesSnoc(w, rows, ss[..i], ss[i]);
    SourcesPrefix(w, rows, ss, i + 1);
  }

  method CheckSources(w: Identity, rows: seq<CanonicalRow>, k: Known, sources: seq<Membership>) returns (ok: bool)
    requires Knows(k, rows)
    ensures ok <==> SourcesOk(w, rows, sources)
  {
    var keys: set<(string, string, string, string)> := {};
    var ids: set<string> := {};
    for i := 0 to |sources|
      invariant SourcesSoFar(w, rows, sources[..i])
      invariant keys == SourceKeys(sources[..i]) && ids == SourceIds(sources[..i])
    {
      var s := sources[i];
      var fenced := CheckSource(w, rows, k, s);
      var good := KeyOf(s) !in keys && s.canonicalId !in ids && fenced;
      SourcesStep(w, rows, sources, i, good);
      if !good {
        return false;
      }
      keys := keys + {KeyOf(s)};
      ids := ids + {s.canonicalId};
    }
    assert sources[..|sources|] == sources;
    ok := ids == k.users.Keys;
  }

  ghost predicate TableOf(t: map<int, Option<int>>, ms: seq<GroupMapping>) {
    && t.Keys == (set m | m in ms :: m.oldGroup)
    && forall m :: m in ms ==> m.oldGroup in t && t[m.oldGroup] == m.target
  }

  lemma MappingsSnoc(rows: seq<CanonicalRow>, ms: seq<GroupMapping>, m: GroupMapping, t: map<int, Option<int>>)
    requires MappingsOk(rows, ms) && TableOf(t, ms)
    ensures MappingsOk(rows, ms + [m]) <==> MappingOk(rows, m) && m.oldGroup !in t
    ensures m.oldGroup !in t ==> TableOf(t[m.oldGroup := m.target], ms + [m])
  {
    var all := ms + [m];
    assert all[|ms|] == m;
    assert forall x :: x in all <==> x in ms || x == m;
    if m.oldGroup in t {
      var x :| x in ms && x.oldGroup == m.oldGroup;
      var h :| 0 <= h < |ms| && ms[h] == x;
      assert all[h].oldGroup == all[|ms|].oldGroup;
    } else {
      forall i | 0 <= i < |ms| ensures ms[i].oldGroup != m.oldGroup {
        assert ms[i] in ms;
      }
      assert t[m.oldGroup := m.target].Keys == (set x | x in all :: x.oldGroup);
    }
  }

  lemma MappingsPrefix(rows: seq<CanonicalRow>, ms: seq<GroupMapping>, n: nat)
    requires n <= |ms|
    ensures MappingsOk(rows, ms) ==> MappingsOk(rows, ms[..n])
  {
  }

  method CheckMappings(rows: seq<CanonicalRow>, k: Known, maps: seq<GroupMapping>) returns (r: Option<map<int, Option<int>>>)
    requires Knows(k, rows)
    ensures r.Some? <==> MappingsOk(rows, maps)
    ensures r.Some? ==> TableOf(r.value, maps)
  {
    var table: map<int, Option<int>> := map[];
    for i := 0 to |maps|
      invariant MappingsOk(rows, maps[..i]) && TableOf(table, maps[..i])
    {
      var m := maps[i];
      assert maps[..i + 1] == maps[..i] + [m];
      MappingsSnoc(rows, maps[..i], m, table);
      MappingsPrefix(rows, maps, i + 1);
      if m.oldGroup in table
         || (m.target.Some? && m.target.value !in k.groups)
         || (m.target.None? != (QUARANTINED <= m.classification)) {
        return None;
      }
      table := table[m.oldGroup := m.target];
    }
    assert maps[..|maps|] == maps;
    return Some(table);
  }

  /** The structural checks of `_load_artifact`: it accepts exactly the
      artifacts that satisfy the declarative reading. */
  method LoadArtifact(w: Identity, rows: seq<CanonicalRow>, sources: seq<Membership>, maps: seq<GroupMapping>)
    returns (r: Option<map<int, Option<int>>>)
    ensures r.Some? <==> ArtifactOk(w, rows, sources, maps)
    ensures r.Some? ==> TableOf(r.value, maps)
  {
    var k := LoadRows(w, rows);
    if k.None? {
      return None;
    }
    var known := k.value;
    if exists g :: g in known.groups && !PairedGroup(known.groups[g]) {
      return None;
    }
    var sourcesOk := CheckSources(w, rows, known, sources);
    if !sourcesOk {
      return None;
    }
    r := CheckMappings(rows, known, maps);
  }

  // ---- what an accepted artifact is ----

  lemma {:induction false} MembersAre(rows: seq<CanonicalRow>, g: int)
    ensures forall r :: r in Members(rows, g) <==> r in rows && r.group == g
    decreases |rows|
  {
    if rows != [] {
      var front := rows[..|rows| - 1];
      MembersAre(front, g);
      assert rows == front + [rows[|rows| - 1]];
    }
  }

  /** In an accepted artifact no row has both contents, and every group has
      exactly one user row and one assistant row. */
  lemma GroupIsPair(w: Identity, rows: seq<CanonicalRow>, g: int) returns (u: CanonicalRow, a: CanonicalRow)
    requires RowsOk(w, rows) && GroupsOk(rows) && g in GroupNumbers(rows)
    ensures u in rows && a in rows && u != a && u.group == a.group == g
    ensures IsUser(u) && !IsAssistant(u) && IsAssistant(a) && !IsUser(a)
    ensures forall r :: r in rows && r.group == g ==> r == u || r == a
  {
    var m := Members(rows, g);
    MembersAre(rows, g);
    assert PairedGroup(m);
    assert m[0] in m && m[1] in m;
    RowInOk(w, rows, m[0]);
    RowInOk(w, rows, m[1]);
    u, a := if IsUser(m[0]) then m[0] else m[1], if IsUser(m[0]) then m[1] else m[0];
  }

  lemma RowInOk(w: Identity, rows: seq<CanonicalRow>, r: CanonicalRow)
    requires RowsOk(w, rows) && r in rows
    ensures IsUser(r) || IsAssistant(r)
  {
    var i :| 0 <= i < |rows| && rows[i] == r;
    assert RowOk(w, rows[i]);
  }

  lemma SameRow(w: Identity, rows: seq<CanonicalRow>, i: nat, j: nat)
    requires RowsOk(w, rows) && i < |rows| && j < |rows|
    ensures i == j || rows[i].id != rows[j].id
  {
    assert i < j ==> RowsApart(rows[i], rows[j]);
    assert j < i ==> RowsApart(rows[j], rows[i]);
  }

  lemma IdsDecide(w: Identity, rows: seq<CanonicalRow>, a: CanonicalRow, b: CanonicalRow)
    requires RowsOk(w, rows) && a in rows && b in rows
    ensures a.id == b.id ==> a == b
  {
    var i :| 0 <= i < |rows| && rows[i] == a;
    var j :| 0 <= j < |rows| && rows[j] == b;
    SameRow(w, rows, i, j);
  }

  /** A membership names the one user row of a group, and its assistant is the
      one other row of that group. */
  lemma SourceNamesItsPair(w: Identity, rows: seq<CanonicalRow>, sources: seq<Membership>, maps: seq<GroupMapping>, s: Membership)
    returns (u: CanonicalRow, a: CanonicalRow)
    requires ArtifactOk(w, rows, sources, maps) && s in sources
    ensures u in rows && a in rows && Fences(w, s, u, a)
    ensures IsUser(u) && !IsAssistant(u) && IsAssistant(a) && !IsUser(a)
    ensures forall r :: r in rows && r.group == u.group ==> r == u || r == a
  {
    u, a := FencedPair(w, rows, sources, s);
    var gu, ga := GroupIsPair(w, rows, u.group);
    assert u == gu && a == ga;
  }

  lemma FencedPair(w: Identity, rows: seq<CanonicalRow>, sources: seq<Membership>, s: Membership)
    returns (u: CanonicalRow, a: CanonicalRow)
    requires SourcesOk(w, rows, sources) && s in sources
    ensures u in rows && a in rows && Fences(w, s, u, a) && u.group in GroupNumbers(rows)
  {
    var k :| 0 <= k < |sources| && sources[k] == s;
    assert Fenced(w, rows, sources[k]);
    var i, j :| 0 <= i < |rows| && 0 <= j < |rows| && Fences(w, s, rows[i], rows[j]);
    u, a := rows[i], rows[j];
  }

  /** Groups, user rows, assistant rows and memberships correspond one to one:
      each group has exactly one membership, and it fences the group's rows. */
  lemma GroupHasOneSource(w: Identity, rows: seq<CanonicalRow>, sources: seq<Membership>, maps: seq<GroupMapping>, g: int)
    returns (s: Membership, u: CanonicalRow, a: CanonicalRow)
    requires ArtifactOk(w, rows, sources, maps) && g in GroupNumbers(rows)
    ensures s in sources && u in rows && a in rows && u.group == a.group == g && Fences(w, s, u, a)
    ensures forall x :: x in sources && (exists r :: r in rows && r.id == x.canonicalId && r.group == g) ==> x == s
  {
    var gu, ga := GroupIsPair(w, rows, g);
    assert gu.id in UserIds(rows);
    s :| s in sources && s.canonicalId == gu.id;
    u, a := SourceNamesItsPair(w, rows, sources, maps, s);
    IdsDecide(w, rows, u, gu);
    forall x | x in sources && exists r :: r in rows && r.id == x.canonicalId && r.group == g ensures x == s {
      var r :| r in rows && r.id == x.canonicalId && r.group == g;
      var xu, xa := SourceNamesItsPair(w, rows, sources, maps, x);
      IdsDecide(w, rows, xu, r);
      assert xu == gu;
      SourceIdsDecide(sources, x, s);
    }
  }

  lemma SourceIdsDecide(sources: seq<Membership>, x: Membership, y: Membership)
    requires forall i, j :: 0 <= i < j < |sources| ==> SourcesApart(sources[i], sources[j])
    requires x in sources && y in sources && x.canonicalId == y.canonicalId
    ensures x == y
  {
    var i :| 0 <= i < |sources| && sources[i] == x;
    var j :| 0 <= j < |sources| && sources[j] == y;
    SameSource(sources, i, j);
  }

  lemma SameSource(sources: seq<Membership>, i: nat, j: nat)
    requires forall i, j :: 0 <= i < j < |sources| ==> SourcesApart(sources[i], sources[j])
    requires i < |sources| && j < |sources|
    ensures i == j || sources[i].canonicalId != sources[j].canonicalId
  {
    assert i < j ==> SourcesApart(sources[i], sources[j]);
    assert j < i ==> SourcesApart(sources[j], sources[i]);
  }

  // ---- the counts ----

  function Ids(rows: seq<CanonicalRow>): seq<string> {
    seq(|rows|, i requires 0 <= i < |rows| => rows[i].id)
  }

  function RowIds(rows: seq<CanonicalRow>): set<string> { set r | r in rows :: r.id }

  lemma IdSets(rows: seq<CanonicalRow>)
    ensures RowIds(rows) == Elements(Ids(rows))
  {
    forall x ensures x in RowIds(rows) <==> x in Elements(Ids(rows)) {
      if x in RowIds(rows) {
        var r :| r in rows && r.id == x;
        var i :| 0 <= i < |rows| && rows[i] == r;
        assert Ids(rows)[i] == x;
      }
      if x in Elements(Ids(rows)) {
        var i :| 0 <= i < |rows| && Ids(rows)[i] == x;
        assert rows[i] in rows;
      }
    }
  }

  function AssistantIds(rows: seq<CanonicalRow>): set<string> {
    set r | r in rows && IsAssistant(r) :: r.id
  }

  function SourceIdList(sources: seq<Membership>): seq<string> {
    seq(|sources|, i requires 0 <= i < |sources| => sources[i].canonicalId)
  }

  lemma RowCount(w: Identity, rows: seq<CanonicalRow>)
    requires RowsOk(w, rows)
    ensures |rows| == |RowIds(rows)|
  {
    CountDistinct(Ids(rows));
    IdSets(rows);
    forall i, j | 0 <= i < j < |rows| ensures Ids(rows)[i] != Ids(rows)[j] {
      assert RowsApart(rows[i], rows[j]);
    }
  }

  lemma SourceIdElements(sources: seq<Membership>)
    ensures Elements(SourceIdList(sources)) == SourceIds(sources)
  {
    var list := SourceIdList(sources);
    forall x | x in SourceIds(sources) ensures x in Elements(list) {
      var s :| s in sources && s.canonicalId == x;
      var i :| 0 <= i < |sources| && sources[i] == s;
      assert list[i] == x;
    }
    forall x | x in Elements(list) ensures x in SourceIds(sources) {
      var i :| 0 <= i < |list| && list[i] == x;
      assert sources[i] in sources;
    }
  }

  lemma SourceIdsDistinct(sources: seq<Membership>)
    requires forall i, j :: 0 <= i < j < |sources| ==> SourcesApart(sources[i], sources[j])
    ensures |sources| == |SourceIds(sources)|
  {
    SourceIdElements(sources);
    CountDistinct(SourceIdList(sources));
    forall i, j | 0 <= i < j < |sources| ensures SourceIdList(sources)[i] != SourceIdList(sources)[j] {
      assert SourcesApart(sources[i], sources[j]);
    }
  }

  lemma SourceCount(w: Identity, rows: seq<CanonicalRow>, sources: seq<Membership>)
    requires SourcesOk(w, rows, sources)
    ensures |sources| == |UserIds(rows)|
  {
    SourceIdsDistinct(sources);
  }

  /** The group of each id in `ids`, when every group has exactly one. */
  lemma OneEach(w: Identity, rows: seq<CanonicalRow>, ids: set<string>)
    requires RowsOk(w, rows)
    requires forall i :: i in ids ==> i in RowIds(rows)
    requires forall g :: g in GroupNumbers(rows) ==> exists r :: r in rows && r.group == g && r.id in ids
    requires forall r, q :: r in rows && q in rows && r.id in ids && q.id in ids && r.group == q.group ==> r == q
    ensures |ids| == |GroupNumbers(rows)|
  {
    var f := map i | i in ids :: GroupOfId(rows, i);
    forall r | r in rows && r.id in ids ensures f[r.id] == r.group {
      GroupOfIdIs(w, rows, r);
    }
    forall i | i in ids ensures exists r :: r in rows && r.id == i && f[i] == r.group {
      var r :| r in rows && r.id == i;
      assert f[i] == r.group;
    }
    forall g ensures g in f.Values <==> g in GroupNumbers(rows) {
      if g in GroupNumbers(rows) {
        var r :| r in rows && r.group == g && r.id in ids;
        assert r.id in f && f[r.id] == g;
      }
    }
    assert f.Values == GroupNumbers(rows);
    SameSize(ids, GroupNumbers(rows), f);
  }

  function GroupOfId(rows: seq<CanonicalRow>, id: string): int {
    if rows == [] then -1 else if rows[0].id == id then rows[0].group else GroupOfId(rows[1..], id)
  }

  lemma {:induction false} GroupOfIdIs(w: Identity, rows: seq<CanonicalRow>, r: CanonicalRow)
    requires RowsOk(w, rows) && r in rows
    ensures GroupOfId(rows, r.id) == r.group
  {
    assert rows[0] in rows && rows == [rows[0]] + rows[1..];
    if rows[0].id == r.id {
      IdsDecide(w, rows, rows[0], r);
    } else {
      var rest := rows[1..];
      forall i, j | 0 <= i < j < |rest| ensures RowsApart(rest[i], rest[j]) {
        assert RowsApart(rows[i + 1], rows[j + 1]);
      }
      GroupOfIdIs(w, rest, r);
    }
  }

  /** So an accepted artifact has as many memberships as groups, one user row
      and one assistant row for each, and no row besides. */
  lemma AcceptedCounts(w: Identity, rows: seq<CanonicalRow>, sources: seq<Membership>, maps: seq<GroupMapping>)
    requires ArtifactOk(w, rows, sources, maps)
    ensures |sources| == |UserIds(rows)| == |AssistantIds(rows)| == |GroupNumbers(rows)|
    ensures |rows| == 2 * |GroupNumbers(rows)|
  {
    RowCount(w, rows);
    SourceCount(w, rows, sources);
    RolesSplit(w, rows);
    RolePerGroup(w, rows);
    OneEach(w, rows, UserIds(rows));
    OneEach(w, rows, AssistantIds(rows));
  }

  lemma RolesSplit(w: Identity, rows: seq<CanonicalRow>)
    requires RowsOk(w, rows) && GroupsOk(rows)
    ensures |RowIds(rows)| == |UserIds(rows)| + |AssistantIds(rows)|
    ensures UserIds(rows) <= RowIds(rows) && AssistantIds(rows) <= RowIds(rows)
  {
    forall r | r in rows ensures IsUser(r) != IsAssistant(r) {
      var u, a := GroupIsPair(w, rows, r.group);
    }
    forall u, a | u in rows && IsUser(u) && a in rows && IsAssistant(a) ensures u.id != a.id {
      IdsDecide(w, rows, u, a);
    }
    assert RowIds(rows) == UserIds(rows) + AssistantIds(rows);
  }

  lemma RolePerGroup(w: Identity, rows: seq<CanonicalRow>)
    requires RowsOk(w, rows) && GroupsOk(rows)
    ensures forall g :: g in GroupNumbers(rows) ==>
              && (exists r :: r in rows && r.group == g && r.id in UserIds(rows))
              && (exists r :: r in rows && r.group == g && r.id in AssistantIds(rows))
    ensures forall r, q :: r in rows && q in rows && r.group == q.group ==>
              && (r.id in UserIds(rows) && q.id in UserIds(rows) ==> r == q)
              && (r.id in AssistantIds(rows) && q.id in AssistantIds(rows) ==> r == q)
  {
    forall g | g in GroupNumbers(rows)
      ensures exists r :: r in rows && r.group == g && r.id in UserIds(rows)
      ensures exists r :: r in rows && r.group == g && r.id in AssistantIds(rows)
    {
      var u, a := GroupIsPair(w, rows, g);
      assert u.id in UserIds(rows) && a.id in AssistantIds(rows);
    }
    forall r, q | r in rows && q in rows && r.group == q.group
      ensures r.id in UserIds(rows) && q.id in UserIds(rows) ==> r == q
      ensures r.id in AssistantIds(rows) && q.id in AssistantIds(rows) ==> r == q
    {
      var u, a := GroupIsPair(w, rows, r.group);
      RoleOfId(w, rows, r);
      RoleOfId(w, rows, q);
    }
  }

  lemma RoleOfId(w: Identity, rows: seq<CanonicalRow>, r: CanonicalRow)
    requires RowsOk(w, rows) && r in rows
    ensures r.id in UserIds(rows) <==> IsUser(r)
    ensures r.id in AssistantIds(rows) <==> IsAssistant(r)
  {
    if r.id in UserIds(rows) {
      var u :| u in rows && IsUser(u) && u.id == r.id;
      IdsDecide(w, rows, u, r);
    }
    if r.id in AssistantIds(rows) {
      var a :| a in rows && IsAssistant(a) && a.id == r.id;
      IdsDecide(w, rows, a, r);
    }
  }

  // ---- acceptance, field by field ----

  /** Each row is the owner's, hashes as stored, and has an assistant text or
      a user text with a source message and a Discord actor. */
  predicate RowReads(w: Identity, r: CanonicalRow) {
    && r.conversation == w.owner
    && w.turnHash(r.user, r.assistant).0 == r.hash
    && w.turnHash(r.user, r.assistant).1 == r.normalizedUser
    && w.turnHash(r.user, r.assistant).2 == r.normalizedAssistant
    && if r.user == "" then r.assistant != "" else r.sourceMessage != "" && "actor:discord:" <= r.sender
  }

  /** No two rows share an id or a sort key, no two user rows a message. */
  predicate RowsDiffer(rows: seq<CanonicalRow>) {
    forall i, j :: 0 <= i < |rows| && 0 <= j < |rows| && i != j ==>
      && rows[i].id != rows[j].id && rows[i].sortKey != rows[j].sortKey
      && (rows[i].user != "" && rows[j].user != "" ==> rows[i].sourceMessage != rows[j].sourceMessage)
  }

  function PositionsOf(rows: seq<CanonicalRow>, g: int): set<int> {
    set i | 0 <= i < |rows| && rows[i].group == g
  }

  /** A group's rows are one with a user text only and one with an assistant
      text only. */
  ghost predicate IsPairAt(rows: seq<CanonicalRow>, g: int) {
    exists i, j :: 0 <= i < |rows| && 0 <= j < |rows| && PositionsOf(rows, g) == {i, j}
      && rows[i].user != "" && rows[i].assistant == "" && rows[j].user == "" && rows[j].assistant != ""
  }

  ghost predicate GroupsRead(rows: seq<CanonicalRow>) {
    forall k :: 0 <= k < |rows| ==> IsPairAt(rows, rows[k].group)
  }

  /** The membership that the rows `u` and `a` of one group call for. */
  predicate Describes(w: Identity, s: Membership, u: CanonicalRow, a: CanonicalRow) {
    && u.user != "" && a.id != u.id && a.conversation == w.owner && a.group == u.group
    && Strip(a.user) == "" && Strip(a.assistant) != ""
    && s == Membership(
              scope := w.scope, platform := w.platform, account := w.account, message := u.sourceMessage,
              canonicalId := u.id, assistantId := a.id, assistantHash := a.hash, group := -1, pairVersion := 1,
              audience := u.audience, channel := u.channel, guild := w.guild, sourceActor := u.sender,
              bodySha := w.sha(u.user), canonicalHash := u.hash)
  }

  predicate Described(w: Identity, rows: seq<CanonicalRow>, s: Membership) {
    exists i, j :: 0 <= i < |rows| && 0 <= j < |rows| && Describes(w, s, rows[i], rows[j])
  }

  predicate HasMembership(sources: seq<Membership>, id: string) {
    exists k :: 0 <= k < |sources| && sources[k].canonicalId == id
  }

  predicate SourcesDiffer(sources: seq<Membership>) {
    forall k, l :: 0 <= k < |sources| && 0 <= l < |sources| && k != l ==>
      sources[k].canonicalId != sources[l].canonicalId && sources[k].message != sources[l].message
  }

  /** Every membership describes two rows, every user row has one, and no two
      share a row or a message. */
  predicate SourcesRead(w: Identity, rows: seq<CanonicalRow>, sources: seq<Membership>) {
    && (forall k :: 0 <= k < |sources| ==> Described(w, rows, sources[k]))
    && (forall i :: 0 <= i < |rows| && rows[i].user != "" ==> HasMembership(sources, rows[i].id))
    && SourcesDiffer(sources)
  }

  /** Old groups are listed once, each with a group of the artifact or with
      none and a quarantine class. */
  predicate MapsRead(rows: seq<CanonicalRow>, maps: seq<GroupMapping>) {
    && (forall k, l :: 0 <= k < |maps| && 0 <= l < |maps| && k != l ==> maps[k].oldGroup != maps[l].oldGroup)
    && forall k :: 0 <= k < |maps| ==>
         if maps[k].target.Some? then
           !("quarantined_" <= maps[k].classification) && exists i :: 0 <= i < |rows| && rows[i].group == maps[k].target.value
         else "quarantined_" <= maps[k].classification
  }

  ghost predicate Reads(w: Identity, rows: seq<CanonicalRow>, sources: seq<Membership>, maps: seq<GroupMapping>) {
    && (forall i :: 0 <= i < |rows| ==> RowReads(w, rows[i])) && RowsDiffer(rows)
    && GroupsRead(rows) && SourcesRead(w, rows, sources) && MapsRead(rows, maps)
  }

  lemma RowsReadExactly(w: Identity, rows: seq<CanonicalRow>)
    ensures RowsOk(w, rows) <==> (forall i :: 0 <= i < |rows| ==> RowReads(w, rows[i])) && RowsDiffer(rows)
  {
    forall r: CanonicalRow ensures RowOk(w, r) <==> RowReads(w, r) {
      RowReadsExactly(w, r);
    }
    if RowsOk(w, rows) {
      forall i, j | 0 <= i < |rows| && 0 <= j < |rows| && i != j ensures RowsApart(rows[i], rows[j]) {
        assert i < j || RowsApart(rows[j], rows[i]);
      }
    }
  }

  lemma RowReadsExactly(w: Identity, r: CanonicalRow)
    ensures RowOk(w, r) <==> RowReads(w, r)
  {
    var h := w.turnHash(r.user, r.assistant);
    assert h == (h.0, h.1, h.2);
  }

  lemma {:induction false} MembersCount(rows: seq<CanonicalRow>, g: int)
    ensures |Members(rows, g)| == |PositionsOf(rows, g)|
    decreases |rows|
  {
    if rows == [] {
      assert PositionsOf(rows, g) == {};
    } else {
      MembersCount(rows[..|rows| - 1], g);
      PositionsSnoc(rows, g);
    }
  }

  lemma PositionsSnoc(rows: seq<CanonicalRow>, g: int)
    requires rows != []
    ensures var n := |rows| - 1;
            |PositionsOf(rows, g)| == |PositionsOf(rows[..n], g)| + if rows[n].group == g then 1 else 0
  {
    var n := |rows| - 1;
    if rows[n].group == g {
      assert PositionsOf(rows, g) == PositionsOf(rows[..n], g) + {n};
    } else {
      assert PositionsOf(rows, g) == PositionsOf(rows[..n], g);
    }
  }

  lemma PairedReads(w: Identity, rows: seq<CanonicalRow>, g: int)
    requires RowsOk(w, rows) && GroupsOk(rows) && g in GroupNumbers(rows)
    ensures IsPairAt(rows, g)
  {
    var u, a := GroupIsPair(w, rows, g);
    var i :| 0 <= i < |rows| && rows[i] == u;
    var j :| 0 <= j < |rows| && rows[j] == a;
    forall k ensures k in PositionsOf(rows, g) <==> k == i || k == j {
      if k in PositionsOf(rows, g) {
        assert rows[k] in rows;
        SameRow(w, rows, k, i);
        SameRow(w, rows, k, j);
      }
    }
    assert PositionsOf(rows, g) == {i, j};
  }

  lemma TwoOf(m: seq<CanonicalRow>, x: CanonicalRow, y: CanonicalRow)
    requires |m| == 2 && x in m && y in m && x != y
    ensures (m[0] == x && m[1] == y) || (m[0] == y && m[1] == x)
  {
  }

  lemma PurePairIsPaired(m: seq<CanonicalRow>, u: CanonicalRow, a: CanonicalRow)
    requires |m| == 2 && u in m && a in m
    requires u.user != "" && u.assistant == "" && a.user == "" && a.assistant != ""
    ensures PairedGroup(m)
  {
    TwoOf(m, u, a);
  }

  lemma ReadsPaired(rows: seq<CanonicalRow>, g: int)
    requires IsPairAt(rows, g)
    ensures PairedGroup(Members(rows, g))
  {
    var i, j :| 0 <= i < |rows| && 0 <= j < |rows| && PositionsOf(rows, g) == {i, j}
      && rows[i].user != "" && rows[i].assistant == "" && rows[j].user == "" && rows[j].assistant != "";
    MembersCount(rows, g);
    MembersAre(rows, g);
    assert i in PositionsOf(rows, g) && j in PositionsOf(rows, g) && i != j;
    assert rows[i] in rows && rows[j] in rows;
    PurePairIsPaired(Members(rows, g), rows[i], rows[j]);
  }

  lemma NumberAt(rows: seq<CanonicalRow>, g: int)
    ensures g in GroupNumbers(rows) <==> exists k :: 0 <= k < |rows| && rows[k].group == g
  {
    if k :| 0 <= k < |rows| && rows[k].group == g {
      assert rows[k] in rows;
    }
  }

  lemma GroupsPaired(rows: seq<CanonicalRow>)
    requires GroupsRead(rows)
    ensures GroupsOk(rows)
  {
    forall g | g in GroupNumbers(rows) ensures PairedGroup(Members(rows, g)) {
      NumberAt(rows, g);
      var k :| 0 <= k < |rows| && rows[k].group == g;
      assert IsPairAt(rows, rows[k].group);
      ReadsPaired(rows, g);
    }
  }

  lemma GroupsReadExactly(w: Identity, rows: seq<CanonicalRow>)
    requires RowsOk(w, rows)
    ensures GroupsOk(rows) <==> GroupsRead(rows)
  {
    if GroupsOk(rows) {
      forall k | 0 <= k < |rows| ensures IsPairAt(rows, rows[k].group) {
        NumberAt(rows, rows[k].group);
        PairedReads(w, rows, rows[k].group);
      }
    }
    if GroupsRead(rows) {
      GroupsPaired(rows);
    }
  }

  lemma DescribesExactly(w: Identity, s: Membership, u: CanonicalRow, a: CanonicalRow)
    ensures Fences(w, s, u, a) <==> Describes(w, s, u, a)
  {
    StripBlank(a.user);
    StripBlank(a.assistant);
  }

  lemma FencedExactly(w: Identity, rows: seq<CanonicalRow>, s: Membership)
    ensures Fenced(w, rows, s) <==> Described(w, rows, s)
  {
    if i, j :| 0 <= i < |rows| && 0 <= j < |rows| && Fences(w, s, rows[i], rows[j]) {
      DescribesExactly(w, s, rows[i], rows[j]);
    }
    if i, j :| 0 <= i < |rows| && 0 <= j < |rows| && Describes(w, s, rows[i], rows[j]) {
      DescribesExactly(w, s, rows[i], rows[j]);
    }
  }

  lemma FencedIsUser(w: Identity, rows: seq<CanonicalRow>, s: Membership)
    requires Fenced(w, rows, s)
    ensures s.canonicalId in UserIds(rows) && s.scope == w.scope && s.platform == w.platform && s.account == w.account
  {
    var i, j :| 0 <= i < |rows| && 0 <= j < |rows| && Fences(w, s, rows[i], rows[j]);
    assert rows[i] in rows;
  }

  predicate AllFenced(w: Identity, rows: seq<CanonicalRow>, sources: seq<Membership>) {
    forall k :: 0 <= k < |sources| ==> Fenced(w, rows, sources[k])
  }

  lemma AllFencedExactly(w: Identity, rows: seq<CanonicalRow>, sources: seq<Membership>)
    ensures AllFenced(w, rows, sources) <==> forall k :: 0 <= k < |sources| ==> Described(w, rows, sources[k])
  {
    forall k | 0 <= k < |sources| ensures Fenced(w, rows, sources[k]) <==> Described(w, rows, sources[k]) {
      FencedExactly(w, rows, sources[k]);
    }
  }

  lemma IdInSources(sources: seq<Membership>, id: string)
    ensures id in SourceIds(sources) <==> HasMembership(sources, id)
  {
    if id in SourceIds(sources) {
      var s :| s in sources && s.canonicalId == id;
      var k :| 0 <= k < |sources| && sources[k] == s;
      assert sources[k].canonicalId == id;
    }
    if k :| 0 <= k < |sources| && sources[k].canonicalId == id {
      assert sources[k] in sources;
    }
  }

  lemma IdOfUser(rows: seq<CanonicalRow>, id: string)
    ensures id in UserIds(rows) <==> exists i :: 0 <= i < |rows| && rows[i].user != "" && rows[i].id == id
  {
    if id in UserIds(rows) {
      var r :| r in rows && IsUser(r) && r.id == id;
      var i :| 0 <= i < |rows| && rows[i] == r;
      assert rows[i].id == id;
    }
    if i :| 0 <= i < |rows| && rows[i].user != "" && rows[i].id == id {
      assert rows[i] in rows;
    }
  }

  lemma Covering(w: Identity, rows: seq<CanonicalRow>, sources: seq<Membership>)
    requires AllFenced(w, rows, sources)
    ensures SourceIds(sources) == UserIds(rows) <==>
            forall i :: 0 <= i < |rows| && rows[i].user != "" ==> HasMembership(sources, rows[i].id)
  {
    forall x | x in SourceIds(sources) ensures x in UserIds(rows) {
      IdInSources(sources, x);
      var k :| 0 <= k < |sources| && sources[k].canonicalId == x;
      FencedIsUser(w, rows, sources[k]);
    }
    if SourceIds(sources) == UserIds(rows) {
      forall i | 0 <= i < |rows| && rows[i].user != "" ensures HasMembership(sources, rows[i].id) {
        IdOfUser(rows, rows[i].id);
        IdInSources(sources, rows[i].id);
      }
    }
    if forall i :: 0 <= i < |rows| && rows[i].user != "" ==> HasMembership(sources, rows[i].id) {
      forall x | x in UserIds(rows) ensures x in SourceIds(sources) {
        IdOfUser(rows, x);
        IdInSources(sources, x);
      }
    }
  }

  lemma AllApart(w: Identity, rows: seq<CanonicalRow>, sources: seq<Membership>)
    requires AllFenced(w, rows, sources)
    ensures (forall i, j :: 0 <= i < j < |sources| ==> SourcesApart(sources[i], sources[j])) <==> SourcesDiffer(sources)
  {
    forall k, l | 0 <= k < |sources| && 0 <= l < |sources|
      ensures SourcesApart(sources[k], sources[l]) <==>
              sources[k].canonicalId != sources[l].canonicalId && sources[k].message != sources[l].message
    {
      FencedIsUser(w, rows, sources[k]);
      FencedIsUser(w, rows, sources[l]);
    }
  }

  lemma SourcesReadExactly(w: Identity, rows: seq<CanonicalRow>, sources: seq<Membership>)
    ensures SourcesOk(w, rows, sources) <==> SourcesRead(w, rows, sources)
  {
    AllFencedExactly(w, rows, sources);
    if AllFenced(w, rows, sources) {
      Covering(w, rows, sources);
      AllApart(w, rows, sources);
    }
  }

  lemma MapsReadExactly(rows: seq<CanonicalRow>, maps: seq<GroupMapping>)
    ensures MappingsOk(rows, maps) <==> MapsRead(rows, maps)
  {
    forall g: int ensures g in GroupNumbers(rows) <==> exists i :: 0 <= i < |rows| && rows[i].group == g {
      if i :| 0 <= i < |rows| && rows[i].group == g {
        assert rows[i] in rows;
      }
    }
  }

  /** The loader accepts exactly the artifacts that read so. */
  lemma AcceptedExactly(w: Identity, rows: seq<CanonicalRow>, sources: seq<Membership>, maps: seq<GroupMapping>)
    ensures ArtifactOk(w, rows, sources, maps) <==> Reads(w, rows, sources, maps)
  {
    RowsReadExactly(w, rows);
    if RowsOk(w, rows) {
      GroupsReadExactly(w, rows);
    }
    SourcesReadExactly(w, rows, sources);
    MapsReadExactly(rows, maps);
  }
}
