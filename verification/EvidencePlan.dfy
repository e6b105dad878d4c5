/** The evidence remap plan: every tool output, tool link and chain of the old
    history is mapped to a new group or quarantined. */
module EvidencePlan {
  import opened Seqs

  /** `body` stands for the columns the plan copies and never reads. */
  datatype Tool = Tool(ref: string, turn: int, origin: string, body: string)

  datatype Link = Link(turn: int, ref: string, origin: string)

  datatype Chain = Chain(ref: string, turn: int, body: string)

  datatype Snapshot = Snapshot(tools: seq<Tool>, links: seq<Link>, chains: seq<Chain>)

  datatype Reason =
    | ForeignOrigin
    | NoUniqueGroup
    | TargetsDisagree
    | ToolQuarantined
    | ChainUnattested

  datatype Quarantined<T> = Quarantined(reason: Reason, original: T)

  datatype Mapping = Mapping(tool: Tool, target: int)

  datatype Plan = Plan(
    mappedTools: seq<Mapping>,
    mappedLinks: set<Link>,
    mappedChains: seq<(Chain, int)>,
    quarantinedTools: seq<Quarantined<Tool>>,
    quarantinedLinks: seq<Quarantined<Link>>,
    quarantinedChains: seq<Quarantined<Chain>>,
    deduplicated: int)

  /** The owner conversation and the map from old to new groups; None is an
      old group without a unique new one. */
  datatype Context = Context(owner: string, groups: map<int, Option<int>>)

  function Destination(cx: Context, turn: int): Option<int> {
    if turn in cx.groups then cx.groups[turn] else None
  }

  predicate Native(cx: Context, origin: string) {
    origin == "" || origin == cx.owner
  }

  function ToolTarget(cx: Context, t: Tool): Option<int> {
    if Native(cx, t.origin) then Destination(cx, t.turn) else None
  }

  function LinkTarget(cx: Context, l: Link): Option<int> {
    if Native(cx, l.origin) then Destination(cx, l.turn) else None
  }

  // ---- the declarative reading ----

  /** Every link of the tool goes where the tool goes. */
  predicate LinksAgree(cx: Context, s: Snapshot, t: Tool) {
    forall l :: l in s.links && l.ref == t.ref ==> LinkTarget(cx, l) == ToolTarget(cx, t)
  }

  predicate ShouldMap(cx: Context, s: Snapshot, t: Tool) {
    ToolTarget(cx, t).Some? && LinksAgree(cx, s, t)
  }

  // ---- the candidate dictionary, in insertion order ----

  function Lookup(ms: seq<Mapping>, ref: string): Option<Mapping> {
    if ms == [] then None
    else if ms[0].tool.ref == ref then Some(ms[0])
    else Lookup(ms[1..], ref)
  }

  predicate DistinctRefs(ms: seq<Mapping>) {
    forall i, j :: 0 <= i < j < |ms| ==> ms[i].tool.ref != ms[j].tool.ref
  }

  lemma {:induction false} LookupFinds(ms: seq<Mapping>, ref: string)
    ensures Lookup(ms, ref).Some? ==> Lookup(ms, ref).value in ms && Lookup(ms, ref).value.tool.ref == ref
    ensures Lookup(ms, ref).None? <==> forall m :: m in ms ==> m.tool.ref != ref
    ensures DistinctRefs(ms) ==> forall m :: m in ms && m.tool.ref == ref ==> Lookup(ms, ref) == Some(m)
  {
    if ms != [] {
      LookupFinds(ms[1..], ref);
      assert ms == [ms[0]] + ms[1..];
      if DistinctRefs(ms) {
        forall m | m in ms && m.tool.ref == ref ensures Lookup(ms, ref) == Some(m) {
          if m in ms[1..] {
            var i :| 0 <= i < |ms[1..]| && ms[1..][i] == m;
            assert ms[i + 1] == m;
          }
        }
      }
    }
  }

  /** `dict.pop` */
  function Without(ms: seq<Mapping>, ref: string): seq<Mapping> {
    if ms == [] then []
    else if ms[0].tool.ref == ref then Without(ms[1..], ref)
    else [ms[0]] + Without(ms[1..], ref)
  }

  lemma TailApart(ms: seq<Mapping>)
    requires ms != [] && DistinctRefs(ms)
    ensures DistinctRefs(ms[1..])
    ensures forall m :: m in ms[1..] ==> m.tool.ref != ms[0].tool.ref
  {
    forall m | m in ms[1..] ensures m.tool.ref != ms[0].tool.ref {
      var i :| 0 <= i < |ms[1..]| && ms[1..][i] == m;
      assert ms[i + 1] == m;
    }
  }

  lemma {:induction false} WithoutMembers(ms: seq<Mapping>, ref: string)
    requires DistinctRefs(ms)
    ensures forall m :: m in Without(ms, ref) <==> m in ms && m.tool.ref != ref
    ensures DistinctRefs(Without(ms, ref))
  {
    if ms != [] {
      var t := ms[1..];
      assert ms == [ms[0]] + t;
      TailApart(ms);
      WithoutMembers(t, ref);
      var r := Without(t, ref);
      assert forall i :: 0 <= i < |r| ==> r[i] in r;
    }
  }

  lemma {:induction false} WithoutAbsent(ms: seq<Mapping>, ref: string)
    requires forall m :: m in ms ==> m.tool.ref != ref
    ensures Without(ms, ref) == ms
  {
    if ms != [] {
      assert ms[0] in ms && ms == [ms[0]] + ms[1..];
      WithoutAbsent(ms[1..], ref);
    }
  }

  // ---- the tool pass ----

  function Candidates(cx: Context, tools: seq<Tool>): seq<Mapping> {
    if tools == [] then []
    else
      var t := tools[|tools| - 1];
      Candidates(cx, tools[..|tools| - 1]) +
      if ToolTarget(cx, t).Some? then [Mapping(t, ToolTarget(cx, t).value)] else []
  }

  function Unmappable(cx: Context, tools: seq<Tool>): seq<Quarantined<Tool>> {
    if tools == [] then []
    else
      var t := tools[|tools| - 1];
      Unmappable(cx, tools[..|tools| - 1]) +
      if !Native(cx, t.origin) then [Quarantined(ForeignOrigin, t)]
      else if Destination(cx, t.turn).None? then [Quarantined(NoUniqueGroup, t)]
      else []
  }

  function Originals<T>(qs: seq<Quarantined<T>>): seq<T> {
    if qs == [] then [] else Originals(qs[..|qs| - 1]) + [qs[|qs| - 1].original]
  }

  function ToolsOf(ms: seq<Mapping>): seq<Tool> {
    if ms == [] then [] else [ms[0].tool] + ToolsOf(ms[1..])
  }

  lemma OriginalsSnoc<T>(qs: seq<Quarantined<T>>, q: Quarantined<T>)
    ensures Originals(qs + [q]) == Originals(qs) + [q.original]
  {
    assert (qs + [q])[..|qs|] == qs;
  }

  lemma {:induction false} ToolsOfSnoc(ms: seq<Mapping>, m: Mapping)
    ensures ToolsOf(ms + [m]) == ToolsOf(ms) + [m.tool]
  {
    if ms == [] {
      assert ms + [m] == [m] && [m][1..] == [];
    } else {
      assert (ms + [m])[1..] == ms[1..] + [m];
      ToolsOfSnoc(ms[1..], m);
    }
  }

  lemma {:induction false} CandidatesMembers(cx: Context, tools: seq<Tool>)
    ensures forall m :: m in Candidates(cx, tools) <==> m.tool in tools && ToolTarget(cx, m.tool) == Some(m.target)
    decreases |tools|
  {
    if tools != [] {
      var front := tools[..|tools| - 1];
      assert tools == front + [tools[|tools| - 1]];
      CandidatesMembers(cx, front);
    }
  }

  lemma CandidatesSnoc(cx: Context, front: seq<Tool>, t: Tool)
    ensures Candidates(cx, front + [t]) ==
            Candidates(cx, front) + if ToolTarget(cx, t).Some? then [Mapping(t, ToolTarget(cx, t).value)] else []
  {
    assert (front + [t])[..|front|] == front;
  }

  lemma UnmappableSnoc(cx: Context, front: seq<Tool>, t: Tool)
    ensures Unmappable(cx, front + [t]) ==
            Unmappable(cx, front) +
            if ToolTarget(cx, t).Some? then [] else [Quarantined(if !Native(cx, t.origin) then ForeignOrigin else NoUniqueGroup, t)]
  {
    assert (front + [t])[..|front|] == front;
  }

  lemma ToolPassSnoc(cx: Context, front: seq<Tool>, t: Tool)
    ensures multiset(ToolsOf(Candidates(cx, front + [t]))) + multiset(Originals(Unmappable(cx, front + [t])))
         == multiset(ToolsOf(Candidates(cx, front))) + multiset(Originals(Unmappable(cx, front))) + multiset{t}
  {
    var ms, qs := Candidates(cx, front), Unmappable(cx, front);
    CandidatesSnoc(cx, front, t);
    UnmappableSnoc(cx, front, t);
    if ToolTarget(cx, t).Some? {
      ToolsOfSnoc(ms, Mapping(t, ToolTarget(cx, t).value));
      assert qs + [] == qs;
    } else {
      OriginalsSnoc(qs, Quarantined(if !Native(cx, t.origin) then ForeignOrigin else NoUniqueGroup, t));
      assert ms + [] == ms;
    }
  }

  /** Each row goes into exactly one of the two lists. */
  lemma {:induction false} ToolPassConserves(cx: Context, tools: seq<Tool>)
    ensures multiset(tools) == multiset(ToolsOf(Candidates(cx, tools))) + multiset(Originals(Unmappable(cx, tools)))
    decreases |tools|
  {
    if tools != [] {
      var front, t := tools[..|tools| - 1], tools[|tools| - 1];
      assert tools == front + [t];
      ToolPassConserves(cx, front);
      ToolPassSnoc(cx, front, t);
    }
  }

  method SortTools(cx: Context, tools: seq<Tool>) returns (candidates: seq<Mapping>, quarantined: seq<Quarantined<Tool>>, duplicate: bool)
    ensures duplicate <==> !DistinctRefs(Candidates(cx, tools))
    ensures !duplicate ==> candidates == Candidates(cx, tools) && quarantined == Unmappable(cx, tools)
  {
    candidates, quarantined, duplicate := [], [], false;
    for i := 0 to |tools|
      invariant candidates == Candidates(cx, tools[..i]) && quarantined == Unmappable(cx, tools[..i])
      invariant DistinctRefs(candidates)
    {
      var t := tools[i];
      assert tools[..i + 1][..i] == tools[..i];
      if !Native(cx, t.origin) {
        quarantined := quarantined + [Quarantined(ForeignOrigin, t)];
        continue;
      }
      var target := Destination(cx, t.turn);
      if target.None? {
        quarantined := quarantined + [Quarantined(NoUniqueGroup, t)];
      } else {
        LookupFinds(candidates, t.ref);
        if Lookup(candidates, t.ref).Some? {
          duplicate := true;
          DuplicateStays(cx, tools, i);
          return;
        }
        assert forall k :: 0 <= k < |candidates| ==> candidates[k] in candidates;
        candidates := candidates + [Mapping(t, target.value)];
      }
    }
    assert tools[..|tools|] == tools;
  }

  lemma {:induction false} CandidatesPrefix(cx: Context, tools: seq<Tool>, i: nat)
    requires i <= |tools|
    ensures Candidates(cx, tools[..i]) <= Candidates(cx, tools)
    decreases |tools|
  {
    if i < |tools| {
      CandidatesPrefix(cx, tools[..|tools| - 1], i);
      assert tools[..|tools| - 1][..i] == tools[..i];
    } else {
      assert tools[..i] == tools;
    }
  }

  lemma DuplicateStays(cx: Context, tools: seq<Tool>, i: nat)
    requires i < |tools| && ToolTarget(cx, tools[i]).Some?
    requires Lookup(Candidates(cx, tools[..i]), tools[i].ref).Some?
    ensures !DistinctRefs(Candidates(cx, tools))
  {
    var before, upto := Candidates(cx, tools[..i]), Candidates(cx, tools[..i + 1]);
    assert tools[..i + 1][..i] == tools[..i];
    CandidatesPrefix(cx, tools, i + 1);
    LookupFinds(before, tools[i].ref);
    var m := Lookup(before, tools[i].ref).value;
    var k :| 0 <= k < |before| && before[k] == m;
    assert upto[k] == m && upto[|before|].tool == tools[i];
    assert Candidates(cx, tools)[k].tool.ref == Candidates(cx, tools)[|before|].tool.ref;
  }

  // ---- the link pre-pass ----

  /** The link contradicts the candidate it refers to. */
  predicate Corrupts(cx: Context, candidates: seq<Mapping>, l: Link) {
    Lookup(candidates, l.ref).Some? && LinkTarget(cx, l) != Some(Lookup(candidates, l.ref).value.target)
  }

  function CorruptRefs(cx: Context, candidates: seq<Mapping>, links: seq<Link>): set<string> {
    set l | l in links && Corrupts(cx, candidates, l) :: l.ref
  }

  method FindCorrupt(cx: Context, candidates: seq<Mapping>, links: seq<Link>) returns (corrupt: set<string>)
    ensures corrupt == CorruptRefs(cx, candidates, links)
  {
    corrupt := {};
    for i := 0 to |links|
      invariant corrupt == CorruptRefs(cx, candidates, links[..i])
    {
      var l := links[i];
      assert links[..i + 1] == links[..i] + [l];
      var target := LinkTarget(cx, l);
      var tool := Lookup(candidates, l.ref);
      if tool.None? || target.None? || target.value != tool.value.target {
        if tool.Some? {
          corrupt := corrupt + {l.ref};
        }
      }
    }
    assert links[..|links|] == links;
  }

  /** Popping one ref takes exactly its row out. */
  lemma {:induction false} PopConserves(ms: seq<Mapping>, ref: string)
    requires DistinctRefs(ms) && Lookup(ms, ref).Some?
    ensures multiset(ToolsOf(ms)) == multiset(ToolsOf(Without(ms, ref))) + multiset{Lookup(ms, ref).value.tool}
  {
    var t := ms[1..];
    TailApart(ms);
    LookupFinds(t, ref);
    if ms[0].tool.ref == ref {
      WithoutAbsent(t, ref);
    } else {
      PopConserves(t, ref);
      assert Without(ms, ref) == [ms[0]] + Without(t, ref);
      assert ([ms[0]] + Without(t, ref))[1..] == Without(t, ref);
    }
  }

  ghost predicate LeftOf(candidates: seq<Mapping>, gone: set<string>, left: seq<Mapping>) {
    forall m :: m in left <==> m in candidates && m.tool.ref !in gone
  }

  ghost predicate PoppedOnto(candidates: seq<Mapping>, q0: seq<Quarantined<Tool>>, gone: set<string>, q: seq<Quarantined<Tool>>) {
    && q0 <= q
    && forall i :: |q0| <= i < |q| ==>
         q[i].reason == TargetsDisagree && q[i].original.ref in gone && exists m :: m in candidates && m.tool == q[i].original
  }

  /** `left` is `candidates` with the refs in `gone` popped, `q` has them. */
  ghost predicate Popped(candidates: seq<Mapping>, q0: seq<Quarantined<Tool>>, gone: set<string>,
                         left: seq<Mapping>, q: seq<Quarantined<Tool>>) {
    && DistinctRefs(left) && LeftOf(candidates, gone, left) && PoppedOnto(candidates, q0, gone, q)
    && multiset(ToolsOf(left)) + multiset(Originals(q)) == multiset(ToolsOf(candidates)) + multiset(Originals(q0))
  }

  lemma PopCounts(left: seq<Mapping>, q: seq<Quarantined<Tool>>, ref: string)
    requires DistinctRefs(left) && Lookup(left, ref).Some?
    ensures var m := Lookup(left, ref).value;
            multiset(ToolsOf(Without(left, ref))) + multiset(Originals(q + [Quarantined(TargetsDisagree, m.tool)])) ==
            multiset(ToolsOf(left)) + multiset(Originals(q))
  {
    PopConserves(left, ref);
    OriginalsSnoc(q, Quarantined(TargetsDisagree, Lookup(left, ref).value.tool));
  }

  lemma StillThere(candidates: seq<Mapping>, q0: seq<Quarantined<Tool>>, gone: set<string>,
                   left: seq<Mapping>, q: seq<Quarantined<Tool>>, ref: string)
    requires Popped(candidates, q0, gone, left, q)
    requires ref !in gone && Lookup(candidates, ref).Some?
    ensures Lookup(left, ref).Some? && Lookup(left, ref).value.tool.ref == ref
  {
    LookupFinds(candidates, ref);
    assert Lookup(candidates, ref).value in left;
    LookupFinds(left, ref);
  }

  lemma LeftStep(candidates: seq<Mapping>, gone: set<string>, left: seq<Mapping>, ref: string)
    requires LeftOf(candidates, gone, left) && DistinctRefs(left)
    ensures LeftOf(candidates, gone + {ref}, Without(left, ref))
  {
    WithoutMembers(left, ref);
  }

  lemma OntoStep(candidates: seq<Mapping>, q0: seq<Quarantined<Tool>>, gone: set<string>, q: seq<Quarantined<Tool>>, m: Mapping)
    requires PoppedOnto(candidates, q0, gone, q) && m in candidates
    ensures PoppedOnto(candidates, q0, gone + {m.tool.ref}, q + [Quarantined(TargetsDisagree, m.tool)])
  {
  }

  lemma PopStep(candidates: seq<Mapping>, q0: seq<Quarantined<Tool>>, gone: set<string>,
                left: seq<Mapping>, q: seq<Quarantined<Tool>>, ref: string)
    requires Popped(candidates, q0, gone, left, q)
    requires ref !in gone && Lookup(candidates, ref).Some?
    ensures Lookup(left, ref).Some?
    ensures Popped(candidates, q0, gone + {ref}, Without(left, ref), q + [Quarantined(TargetsDisagree, Lookup(left, ref).value.tool)])
  {
    StillThere(candidates, q0, gone, left, q, ref);
    WithoutMembers(left, ref);
    LeftStep(candidates, gone, left, ref);
    LookupFinds(left, ref);
    OntoStep(candidates, q0, gone, q, Lookup(left, ref).value);
    PopCounts(left, q, ref);
  }

  /** Removing the corrupt candidates, in any order. */
  method PopCorrupt(candidates: seq<Mapping>, corrupt: set<string>, quarantined: seq<Quarantined<Tool>>)
    returns (left: seq<Mapping>, q: seq<Quarantined<Tool>>)
    requires DistinctRefs(candidates)
    requires forall ref :: ref in corrupt ==> Lookup(candidates, ref).Some?
    ensures Popped(candidates, quarantined, corrupt, left, q)
  {
    left, q := candidates, quarantined;
    var todo := corrupt;
    while todo != {}
      invariant todo <= corrupt
      invariant Popped(candidates, quarantined, corrupt - todo, left, q)
    {
      var ref :| ref in todo;
      PopStep(candidates, quarantined, corrupt - todo, left, q, ref);
      var m := Lookup(left, ref).value;
      left := Without(left, ref);
      q := q + [Quarantined(TargetsDisagree, m.tool)];
      assert corrupt - (todo - {ref}) == (corrupt - todo) + {ref};
      todo := todo - {ref};
    }
    assert corrupt - todo == corrupt;
  }

  // ---- the link pass ----

  /** The branches of the code in order; None keeps the link. The last one is
      the code's defensive duplicate. */
  function LinkReason(cx: Context, corrupt: set<string>, left: seq<Mapping>, l: Link): Option<Reason> {
    if l.ref in corrupt then Some(TargetsDisagree)
    else if !Native(cx, l.origin) then Some(ForeignOrigin)
    else if LinkTarget(cx, l).None? then Some(NoUniqueGroup)
    else if Lookup(left, l.ref).None? then Some(ToolQuarantined)
    else if LinkTarget(cx, l) != Some(Lookup(left, l.ref).value.target) then Some(TargetsDisagree)
    else None
  }

  predicate Keeps(cx: Context, corrupt: set<string>, left: seq<Mapping>, l: Link) {
    LinkReason(cx, corrupt, left, l).None?
  }

  /** A kept link, moved to its new turn. */
  function Moved(cx: Context, l: Link): Link {
    if LinkTarget(cx, l).Some? then l.(turn := LinkTarget(cx, l).value) else l
  }

  function MovedLinks(cx: Context, corrupt: set<string>, left: seq<Mapping>, links: seq<Link>): set<Link> {
    set l | l in links && Keeps(cx, corrupt, left, l) :: Moved(cx, l)
  }

  function RefusedLinks(cx: Context, corrupt: set<string>, left: seq<Mapping>, links: seq<Link>): seq<Quarantined<Link>> {
    if links == [] then []
    else
      var l := links[|links| - 1];
      RefusedLinks(cx, corrupt, left, links[..|links| - 1]) +
      if Keeps(cx, corrupt, left, l) then [] else [Quarantined(LinkReason(cx, corrupt, left, l).value, l)]
  }

  lemma LinkSnoc(cx: Context, corrupt: set<string>, left: seq<Mapping>, front: seq<Link>, l: Link)
    ensures MovedLinks(cx, corrupt, left, front + [l])
         == MovedLinks(cx, corrupt, left, front) + if Keeps(cx, corrupt, left, l) then {Moved(cx, l)} else {}
    ensures RefusedLinks(cx, corrupt, left, front + [l])
         == RefusedLinks(cx, corrupt, left, front)
            + if Keeps(cx, corrupt, left, l) then [] else [Quarantined(LinkReason(cx, corrupt, left, l).value, l)]
  {
    assert (front + [l])[..|front|] == front;
    assert forall x :: x in front + [l] <==> x in front || x == l;
  }

  /** The chain of tests for one link. */
  method ReasonToRefuse(cx: Context, corrupt: set<string>, left: seq<Mapping>, l: Link) returns (reason: Option<Reason>)
    ensures reason == LinkReason(cx, corrupt, left, l)
  {
    var target := LinkTarget(cx, l);
    reason := None;
    if l.ref in corrupt {
      reason := Some(TargetsDisagree);
    } else if !Native(cx, l.origin) {
      reason := Some(ForeignOrigin);
    } else if target.None? {
      reason := Some(NoUniqueGroup);
    } else if Lookup(left, l.ref).None? {
      reason := Some(ToolQuarantined);
    } else if target.value != Lookup(left, l.ref).value.target {
      reason := Some(TargetsDisagree);
    }
  }

  method SortLinks(cx: Context, corrupt: set<string>, left: seq<Mapping>, links: seq<Link>)
    returns (mapped: set<Link>, quarantined: seq<Quarantined<Link>>)
    ensures mapped == MovedLinks(cx, corrupt, left, links)
    ensures quarantined == RefusedLinks(cx, corrupt, left, links)
  {
    mapped, quarantined := {}, [];
    for i := 0 to |links|
      invariant mapped == MovedLinks(cx, corrupt, left, links[..i])
      invariant quarantined == RefusedLinks(cx, corrupt, left, links[..i])
    {
      var l := links[i];
      assert links[..i + 1] == links[..i] + [l];
      LinkSnoc(cx, corrupt, left, links[..i], l);
      var reason := ReasonToRefuse(cx, corrupt, left, l);
      if reason.Some? {
        quarantined := quarantined + [Quarantined(reason.value, l)];
      } else {
        mapped := mapped + {l.(turn := LinkTarget(cx, l).value)};
      }
    }
    assert links[..|links|] == links;
  }

  function RefusedChains(chains: seq<Chain>): (r: seq<Quarantined<Chain>>)
    ensures |r| == |chains|
    ensures forall i :: 0 <= i < |chains| ==> r[i].original == chains[i]
  {
    seq(|chains|, i requires 0 <= i < |chains| => Quarantined(ChainUnattested, chains[i]))
  }

  // ---- the whole plan ----

  ghost predicate IsPlan(cx: Context, s: Snapshot, p: Plan) {
    var candidates := Candidates(cx, s.tools);
    var corrupt := CorruptRefs(cx, candidates, s.links);
    && DistinctRefs(candidates)
    && Popped(candidates, Unmappable(cx, s.tools), corrupt, p.mappedTools, p.quarantinedTools)
    && p.mappedLinks == MovedLinks(cx, corrupt, p.mappedTools, s.links)
    && p.quarantinedLinks == RefusedLinks(cx, corrupt, p.mappedTools, s.links)
    && p.mappedChains == [] && p.quarantinedChains == RefusedChains(s.chains)
    && p.deduplicated == |s.links| - |p.mappedLinks| - |p.quarantinedLinks|
  }

  /** `_evidence_remap_plan`; None is the duplicate-ref error. */
  method EvidenceRemapPlan(cx: Context, s: Snapshot) returns (p: Option<Plan>)
    ensures p.None? <==> !DistinctRefs(Candidates(cx, s.tools))
    ensures p.Some? ==> IsPlan(cx, s, p.value)
  {
    var candidates, quarantinedTools, duplicate := SortTools(cx, s.tools);
    if duplicate {
      return None;
    }
    var corrupt := FindCorrupt(cx, candidates, s.links);
    var left, allQuarantined := PopCorrupt(candidates, corrupt, quarantinedTools);
    var mapped, quarantinedLinks := SortLinks(cx, corrupt, left, s.links);
    var quarantinedChains := SortChains(s.chains);
    return Some(Plan(left, mapped, [], allQuarantined, quarantinedLinks, quarantinedChains,
                     |s.links| - |mapped| - |quarantinedLinks|));
  }

  method SortChains(chains: seq<Chain>) returns (quarantined: seq<Quarantined<Chain>>)
    ensures quarantined == RefusedChains(chains)
  {
    quarantined := [];
    for i := 0 to |chains|
      invariant quarantined == RefusedChains(chains)[..i]
    {
      quarantined := quarantined + [Quarantined(ChainUnattested, chains[i])];
    }
  }

  // ---- what the plan guarantees ----

  /** Every tool row is in exactly one of the two lists, counting copies. */
  lemma ToolsConserved(cx: Context, s: Snapshot, p: Plan)
    requires IsPlan(cx, s, p)
    ensures multiset(s.tools) == multiset(ToolsOf(p.mappedTools)) + multiset(Originals(p.quarantinedTools))
  {
    ToolPassConserves(cx, s.tools);
  }

  lemma CorruptMeansDisagree(cx: Context, s: Snapshot, m: Mapping)
    requires DistinctRefs(Candidates(cx, s.tools)) && m in Candidates(cx, s.tools)
    ensures m.tool.ref in CorruptRefs(cx, Candidates(cx, s.tools), s.links) <==> !LinksAgree(cx, s, m.tool)
  {
    var candidates := Candidates(cx, s.tools);
    CandidatesMembers(cx, s.tools);
    LookupFinds(candidates, m.tool.ref);
    if !LinksAgree(cx, s, m.tool) {
      var l :| l in s.links && l.ref == m.tool.ref && LinkTarget(cx, l) != ToolTarget(cx, m.tool);
      assert Corrupts(cx, candidates, l);
    }
  }

  /** A tool is mapped, and to which group, exactly as the declarative
      reading says. */
  lemma MappedExactly(cx: Context, s: Snapshot, p: Plan, t: Tool, target: int)
    requires IsPlan(cx, s, p)
    ensures Mapping(t, target) in p.mappedTools <==>
              t in s.tools && ShouldMap(cx, s, t) && target == ToolTarget(cx, t).value
  {
    CandidatesMembers(cx, s.tools);
    if t in s.tools && ToolTarget(cx, t) == Some(target) {
      CorruptMeansDisagree(cx, s, Mapping(t, target));
    }
  }

  /** The defensive branch is never taken: a link that reaches it belongs to a
      mapped tool, whose links all agree. */
  lemma DefensiveBranchDead(cx: Context, s: Snapshot, p: Plan, l: Link)
    requires IsPlan(cx, s, p) && l in s.links
    requires Lookup(p.mappedTools, l.ref).Some?
    ensures LinkTarget(cx, l) == Some(Lookup(p.mappedTools, l.ref).value.target)
    ensures Keeps(cx, CorruptRefs(cx, Candidates(cx, s.tools), s.links), p.mappedTools, l)
  {
    LookupFinds(p.mappedTools, l.ref);
    var m := Lookup(p.mappedTools, l.ref).value;
    assert m == Mapping(m.tool, m.target);
    MappedExactly(cx, s, p, m.tool, m.target);
  }

  /** Tools and links stay together: a link is kept exactly when its tool is
      mapped, and then it moves to the tool's own new turn. */
  lemma LinksFollowTools(cx: Context, s: Snapshot, p: Plan, l: Link)
    requires IsPlan(cx, s, p) && l in s.links
    ensures var kept := Keeps(cx, CorruptRefs(cx, Candidates(cx, s.tools), s.links), p.mappedTools, l);
            && (kept <==> exists m :: m in p.mappedTools && m.tool.ref == l.ref)
            && (kept ==> Moved(cx, l) in p.mappedLinks)
            && (forall m :: kept && m in p.mappedTools && m.tool.ref == l.ref ==> Moved(cx, l).turn == m.target)
  {
    KeptByLookup(cx, s, p, l);
    LookupFinds(p.mappedTools, l.ref);
    if Lookup(p.mappedTools, l.ref).Some? {
      KeptIsMoved(cx, s, p, l);
      var m := Lookup(p.mappedTools, l.ref).value;
      assert m in p.mappedTools && m.tool.ref == l.ref;
    }
  }

  lemma KeptByLookup(cx: Context, s: Snapshot, p: Plan, l: Link)
    requires IsPlan(cx, s, p) && l in s.links
    ensures Keeps(cx, CorruptRefs(cx, Candidates(cx, s.tools), s.links), p.mappedTools, l) <==> Lookup(p.mappedTools, l.ref).Some?
    ensures Lookup(p.mappedTools, l.ref).Some? ==> Moved(cx, l).turn == Lookup(p.mappedTools, l.ref).value.target
  {
    if Lookup(p.mappedTools, l.ref).Some? {
      DefensiveBranchDead(cx, s, p, l);
    }
  }

  lemma KeptIsMoved(cx: Context, s: Snapshot, p: Plan, l: Link)
    requires IsPlan(cx, s, p) && l in s.links
    requires Keeps(cx, CorruptRefs(cx, Candidates(cx, s.tools), s.links), p.mappedTools, l)
    ensures Moved(cx, l) in p.mappedLinks
  {
  }

  function KeptCount(cx: Context, corrupt: set<string>, left: seq<Mapping>, links: seq<Link>): nat {
    if links == [] then 0
    else KeptCount(cx, corrupt, left, links[..|links| - 1]) + if Keeps(cx, corrupt, left, links[|links| - 1]) then 1 else 0
  }

  lemma {:induction false} LinkCounts(cx: Context, corrupt: set<string>, left: seq<Mapping>, links: seq<Link>)
    ensures |links| == KeptCount(cx, corrupt, left, links) + |RefusedLinks(cx, corrupt, left, links)|
    ensures |MovedLinks(cx, corrupt, left, links)| <= KeptCount(cx, corrupt, left, links)
    ensures forall q :: q in RefusedLinks(cx, corrupt, left, links) ==> q.original in links && !Keeps(cx, corrupt, left, q.original)
    ensures forall l :: l in links && !Keeps(cx, corrupt, left, l) ==>
              Quarantined(LinkReason(cx, corrupt, left, l).value, l) in RefusedLinks(cx, corrupt, left, links)
    decreases |links|
  {
    if links != [] {
      var front, l := links[..|links| - 1], links[|links| - 1];
      assert links == front + [l];
      LinkCounts(cx, corrupt, left, front);
      var before, after := MovedLinks(cx, corrupt, left, front), MovedLinks(cx, corrupt, left, links);
      if Keeps(cx, corrupt, left, l) {
        assert after == before + {Moved(cx, l)};
      } else {
        assert after == before;
      }
    }
  }

  /** Every link is preserved verbatim in quarantine or serves in its moved
      form; the deduplicated count is how many kept links coincided. */
  lemma LinksConserved(cx: Context, s: Snapshot, p: Plan)
    requires IsPlan(cx, s, p)
    ensures p.deduplicated == KeptCount(cx, CorruptRefs(cx, Candidates(cx, s.tools), s.links), p.mappedTools, s.links) - |p.mappedLinks|
    ensures p.deduplicated >= 0
    ensures forall l :: l in s.links ==>
              (exists q :: q in p.quarantinedLinks && q.original == l) || Moved(cx, l) in p.mappedLinks
    ensures forall n :: n in p.mappedLinks ==> exists l :: l in s.links && n == Moved(cx, l)
  {
    var corrupt := CorruptRefs(cx, Candidates(cx, s.tools), s.links);
    LinkCounts(cx, corrupt, p.mappedTools, s.links);
    forall l | l in s.links && Moved(cx, l) !in p.mappedLinks
      ensures exists q :: q in p.quarantinedLinks && q.original == l
    {
      assert !Keeps(cx, corrupt, p.mappedTools, l);
      assert Quarantined(LinkReason(cx, corrupt, p.mappedTools, l).value, l) in p.quarantinedLinks;
    }
  }

  // ---- the plan read off the tables ----

  /** A row of this turn and origin belongs to new group `g`: the origin is
      blank or the owner, and the old turn has a unique new group. */
  predicate BelongsTo(cx: Context, turn: int, origin: string, g: int) {
    (origin == "" || origin == cx.owner) && turn in cx.groups && cx.groups[turn] == Some(g)
  }

  predicate Homeless(cx: Context, turn: int) {
    turn !in cx.groups || cx.groups[turn] == None
  }

  /** The tool goes to `g` with all its links. */
  predicate GoesTogether(cx: Context, s: Snapshot, t: Tool, g: int) {
    BelongsTo(cx, t.turn, t.origin, g) && forall l :: l in s.links && l.ref == t.ref ==> BelongsTo(cx, l.turn, l.origin, g)
  }

  /** Which reason a quarantined tool is given. */
  ghost predicate ToolRefused(cx: Context, s: Snapshot, q: Quarantined<Tool>) {
    var t := q.original;
    if t.origin != "" && t.origin != cx.owner then q.reason == ForeignOrigin
    else if Homeless(cx, t.turn) then q.reason == NoUniqueGroup
    else q.reason == TargetsDisagree && forall g :: !GoesTogether(cx, s, t, g)
  }

  /** A link of a tool that could move but for its links is refused for that,
      any other for its own origin, its own turn, or its missing tool. */
  ghost predicate LinkRefused(cx: Context, s: Snapshot, q: Quarantined<Link>) {
    var l := q.original;
    if exists t :: t in s.tools && t.ref == l.ref && Movable(cx, t) && forall g :: !GoesTogether(cx, s, t, g) then q.reason == TargetsDisagree
    else if l.origin != "" && l.origin != cx.owner then q.reason == ForeignOrigin
    else if Homeless(cx, l.turn) then q.reason == NoUniqueGroup
    else q.reason == ToolQuarantined
  }

  ghost predicate Movable(cx: Context, t: Tool) {
    exists g :: BelongsTo(cx, t.turn, t.origin, g)
  }

  lemma TargetBelongs(cx: Context, turn: int, origin: string, g: int)
    ensures (if Native(cx, origin) then Destination(cx, turn) else None) == Some(g) <==> BelongsTo(cx, turn, origin, g)
  {
  }

  lemma ToolBelongs(cx: Context, t: Tool)
    ensures forall g :: ToolTarget(cx, t) == Some(g) <==> BelongsTo(cx, t.turn, t.origin, g)
    ensures ToolTarget(cx, t).Some? <==> Movable(cx, t)
  {
    if ToolTarget(cx, t).Some? {
      assert BelongsTo(cx, t.turn, t.origin, ToolTarget(cx, t).value);
    }
  }

  lemma ShouldMapIs(cx: Context, s: Snapshot, t: Tool, g: int)
    ensures ShouldMap(cx, s, t) && ToolTarget(cx, t) == Some(g) <==> GoesTogether(cx, s, t, g)
  {
    ToolBelongs(cx, t);
    forall l | l in s.links ensures LinkTarget(cx, l) == Some(g) <==> BelongsTo(cx, l.turn, l.origin, g) {
      TargetBelongs(cx, l.turn, l.origin, g);
    }
  }

  lemma ShouldMapSomewhere(cx: Context, s: Snapshot, t: Tool)
    ensures ShouldMap(cx, s, t) <==> exists g :: GoesTogether(cx, s, t, g)
  {
    if ShouldMap(cx, s, t) {
      ShouldMapIs(cx, s, t, ToolTarget(cx, t).value);
    }
    forall g | GoesTogether(cx, s, t, g) ensures ShouldMap(cx, s, t) {
      ShouldMapIs(cx, s, t, g);
    }
  }

  /** The planner stops exactly when two movable tools share a ref. */
  lemma PlanFailsExactly(cx: Context, s: Snapshot)
    ensures DistinctRefs(Candidates(cx, s.tools)) <==>
              forall i, j :: 0 <= i < j < |s.tools| && Movable(cx, s.tools[i]) && Movable(cx, s.tools[j]) ==> s.tools[i].ref != s.tools[j].ref
  {
    CandidateRefs(cx, s.tools);
  }

  lemma {:induction false} CandidateRefs(cx: Context, tools: seq<Tool>)
    ensures DistinctRefs(Candidates(cx, tools)) <==>
              forall i, j :: 0 <= i < j < |tools| && Movable(cx, tools[i]) && Movable(cx, tools[j]) ==> tools[i].ref != tools[j].ref
    decreases |tools|
  {
    if tools != [] {
      var front, t := tools[..|tools| - 1], tools[|tools| - 1];
      assert tools == front + [t];
      CandidateRefs(cx, front);
      CandidatesSnoc(cx, front, t);
      ToolBelongs(cx, t);
      CandidatesMembers(cx, front);
      if Movable(cx, t) {
        RefsSnoc(Candidates(cx, front), Mapping(t, ToolTarget(cx, t).value));
        forall i | 0 <= i < |front| ensures Movable(cx, front[i]) <==> ToolTarget(cx, front[i]).Some? {
          ToolBelongs(cx, front[i]);
        }
        MovableRefs(cx, front, t);
      } else {
        assert Candidates(cx, front) + [] == Candidates(cx, front);
        assert forall i :: 0 <= i < |front| ==> tools[i] == front[i];
      }
    }
  }

  lemma RefsSnoc(ms: seq<Mapping>, m: Mapping)
    ensures DistinctRefs(ms + [m]) <==> DistinctRefs(ms) && forall x :: x in ms ==> x.tool.ref != m.tool.ref
  {
    var all := ms + [m];
    assert all[|ms|] == m && forall i :: 0 <= i < |ms| ==> all[i] == ms[i];
    if DistinctRefs(all) {
      forall x | x in ms ensures x.tool.ref != m.tool.ref {
        var i :| 0 <= i < |ms| && ms[i] == x;
        assert all[i].tool.ref != all[|ms|].tool.ref;
      }
      forall i, j | 0 <= i < j < |ms| ensures ms[i].tool.ref != ms[j].tool.ref {
        assert all[i].tool.ref != all[j].tool.ref;
      }
    }
    if DistinctRefs(ms) && forall x :: x in ms ==> x.tool.ref != m.tool.ref {
      assert forall i :: 0 <= i < |ms| ==> ms[i] in ms;
    }
  }

  lemma MovableRefs(cx: Context, front: seq<Tool>, t: Tool)
    requires Movable(cx, t)
    ensures (forall m :: m in Candidates(cx, front) ==> m.tool.ref != t.ref) <==>
              forall i :: 0 <= i < |front| && Movable(cx, front[i]) ==> front[i].ref != t.ref
  {
    CandidatesMembers(cx, front);
    forall i | 0 <= i < |front| && Movable(cx, front[i])
      ensures exists m :: m in Candidates(cx, front) && m.tool == front[i]
    {
      ToolBelongs(cx, front[i]);
      assert Mapping(front[i], ToolTarget(cx, front[i]).value) in Candidates(cx, front);
    }
    forall m | m in Candidates(cx, front) ensures exists i :: 0 <= i < |front| && front[i] == m.tool && Movable(cx, front[i]) {
      ToolBelongs(cx, m.tool);
      var i :| 0 <= i < |front| && front[i] == m.tool;
    }
  }

  /** Where every tool goes: mapped to a group if it goes there with all its
      links, and else quarantined, once, with the first reason that holds. */
  lemma ToolsGoWhere(cx: Context, s: Snapshot, p: Plan)
    requires IsPlan(cx, s, p)
    ensures forall t, g :: Mapping(t, g) in p.mappedTools <==> t in s.tools && GoesTogether(cx, s, t, g)
    ensures forall q :: q in p.quarantinedTools ==> q.original in s.tools && ToolRefused(cx, s, q)
    ensures forall t :: t in s.tools && (forall g :: !GoesTogether(cx, s, t, g)) ==> exists q :: q in p.quarantinedTools && q.original == t
  {
    forall t, g ensures Mapping(t, g) in p.mappedTools <==> t in s.tools && GoesTogether(cx, s, t, g) {
      MappedExactly(cx, s, p, t, g);
      ShouldMapIs(cx, s, t, g);
    }
    forall q | q in p.quarantinedTools ensures q.original in s.tools && ToolRefused(cx, s, q) {
      QuarantinedTool(cx, s, p, q);
    }
    forall t | t in s.tools && (forall g :: !GoesTogether(cx, s, t, g)) ensures exists q :: q in p.quarantinedTools && q.original == t {
      NotMappedIsKept(cx, s, p, t);
    }
  }

  lemma {:induction false} OriginalsMembers<T>(qs: seq<Quarantined<T>>, x: T)
    ensures x in Originals(qs) <==> exists q :: q in qs && q.original == x
    decreases |qs|
  {
    if qs != [] {
      OriginalsMembers(qs[..|qs| - 1], x);
      assert qs == qs[..|qs| - 1] + [qs[|qs| - 1]];
    }
  }

  lemma {:induction false} ToolsOfMembers(ms: seq<Mapping>)
    ensures forall t :: t in ToolsOf(ms) <==> exists m :: m in ms && m.tool == t
  {
    if ms != [] {
      ToolsOfMembers(ms[1..]);
      assert ms == [ms[0]] + ms[1..];
      forall t ensures t in ToolsOf(ms) <==> exists m :: m in ms && m.tool == t {
        if t in ToolsOf(ms[1..]) {
          var m :| m in ms[1..] && m.tool == t;
          assert m in ms;
        }
        assert ms[0] in ms;
      }
    }
  }

  lemma NotMappedIsKept(cx: Context, s: Snapshot, p: Plan, t: Tool)
    requires IsPlan(cx, s, p) && t in s.tools && forall g :: Mapping(t, g) !in p.mappedTools
    ensures exists q :: q in p.quarantinedTools && q.original == t
  {
    ToolsConserved(cx, s, p);
    OriginalsMembers(p.quarantinedTools, t);
    ToolsOfMembers(p.mappedTools);
    assert t in multiset(s.tools);
    assert t !in ToolsOf(p.mappedTools) by {
      forall m | m in p.mappedTools ensures m.tool != t {
        assert m == Mapping(m.tool, m.target);
      }
    }
  }

  lemma {:induction false} UnmappableMembers(cx: Context, tools: seq<Tool>)
    ensures forall q :: q in Unmappable(cx, tools) ==>
              q.original in tools && ToolTarget(cx, q.original).None?
              && q.reason == if q.original.origin != "" && q.original.origin != cx.owner then ForeignOrigin else NoUniqueGroup
    decreases |tools|
  {
    if tools != [] {
      var front, t := tools[..|tools| - 1], tools[|tools| - 1];
      assert tools == front + [t];
      UnmappableMembers(cx, front);
    }
  }

  lemma UnmappableTool(cx: Context, s: Snapshot, q: Quarantined<Tool>)
    requires q in Unmappable(cx, s.tools)
    ensures ToolRefused(cx, s, q)
  {
    UnmappableMembers(cx, s.tools);
    ToolBelongs(cx, q.original);
  }

  lemma QuarantinedIsTool(cx: Context, s: Snapshot, p: Plan, q: Quarantined<Tool>)
    requires IsPlan(cx, s, p) && q in p.quarantinedTools
    ensures q.original in s.tools
  {
    ToolsConserved(cx, s, p);
    OriginalsMembers(p.quarantinedTools, q.original);
    assert q.original in multiset(s.tools);
  }

  lemma QuarantinedTool(cx: Context, s: Snapshot, p: Plan, q: Quarantined<Tool>)
    requires IsPlan(cx, s, p) && q in p.quarantinedTools
    ensures q.original in s.tools && ToolRefused(cx, s, q)
  {
    var q0 := Unmappable(cx, s.tools);
    QuarantinedIsTool(cx, s, p, q);
    var i :| 0 <= i < |p.quarantinedTools| && p.quarantinedTools[i] == q;
    if i < |q0| {
      assert q == q0[i] && q in q0;
      UnmappableTool(cx, s, q);
    } else {
      PoppedTool(cx, s, p, q, i);
    }
  }

  lemma PoppedTool(cx: Context, s: Snapshot, p: Plan, q: Quarantined<Tool>, i: nat)
    requires IsPlan(cx, s, p) && |Unmappable(cx, s.tools)| <= i < |p.quarantinedTools| && p.quarantinedTools[i] == q
    requires q.original in s.tools
    ensures ToolRefused(cx, s, q)
  {
    assert q.reason == TargetsDisagree;
    var m :| m in Candidates(cx, s.tools) && m.tool == q.original;
    ToolBelongs(cx, q.original);
    CandidatesMembers(cx, s.tools);
    CorruptMeansDisagree(cx, s, m);
    ShouldMapSomewhere(cx, s, q.original);
  }

  /** A tool that could move but for its links stands in the way. */
  lemma CorruptRefIs(cx: Context, s: Snapshot, ref: string)
    requires DistinctRefs(Candidates(cx, s.tools))
    ensures ref in CorruptRefs(cx, Candidates(cx, s.tools), s.links) <==>
              exists t :: t in s.tools && t.ref == ref && Movable(cx, t) && forall g :: !GoesTogether(cx, s, t, g)
  {
    var candidates := Candidates(cx, s.tools);
    CandidatesMembers(cx, s.tools);
    LookupFinds(candidates, ref);
    if ref in CorruptRefs(cx, candidates, s.links) {
      var m := Lookup(candidates, ref).value;
      ToolBelongs(cx, m.tool);
      CorruptMeansDisagree(cx, s, m);
      ShouldMapSomewhere(cx, s, m.tool);
    }
    if t :| t in s.tools && t.ref == ref && Movable(cx, t) && forall g :: !GoesTogether(cx, s, t, g) {
      ToolBelongs(cx, t);
      CorruptMeansDisagree(cx, s, Mapping(t, ToolTarget(cx, t).value));
      ShouldMapSomewhere(cx, s, t);
    }
  }

  /** The link goes to `g` with its tool. */
  ghost predicate LinkGoes(cx: Context, s: Snapshot, l: Link, g: int) {
    exists t :: t in s.tools && t.ref == l.ref && GoesTogether(cx, s, t, g)
  }

  lemma LinkGoesByLookup(cx: Context, s: Snapshot, p: Plan, l: Link, g: int)
    requires IsPlan(cx, s, p)
    ensures LinkGoes(cx, s, l, g) <==> Lookup(p.mappedTools, l.ref).Some? && Lookup(p.mappedTools, l.ref).value.target == g
  {
    ToolsGoWhere(cx, s, p);
    LookupFinds(p.mappedTools, l.ref);
    if Lookup(p.mappedTools, l.ref).Some? {
      var m := Lookup(p.mappedTools, l.ref).value;
      assert m == Mapping(m.tool, m.target);
    }
    if t :| t in s.tools && t.ref == l.ref && GoesTogether(cx, s, t, g) {
      assert Mapping(t, g) in p.mappedTools;
    }
  }

  /** A kept link belongs where it goes. */
  lemma LinkKeptIs(cx: Context, s: Snapshot, p: Plan, l: Link, g: int)
    requires IsPlan(cx, s, p) && l in s.links
    ensures LinkGoes(cx, s, l, g) <==>
              Keeps(cx, CorruptRefs(cx, Candidates(cx, s.tools), s.links), p.mappedTools, l) && Moved(cx, l) == l.(turn := g)
  {
    LinkGoesByLookup(cx, s, p, l, g);
    KeptByLookup(cx, s, p, l);
  }

  lemma LinkBecomes(cx: Context, s: Snapshot, p: Plan, l: Link, n: Link)
    requires IsPlan(cx, s, p) && l in s.links
    ensures Keeps(cx, CorruptRefs(cx, Candidates(cx, s.tools), s.links), p.mappedTools, l) && n == Moved(cx, l) <==>
              LinkGoes(cx, s, l, n.turn) && n == l.(turn := n.turn)
  {
    LinkKeptIs(cx, s, p, l, n.turn);
  }

  lemma InMoved(cx: Context, corrupt: set<string>, left: seq<Mapping>, links: seq<Link>, n: Link)
    ensures n in MovedLinks(cx, corrupt, left, links) <==> exists l :: l in links && Keeps(cx, corrupt, left, l) && n == Moved(cx, l)
  {
  }

  /** Some link becomes `n`. */
  ghost predicate LinkLands(cx: Context, s: Snapshot, n: Link) {
    exists l :: l in s.links && LinkGoes(cx, s, l, n.turn) && n == l.(turn := n.turn)
  }

  lemma MovedLinkIs(cx: Context, s: Snapshot, p: Plan, n: Link)
    requires IsPlan(cx, s, p)
    ensures n in p.mappedLinks <==> LinkLands(cx, s, n)
  {
    InMoved(cx, CorruptRefs(cx, Candidates(cx, s.tools), s.links), p.mappedTools, s.links, n);
    forall l | l in s.links {
      LinkBecomes(cx, s, p, l, n);
    }
  }

  lemma LeftLinkIs(cx: Context, s: Snapshot, p: Plan, l: Link)
    requires IsPlan(cx, s, p) && l in s.links && forall g :: !LinkGoes(cx, s, l, g)
    ensures exists q :: q in p.quarantinedLinks && q.original == l
  {
    var corrupt := CorruptRefs(cx, Candidates(cx, s.tools), s.links);
    LinkCounts(cx, corrupt, p.mappedTools, s.links);
    KeptByLookup(cx, s, p, l);
    if Keeps(cx, corrupt, p.mappedTools, l) {
      LinkGoesByLookup(cx, s, p, l, Lookup(p.mappedTools, l.ref).value.target);
    } else {
      assert Quarantined(LinkReason(cx, corrupt, p.mappedTools, l).value, l) in p.quarantinedLinks;
    }
  }

  /** Where every link goes: with its tool, under the tool's new turn, if the
      tool goes anywhere; and else into quarantine with the first reason that
      holds. */
  lemma LinksGoWhere(cx: Context, s: Snapshot, p: Plan)
    requires IsPlan(cx, s, p)
    ensures forall n :: n in p.mappedLinks <==> LinkLands(cx, s, n)
    ensures forall q :: q in p.quarantinedLinks ==> q.original in s.links && LinkRefused(cx, s, q)
    ensures forall l :: l in s.links && (forall g :: !LinkGoes(cx, s, l, g)) ==> exists q :: q in p.quarantinedLinks && q.original == l
  {
    forall n ensures n in p.mappedLinks <==> LinkLands(cx, s, n) {
      MovedLinkIs(cx, s, p, n);
    }
    forall q | q in p.quarantinedLinks ensures q.original in s.links && LinkRefused(cx, s, q) {
      RefusedLinkIs(cx, s, p, q);
    }
    forall l | l in s.links && (forall g :: !LinkGoes(cx, s, l, g)) ensures exists q :: q in p.quarantinedLinks && q.original == l {
      LeftLinkIs(cx, s, p, l);
    }
  }

  lemma {:induction false} RefusedReason(cx: Context, corrupt: set<string>, left: seq<Mapping>, links: seq<Link>)
    ensures forall q :: q in RefusedLinks(cx, corrupt, left, links) ==>
              q.original in links && LinkReason(cx, corrupt, left, q.original) == Some(q.reason)
    decreases |links|
  {
    if links != [] {
      var front := links[..|links| - 1];
      assert links == front + [links[|links| - 1]];
      RefusedReason(cx, corrupt, left, front);
    }
  }

  lemma ReasonReads(cx: Context, corrupt: set<string>, left: seq<Mapping>, l: Link, reason: Reason)
    requires LinkReason(cx, corrupt, left, l) == Some(reason) && Lookup(left, l.ref).None?
    ensures reason == if l.ref in corrupt then TargetsDisagree
                      else if l.origin != "" && l.origin != cx.owner then ForeignOrigin
                      else if Homeless(cx, l.turn) then NoUniqueGroup else ToolQuarantined
  {
  }

  lemma RefusedLinkIs(cx: Context, s: Snapshot, p: Plan, q: Quarantined<Link>)
    requires IsPlan(cx, s, p) && q in p.quarantinedLinks
    ensures q.original in s.links && LinkRefused(cx, s, q)
  {
    var corrupt, l := CorruptRefs(cx, Candidates(cx, s.tools), s.links), q.original;
    RefusedReason(cx, corrupt, p.mappedTools, s.links);
    KeptByLookup(cx, s, p, l);
    ReasonReads(cx, corrupt, p.mappedTools, l, q.reason);
    CorruptRefIs(cx, s, l.ref);
  }
}
