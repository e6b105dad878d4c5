/** Applying the evidence plan to the tables in place. A table is a map from
    its primary key; several conversations share it. */
module EvidenceExecutor {
  import opened Seqs
  import opened EvidencePlan

  datatype ToolRow = ToolRow(conversation: string, tool: Tool)

  datatype LinkKey = LinkKey(conversation: string, turn: int, ref: string)

  datatype ChainRow = ChainRow(conversation: string, chain: Chain)

  datatype Error =
    | ToolDisappeared
    | QuarantinedToolDisappeared
    | LinkKeyTaken
    | ChainDisappeared
    | QuarantinedChainDisappeared
    | LiveToolsDiffer
    | ToolOrdinalsDiffer
    | LinksDiffer
    | ChainsDiffer
    | NegativeOrdinals

  datatype Tables = Tables(
    tools: map<string, ToolRow>,
    links: map<LinkKey, string>,
    chains: map<string, ChainRow>)

  // ---- the statements ----

  predicate Owns(tools: map<string, ToolRow>, owner: string, ref: string) {
    ref in tools && tools[ref].conversation == owner
  }

  /** UPDATE tool_outputs SET turn for each mapped tool, in order; None when
      one of them updates no row. */
  function UpdateTools(tools: map<string, ToolRow>, owner: string, ms: seq<Mapping>): Option<map<string, ToolRow>>
    decreases ms
  {
    if ms == [] then Some(tools)
    else
      var ref := ms[0].tool.ref;
      if !Owns(tools, owner, ref) then None
      else UpdateTools(tools[ref := tools[ref].(tool := tools[ref].tool.(turn := ms[0].target))], owner, ms[1..])
  }

  /** DELETE FROM tool_outputs for each quarantined tool, in order. */
  function DeleteTools(tools: map<string, ToolRow>, owner: string, rows: seq<Tool>): Option<map<string, ToolRow>>
    decreases rows
  {
    if rows == [] then Some(tools)
    else if !Owns(tools, owner, rows[0].ref) then None
    else DeleteTools(tools - {rows[0].ref}, owner, rows[1..])
  }

  function UpdateChains(chains: map<string, ChainRow>, owner: string, ms: seq<(Chain, int)>): Option<map<string, ChainRow>>
    decreases ms
  {
    if ms == [] then Some(chains)
    else
      var ref := ms[0].0.ref;
      if !(ref in chains && chains[ref].conversation == owner) then None
      else UpdateChains(chains[ref := chains[ref].(chain := chains[ref].chain.(turn := ms[0].1))], owner, ms[1..])
  }

  function DeleteChains(chains: map<string, ChainRow>, owner: string, rows: seq<Chain>): Option<map<string, ChainRow>>
    decreases rows
  {
    if rows == [] then Some(chains)
    else if !(rows[0].ref in chains && chains[rows[0].ref].conversation == owner) then None
    else DeleteChains(chains - {rows[0].ref}, owner, rows[1..])
  }

  /** DELETE FROM turn_tool_outputs WHERE conversation_id = owner. */
  function OtherLinks(links: map<LinkKey, string>, owner: string): map<LinkKey, string> {
    map k | k in links && k.conversation != owner :: links[k]
  }

  function KeyOf(owner: string, l: Link): LinkKey {
    LinkKey(owner, l.turn, l.ref)
  }

  /** The primary key of a link leaves out its origin. */
  predicate KeysDistinct(ls: set<Link>) {
    forall a, b :: a in ls && b in ls && a.turn == b.turn && a.ref == b.ref ==> a == b
  }

  /** `links` plus one row for each of `ls`. */
  predicate InsertedLinks(before: map<LinkKey, string>, owner: string, ls: set<Link>, after: map<LinkKey, string>) {
    && (forall k :: k in before ==> k in after && after[k] == before[k])
    && (forall l :: l in ls ==> KeyOf(owner, l) in after && after[KeyOf(owner, l)] == l.origin)
    && (forall k :: k in after && k !in before ==> k.conversation == owner && Link(k.turn, k.ref, after[k]) in ls)
  }

  function LiveRefs(tools: map<string, ToolRow>, owner: string): set<string> {
    set r | r in tools && tools[r].conversation == owner
  }

  function LiveShape(tools: map<string, ToolRow>, owner: string): set<(string, int, string)> {
    set r | r in tools && tools[r].conversation == owner :: (r, tools[r].tool.turn, tools[r].tool.origin)
  }

  function PlannedRefs(ms: seq<Mapping>): set<string> {
    set m | m in ms :: m.tool.ref
  }

  function PlannedShape(ms: seq<Mapping>): set<(string, int, string)> {
    set m | m in ms :: (m.tool.ref, m.target, m.tool.origin)
  }

  function LiveLinks(links: map<LinkKey, string>, owner: string): set<Link> {
    set k | k in links && k.conversation == owner :: Link(k.turn, k.ref, links[k])
  }

  function LiveChains(chains: map<string, ChainRow>, owner: string): set<string> {
    set r | r in chains && chains[r].conversation == owner
  }

  function PlannedChains(ms: seq<(Chain, int)>): set<string> {
    set m | m in ms :: m.0.ref
  }

  predicate NegativeLive(t: Tables, owner: string) {
    || (exists r :: r in t.tools && t.tools[r].conversation == owner && t.tools[r].tool.turn < 0)
    || (exists k :: k in t.links && k.conversation == owner && k.turn < 0)
    || (exists r :: r in t.chains && t.chains[r].conversation == owner && t.chains[r].chain.turn < 0)
  }

  /** The checks at the end of the remap. */
  function Audit(t: Tables, owner: string, p: Plan): Option<Error> {
    if LiveRefs(t.tools, owner) != PlannedRefs(p.mappedTools) then Some(LiveToolsDiffer)
    else if LiveShape(t.tools, owner) != PlannedShape(p.mappedTools) then Some(ToolOrdinalsDiffer)
    else if LiveLinks(t.links, owner) != p.mappedLinks then Some(LinksDiffer)
    else if LiveChains(t.chains, owner) != PlannedChains(p.mappedChains) then Some(ChainsDiffer)
    else if NegativeLive(t, owner) then Some(NegativeOrdinals)
    else None
  }

  // ---- the executor ----

  class EvidenceStore {
    var tools: map<string, ToolRow>
    var links: map<LinkKey, string>
    var chains: map<string, ChainRow>

    function Now(): Tables
      reads this
    {
      Tables(tools, links, chains)
    }

    method UpdateMapped(owner: string, ms: seq<Mapping>) returns (ok: bool)
      modifies this`tools
      ensures ok <==> UpdateTools(old(tools), owner, ms).Some?
      ensures ok ==> tools == UpdateTools(old(tools), owner, ms).value
    {
      assert ms[0..] == ms;
      for i := 0 to |ms|
        invariant UpdateTools(tools, owner, ms[i..]) == UpdateTools(old(tools), owner, ms)
      {
        assert ms[i..][1..] == ms[i + 1..];
        var ref := ms[i].tool.ref;
        if ref !in tools || tools[ref].conversation != owner {
          return false;
        }
        tools := tools[ref := tools[ref].(tool := tools[ref].tool.(turn := ms[i].target))];
      }
      assert ms[|ms|..] == [];
      return true;
    }

    method DeleteQuarantinedTools(owner: string, qs: seq<Quarantined<Tool>>) returns (ok: bool)
      modifies this`tools
      ensures ok <==> DeleteTools(old(tools), owner, Verbatim(qs)).Some?
      ensures ok ==> tools == DeleteTools(old(tools), owner, Verbatim(qs)).value
    {
      assert qs[0..] == qs;
      for i := 0 to |qs|
        invariant DeleteTools(tools, owner, Verbatim(qs[i..])) == DeleteTools(old(tools), owner, Verbatim(qs))
      {
        assert Verbatim(qs[i..])[1..] == Verbatim(qs[i + 1..]);
        var ref := qs[i].original.ref;
        if ref !in tools || tools[ref].conversation != owner {
          return false;
        }
        tools := tools - {ref};
      }
      return true;
    }

    method UpdateMappedChains(owner: string, ms: seq<(Chain, int)>) returns (ok: bool)
      modifies this`chains
      ensures ok <==> UpdateChains(old(chains), owner, ms).Some?
      ensures ok ==> chains == UpdateChains(old(chains), owner, ms).value
    {
      assert ms[0..] == ms;
      for i := 0 to |ms|
        invariant UpdateChains(chains, owner, ms[i..]) == UpdateChains(old(chains), owner, ms)
      {
        assert ms[i..][1..] == ms[i + 1..];
        var ref := ms[i].0.ref;
        if ref !in chains || chains[ref].conversation != owner {
          return false;
        }
        chains := chains[ref := chains[ref].(chain := chains[ref].chain.(turn := ms[i].1))];
      }
      assert ms[|ms|..] == [];
      return true;
    }

    method DeleteQuarantinedChains(owner: string, qs: seq<Quarantined<Chain>>) returns (ok: bool)
      modifies this`chains
      ensures ok <==> DeleteChains(old(chains), owner, Verbatim(qs)).Some?
      ensures ok ==> chains == DeleteChains(old(chains), owner, Verbatim(qs)).value
    {
      assert qs[0..] == qs;
      for i := 0 to |qs|
        invariant DeleteChains(chains, owner, Verbatim(qs[i..])) == DeleteChains(old(chains), owner, Verbatim(qs))
      {
        assert Verbatim(qs[i..])[1..] == Verbatim(qs[i + 1..]);
        var ref := qs[i].original.ref;
        if ref !in chains || chains[ref].conversation != owner {
          return false;
        }
        chains := chains - {ref};
      }
      return true;
    }

    /** INSERT of every mapped link, in any order; a taken primary key fails. */
    method InsertMapped(owner: string, ls: set<Link>) returns (ok: bool)
      requires forall k :: k in links ==> k.conversation != owner
      modifies this`links
      ensures ok <==> KeysDistinct(ls)
      ensures ok ==> InsertedLinks(old(links), owner, ls, links)
    {
      var todo := ls;
      while todo != {}
        invariant todo <= ls
        invariant InsertedLinks(old(links), owner, ls - todo, links) && KeysDistinct(ls - todo)
      {
        var l :| l in todo;
        InsertStep(old(links), owner, ls - todo, l, links);
        assert ls - (todo - {l}) == (ls - todo) + {l};
        if KeyOf(owner, l) in links {
          return false;
        }
        links := links[KeyOf(owner, l) := l.origin];
        todo := todo - {l};
      }
      assert ls - todo == ls;
      return true;
    }

    /** `_remap_preserved_turn_evidence`. On an error the transaction rolls
        back, so only the successful outcome describes the tables. */
    method Remap(owner: string, p: Plan) returns (e: Option<Error>)
      modifies this
      ensures e == Outcome(old(Now()), owner, p)
      ensures e.None? ==> Remapped(old(Now()), owner, p, Now())
    {
      ghost var before := Now();
      links := map k | k in links && k.conversation != owner :: links[k];
      var ok := UpdateMapped(owner, p.mappedTools);
      if !ok {
        return Some(ToolDisappeared);
      }
      ok := DeleteQuarantinedTools(owner, p.quarantinedTools);
      if !ok {
        return Some(QuarantinedToolDisappeared);
      }
      ok := InsertMapped(owner, p.mappedLinks);
      if !ok {
        return Some(LinkKeyTaken);
      }
      ok := UpdateMappedChains(owner, p.mappedChains);
      if !ok {
        return Some(ChainDisappeared);
      }
      ok := DeleteQuarantinedChains(owner, p.quarantinedChains);
      if !ok {
        return Some(QuarantinedChainDisappeared);
      }
      InsertedLive(before.links, owner, p.mappedLinks, links);
      e := Audit(Tables(tools, links, chains), owner, p);
      AuditAgrees(before, owner, p, Now());
    }
  }

  lemma InsertStep(before: map<LinkKey, string>, owner: string, ls: set<Link>, l: Link, after: map<LinkKey, string>)
    requires forall k :: k in before ==> k.conversation != owner
    requires InsertedLinks(before, owner, ls, after) && KeysDistinct(ls) && l !in ls
    ensures KeyOf(owner, l) in after ==> !KeysDistinct(ls + {l})
    ensures KeyOf(owner, l) !in after ==>
              KeysDistinct(ls + {l}) && InsertedLinks(before, owner, ls + {l}, after[KeyOf(owner, l) := l.origin])
  {
    var k := KeyOf(owner, l);
    if k in after {
      assert Link(k.turn, k.ref, after[k]) in ls + {l} && l in ls + {l};
    } else {
      forall x | x in ls ensures !(x.turn == l.turn && x.ref == l.ref) {
        assert KeyOf(owner, x) in after;
      }
    }
  }

  function Verbatim<T>(qs: seq<Quarantined<T>>): seq<T> {
    seq(|qs|, i requires 0 <= i < |qs| => qs[i].original)
  }

  lemma InsertedLive(before: map<LinkKey, string>, owner: string, ls: set<Link>, after: map<LinkKey, string>)
    requires InsertedLinks(OtherLinks(before, owner), owner, ls, after)
    ensures LiveLinks(after, owner) == ls
    ensures OtherLinks(after, owner) == OtherLinks(before, owner)
  {
    forall l ensures l in LiveLinks(after, owner) <==> l in ls {
      if l in ls {
        assert KeyOf(owner, l) in after;
      }
    }
  }

  /** The tables after a remap that raised nothing. */
  ghost predicate Remapped(t: Tables, owner: string, p: Plan, t': Tables) {
    var updated := UpdateTools(t.tools, owner, p.mappedTools);
    && updated.Some? && DeleteTools(updated.value, owner, Verbatim(p.quarantinedTools)) == Some(t'.tools)
    && LiveLinks(t'.links, owner) == p.mappedLinks && OtherLinks(t'.links, owner) == OtherLinks(t.links, owner)
    && var updatedChains := UpdateChains(t.chains, owner, p.mappedChains);
       updatedChains.Some? && DeleteChains(updatedChains.value, owner, Verbatim(p.quarantinedChains)) == Some(t'.chains)
  }

  /** Which error is raised, if any. */
  ghost function Outcome(t: Tables, owner: string, p: Plan): Option<Error> {
    var updated := UpdateTools(t.tools, owner, p.mappedTools);
    if updated.None? then Some(ToolDisappeared)
    else
      var deleted := DeleteTools(updated.value, owner, Verbatim(p.quarantinedTools));
      if deleted.None? then Some(QuarantinedToolDisappeared)
      else if !KeysDistinct(p.mappedLinks) then Some(LinkKeyTaken)
      else
        var updatedChains := UpdateChains(t.chains, owner, p.mappedChains);
        if updatedChains.None? then Some(ChainDisappeared)
        else
          var chains := DeleteChains(updatedChains.value, owner, Verbatim(p.quarantinedChains));
          if chains.None? then Some(QuarantinedChainDisappeared)
          else AuditOf(deleted.value, chains.value, owner, p)
  }

  /** The final checks in terms of the plan; the links inserted are the
      planned ones by then. */
  function AuditOf(tools: map<string, ToolRow>, chains: map<string, ChainRow>, owner: string, p: Plan): Option<Error> {
    if LiveRefs(tools, owner) != PlannedRefs(p.mappedTools) then Some(LiveToolsDiffer)
    else if LiveShape(tools, owner) != PlannedShape(p.mappedTools) then Some(ToolOrdinalsDiffer)
    else if LiveChains(chains, owner) != PlannedChains(p.mappedChains) then Some(ChainsDiffer)
    else if (exists r :: r in tools && tools[r].conversation == owner && tools[r].tool.turn < 0)
         || (exists l :: l in p.mappedLinks && l.turn < 0)
         || (exists r :: r in chains && chains[r].conversation == owner && chains[r].chain.turn < 0)
    then Some(NegativeOrdinals)
    else None
  }

  lemma AuditAgrees(t: Tables, owner: string, p: Plan, t': Tables)
    requires LiveLinks(t'.links, owner) == p.mappedLinks
    ensures Audit(t', owner, p) == AuditOf(t'.tools, t'.chains, owner, p)
  {
    var ls := p.mappedLinks;
    assert (exists k :: k in t'.links && k.conversation == owner && k.turn < 0) <==> (exists l :: l in ls && l.turn < 0) by {
      if k :| k in t'.links && k.conversation == owner && k.turn < 0 {
        assert Link(k.turn, k.ref, t'.links[k]) in ls;
      }
      if l :| l in ls && l.turn < 0 {
        assert l in LiveLinks(t'.links, owner);
      }
    }
  }

  // ---- which error, on any tables ----

  predicate OwnsChain(chains: map<string, ChainRow>, owner: string, ref: string) {
    ref in chains && chains[ref].conversation == owner
  }

  lemma {:induction false} UpdatesFail(tools: map<string, ToolRow>, owner: string, ms: seq<Mapping>)
    ensures UpdateTools(tools, owner, ms).None? <==>
              exists m :: m in ms && !(m.tool.ref in tools && tools[m.tool.ref].conversation == owner)
    ensures UpdateTools(tools, owner, ms).Some? ==>
              var after := UpdateTools(tools, owner, ms).value;
              after.Keys == tools.Keys && forall r :: r in tools ==> after[r].conversation == tools[r].conversation
    decreases ms
  {
    if ms != [] {
      var m := ms[0];
      assert ms == [m] + ms[1..];
      if Owns(tools, owner, m.tool.ref) {
        UpdatesFail(tools[m.tool.ref := tools[m.tool.ref].(tool := tools[m.tool.ref].tool.(turn := m.target))], owner, ms[1..]);
      } else {
        assert m in ms;
      }
    }
  }

  lemma {:induction false} ChainUpdatesFail(chains: map<string, ChainRow>, owner: string, ms: seq<(Chain, int)>)
    ensures UpdateChains(chains, owner, ms).None? <==> exists m :: m in ms && !OwnsChain(chains, owner, m.0.ref)
    ensures UpdateChains(chains, owner, ms).Some? ==>
              var after := UpdateChains(chains, owner, ms).value;
              after.Keys == chains.Keys && forall r :: r in chains ==> after[r].conversation == chains[r].conversation
    decreases ms
  {
    if ms != [] {
      var m := ms[0];
      assert ms == [m] + ms[1..];
      if OwnsChain(chains, owner, m.0.ref) {
        ChainUpdatesFail(chains[m.0.ref := chains[m.0.ref].(chain := chains[m.0.ref].chain.(turn := m.1))], owner, ms[1..]);
      } else {
        assert m in ms;
      }
    }
  }

  /** One ref of the list is not the owner's, or comes twice. */
  predicate CannotDelete(refs: seq<string>, owned: set<string>) { Foreign(refs, owned) || Repeats(refs) }

  predicate Foreign(refs: seq<string>, owned: set<string>) { exists i :: 0 <= i < |refs| && refs[i] !in owned }

  predicate Repeats(refs: seq<string>) { exists i, j :: 0 <= i < j < |refs| && refs[i] == refs[j] }

  lemma RepeatsCons(h: string, t: seq<string>)
    ensures Repeats([h] + t) <==> h in t || Repeats(t)
  {
    var refs := [h] + t;
    assert refs[0] == h && forall i :: 0 <= i < |t| ==> refs[i + 1] == t[i];
    if i, j :| 0 <= i < j < |refs| && refs[i] == refs[j] {
      assert i > 0 ==> t[i - 1] == t[j - 1];
    }
    if i :| 0 <= i < |t| && t[i] == h {
      assert refs[0] == refs[i + 1];
    }
    if i, j :| 0 <= i < j < |t| && t[i] == t[j] {
      assert refs[i + 1] == refs[j + 1];
    }
  }

  lemma ForeignCons(h: string, t: seq<string>, owned: set<string>)
    ensures Foreign([h] + t, owned) <==> h !in owned || Foreign(t, owned)
    ensures Foreign(t, owned - {h}) <==> Foreign(t, owned) || h in t
  {
    var refs := [h] + t;
    assert refs[0] == h && forall i :: 0 <= i < |t| ==> refs[i + 1] == t[i];
    if i :| 0 <= i < |refs| && refs[i] !in owned {
      assert i > 0 ==> t[i - 1] !in owned;
    }
  }

  lemma CannotDeleteCons(h: string, t: seq<string>, owned: set<string>)
    ensures CannotDelete([h] + t, owned) <==> h !in owned || CannotDelete(t, owned - {h})
  {
    RepeatsCons(h, t);
    ForeignCons(h, t, owned);
  }

  function RefsOf(rows: seq<Tool>): (r: seq<string>)
    ensures |r| == |rows|
  {
    seq(|rows|, i requires 0 <= i < |rows| => rows[i].ref)
  }

  function ChainRefs(rows: seq<Chain>): (r: seq<string>)
    ensures |r| == |rows|
  {
    seq(|rows|, i requires 0 <= i < |rows| => rows[i].ref)
  }

  lemma {:induction false} DeletesFail(tools: map<string, ToolRow>, owner: string, rows: seq<Tool>)
    ensures DeleteTools(tools, owner, rows).None? <==> CannotDelete(RefsOf(rows), LiveRefs(tools, owner))
    decreases rows
  {
    if rows != [] {
      var h, t := rows[0], rows[1..];
      assert RefsOf(rows) == [h.ref] + RefsOf(t);
      CannotDeleteCons(h.ref, RefsOf(t), LiveRefs(tools, owner));
      if Owns(tools, owner, h.ref) {
        DeletesFail(tools - {h.ref}, owner, t);
        assert LiveRefs(tools - {h.ref}, owner) == LiveRefs(tools, owner) - {h.ref};
      }
    }
  }

  lemma {:induction false} ChainDeletesFail(chains: map<string, ChainRow>, owner: string, rows: seq<Chain>)
    ensures DeleteChains(chains, owner, rows).None? <==> CannotDelete(ChainRefs(rows), LiveChains(chains, owner))
    decreases rows
  {
    if rows != [] {
      var h, t := rows[0], rows[1..];
      assert ChainRefs(rows) == [h.ref] + ChainRefs(t);
      CannotDeleteCons(h.ref, ChainRefs(t), LiveChains(chains, owner));
      if OwnsChain(chains, owner, h.ref) {
        ChainDeletesFail(chains - {h.ref}, owner, t);
        assert LiveChains(chains - {h.ref}, owner) == LiveChains(chains, owner) - {h.ref};
      }
    }
  }

  /** What can go wrong in the statements, in their order: a mapped tool that
      is not the owner's, a quarantined one that is not or comes twice, two
      links of one turn and ref, and the same for chains. */
  predicate Fails(t: Tables, owner: string, p: Plan, e: Error) {
    var toolGone := exists m :: m in p.mappedTools && !(m.tool.ref in t.tools && t.tools[m.tool.ref].conversation == owner);
    var quarantinedGone := CannotDelete(RefsOf(Verbatim(p.quarantinedTools)), set r | r in t.tools && t.tools[r].conversation == owner);
    var keyTaken := exists a, b :: a in p.mappedLinks && b in p.mappedLinks && a != b && a.turn == b.turn && a.ref == b.ref;
    var chainGone := exists m :: m in p.mappedChains && !(m.0.ref in t.chains && t.chains[m.0.ref].conversation == owner);
    var quarantinedChainGone := CannotDelete(ChainRefs(Verbatim(p.quarantinedChains)), set r | r in t.chains && t.chains[r].conversation == owner);
    match e
    case ToolDisappeared => toolGone
    case QuarantinedToolDisappeared => !toolGone && quarantinedGone
    case LinkKeyTaken => !toolGone && !quarantinedGone && keyTaken
    case ChainDisappeared => !toolGone && !quarantinedGone && !keyTaken && chainGone
    case QuarantinedChainDisappeared => !toolGone && !quarantinedGone && !keyTaken && !chainGone && quarantinedChainGone
    case _ => !toolGone && !quarantinedGone && !keyTaken && !chainGone && !quarantinedChainGone
  }

  lemma SameOwner(before: map<string, ToolRow>, after: map<string, ToolRow>, owner: string)
    requires after.Keys == before.Keys && forall r :: r in before ==> after[r].conversation == before[r].conversation
    ensures LiveRefs(after, owner) == LiveRefs(before, owner)
  {
  }

  lemma SameChainOwner(before: map<string, ChainRow>, after: map<string, ChainRow>, owner: string)
    requires after.Keys == before.Keys && forall r :: r in before ==> after[r].conversation == before[r].conversation
    ensures LiveChains(after, owner) == LiveChains(before, owner)
  {
  }

  /** On any tables: the error raised is the first of those, or one of the
      closing checks when none of them applies. */
  lemma RemapFailsHow(t: Tables, owner: string, p: Plan)
    ensures Outcome(t, owner, p).Some? ==> Fails(t, owner, p, Outcome(t, owner, p).value)
    ensures forall e :: e in {ToolDisappeared, QuarantinedToolDisappeared, LinkKeyTaken, ChainDisappeared, QuarantinedChainDisappeared} ==>
              (Fails(t, owner, p, e) <==> Outcome(t, owner, p) == Some(e))
  {
    UpdatesFail(t.tools, owner, p.mappedTools);
    var updated := UpdateTools(t.tools, owner, p.mappedTools);
    if updated.Some? {
      SameOwner(t.tools, updated.value, owner);
      DeletesFail(updated.value, owner, Verbatim(p.quarantinedTools));
    }
    ChainUpdatesFail(t.chains, owner, p.mappedChains);
    var updatedChains := UpdateChains(t.chains, owner, p.mappedChains);
    if updatedChains.Some? {
      SameChainOwner(t.chains, updatedChains.value, owner);
      ChainDeletesFail(updatedChains.value, owner, Verbatim(p.quarantinedChains));
    }
  }

  /** A live tool row of the owner that was not mapped, or a mapped tool
      without one. */
  predicate ToolsDiffer(tools: map<string, ToolRow>, owner: string, ms: seq<Mapping>) {
    || (exists r :: r in tools && tools[r].conversation == owner && forall m :: m in ms ==> m.tool.ref != r)
    || (exists m :: m in ms && !(m.tool.ref in tools && tools[m.tool.ref].conversation == owner))
  }

  /** The row stands at the mapped turn, under the mapped origin. */
  predicate Stands(tools: map<string, ToolRow>, owner: string, m: Mapping) {
    && m.tool.ref in tools && tools[m.tool.ref].conversation == owner
    && tools[m.tool.ref].tool.turn == m.target && tools[m.tool.ref].tool.origin == m.tool.origin
  }

  predicate OrdinalsDiffer(tools: map<string, ToolRow>, owner: string, ms: seq<Mapping>) {
    || (exists r :: r in tools && tools[r].conversation == owner && forall m :: m in ms ==> !(m.tool.ref == r && Stands(tools, owner, m)))
    || (exists m :: m in ms && !Stands(tools, owner, m))
  }

  predicate ChainSetsDiffer(chains: map<string, ChainRow>, owner: string, ms: seq<(Chain, int)>) {
    || (exists r :: r in chains && chains[r].conversation == owner && forall m :: m in ms ==> m.0.ref != r)
    || (exists m :: m in ms && !(m.0.ref in chains && chains[m.0.ref].conversation == owner))
  }

  lemma RefsAgree(tools: map<string, ToolRow>, owner: string, ms: seq<Mapping>)
    ensures LiveRefs(tools, owner) == PlannedRefs(ms) <==> !ToolsDiffer(tools, owner, ms)
  {
    if !ToolsDiffer(tools, owner, ms) {
      assert forall r :: r in LiveRefs(tools, owner) <==> r in PlannedRefs(ms);
    }
    if LiveRefs(tools, owner) == PlannedRefs(ms) {
      forall r | r in tools && tools[r].conversation == owner ensures exists m :: m in ms && m.tool.ref == r {
        assert r in PlannedRefs(ms);
      }
      forall m | m in ms ensures m.tool.ref in LiveRefs(tools, owner) {
        assert m.tool.ref in PlannedRefs(ms);
      }
    }
  }

  lemma ShapesStand(tools: map<string, ToolRow>, owner: string, ms: seq<Mapping>)
    ensures LiveShape(tools, owner) == PlannedShape(ms) <==> !OrdinalsDiffer(tools, owner, ms)
  {
    if LiveShape(tools, owner) == PlannedShape(ms) {
      forall r | r in tools && tools[r].conversation == owner ensures exists m :: m in ms && m.tool.ref == r && Stands(tools, owner, m) {
        assert (r, tools[r].tool.turn, tools[r].tool.origin) in PlannedShape(ms);
      }
      forall m | m in ms ensures Stands(tools, owner, m) {
        assert (m.tool.ref, m.target, m.tool.origin) in LiveShape(tools, owner);
      }
    }
    if !OrdinalsDiffer(tools, owner, ms) {
      forall x ensures x in LiveShape(tools, owner) <==> x in PlannedShape(ms) {
        StandsInBoth(tools, owner, ms, x);
      }
    }
  }

  lemma StandsInBoth(tools: map<string, ToolRow>, owner: string, ms: seq<Mapping>, x: (string, int, string))
    requires !OrdinalsDiffer(tools, owner, ms)
    ensures x in LiveShape(tools, owner) <==> x in PlannedShape(ms)
  {
    if x in LiveShape(tools, owner) {
      var r :| r in tools && tools[r].conversation == owner && x == (r, tools[r].tool.turn, tools[r].tool.origin);
      var m :| m in ms && m.tool.ref == r && Stands(tools, owner, m);
      assert x == (m.tool.ref, m.target, m.tool.origin);
    }
    if x in PlannedShape(ms) {
      var m :| m in ms && x == (m.tool.ref, m.target, m.tool.origin);
      assert Stands(tools, owner, m);
    }
  }

  lemma ChainsAgree(chains: map<string, ChainRow>, owner: string, ms: seq<(Chain, int)>)
    ensures LiveChains(chains, owner) == PlannedChains(ms) <==> !ChainSetsDiffer(chains, owner, ms)
  {
    if !ChainSetsDiffer(chains, owner, ms) {
      assert forall r :: r in LiveChains(chains, owner) <==> r in PlannedChains(ms);
    }
    if LiveChains(chains, owner) == PlannedChains(ms) {
      forall r | r in chains && chains[r].conversation == owner ensures exists m :: m in ms && m.0.ref == r {
        assert r in PlannedChains(ms);
      }
      forall m | m in ms ensures m.0.ref in LiveChains(chains, owner) {
        assert m.0.ref in PlannedChains(ms);
      }
    }
  }

  /** The closing checks, whatever the tables hold by then. */
  lemma AuditExactly(tools: map<string, ToolRow>, chains: map<string, ChainRow>, owner: string, p: Plan)
    ensures AuditOf(tools, chains, owner, p) ==
            if ToolsDiffer(tools, owner, p.mappedTools) then Some(LiveToolsDiffer)
            else if OrdinalsDiffer(tools, owner, p.mappedTools) then Some(ToolOrdinalsDiffer)
            else if ChainSetsDiffer(chains, owner, p.mappedChains) then Some(ChainsDiffer)
            else if (exists m :: m in p.mappedTools && m.target < 0) || (exists l :: l in p.mappedLinks && l.turn < 0)
                 || (exists r :: r in chains && chains[r].conversation == owner && chains[r].chain.turn < 0)
            then Some(NegativeOrdinals)
            else None
  {
    RefsAgree(tools, owner, p.mappedTools);
    ShapesStand(tools, owner, p.mappedTools);
    ChainsAgree(chains, owner, p.mappedChains);
    if !OrdinalsDiffer(tools, owner, p.mappedTools) {
      TurnsStand(tools, owner, p.mappedTools);
    }
  }

  lemma TurnsStand(tools: map<string, ToolRow>, owner: string, ms: seq<Mapping>)
    requires !OrdinalsDiffer(tools, owner, ms)
    ensures (exists r :: r in tools && tools[r].conversation == owner && tools[r].tool.turn < 0) <==> exists m :: m in ms && m.target < 0
  {
    if r :| r in tools && tools[r].conversation == owner && tools[r].tool.turn < 0 {
      var m :| m in ms && m.tool.ref == r && Stands(tools, owner, m);
    }
    if m :| m in ms && m.target < 0 {
      assert Stands(tools, owner, m);
    }
  }

  // ---- on the tables the plan was made from ----

  predicate DistinctTools(ts: seq<Tool>) {
    forall i, j :: 0 <= i < j < |ts| ==> ts[i].ref != ts[j].ref
  }

  predicate DistinctChains(cs: seq<Chain>) {
    forall i, j :: 0 <= i < j < |cs| ==> cs[i].ref != cs[j].ref
  }

  /** The owner's rows are exactly the snapshot's. */
  ghost predicate Matches(t: Tables, owner: string, s: Snapshot) {
    && DistinctTools(s.tools) && DistinctChains(s.chains)
    && (forall x :: x in s.tools ==> x.ref in t.tools && t.tools[x.ref] == ToolRow(owner, x))
    && (forall r :: r in t.tools && t.tools[r].conversation == owner ==> t.tools[r].tool in s.tools && t.tools[r].tool.ref == r)
    && (forall l :: l in s.links <==> l in LiveLinks(t.links, owner))
    && (forall x :: x in s.chains ==> x.ref in t.chains && t.chains[x.ref] == ChainRow(owner, x))
    && (forall r :: r in t.chains && t.chains[r].conversation == owner ==> t.chains[r].chain in s.chains && t.chains[r].chain.ref == r)
  }

  /** Updating distinct refs that are all present changes their turns only. */
  lemma {:induction false} UpdatesApply(tools: map<string, ToolRow>, owner: string, ms: seq<Mapping>)
    requires DistinctRefs(ms)
    requires forall m :: m in ms ==> Owns(tools, owner, m.tool.ref)
    ensures UpdateTools(tools, owner, ms).Some?
    ensures var after := UpdateTools(tools, owner, ms).value;
            && after.Keys == tools.Keys
            && (forall r :: r in tools && Lookup(ms, r).None? ==> after[r] == tools[r])
            && (forall r :: r in tools && Lookup(ms, r).Some? ==>
                  after[r] == tools[r].(tool := tools[r].tool.(turn := Lookup(ms, r).value.target)))
    decreases ms
  {
    if ms != [] {
      var m, t := ms[0], ms[1..];
      assert ms == [m] + t && m in ms;
      TailApart(ms);
      var next := tools[m.tool.ref := tools[m.tool.ref].(tool := tools[m.tool.ref].tool.(turn := m.target))];
      forall x | x in t ensures Owns(next, owner, x.tool.ref) {
        assert x in ms;
      }
      UpdatesApply(next, owner, t);
      LookupFinds(t, m.tool.ref);
    }
  }

  lemma {:induction false} DeletesApply(tools: map<string, ToolRow>, owner: string, rows: seq<Tool>)
    requires DistinctTools(rows)
    requires forall x :: x in rows ==> Owns(tools, owner, x.ref)
    ensures DeleteTools(tools, owner, rows).Some?
    ensures var after := DeleteTools(tools, owner, rows).value;
            && (forall r :: r in after <==> r in tools && forall x :: x in rows ==> x.ref != r)
            && (forall r :: r in after ==> after[r] == tools[r])
    decreases rows
  {
    if rows != [] {
      var h, t := rows[0], rows[1..];
      assert rows == [h] + t && h in rows;
      forall x | x in t ensures Owns(tools - {h.ref}, owner, x.ref) {
        var i :| 0 <= i < |t| && t[i] == x;
        assert rows[i + 1] == x && x in rows;
      }
      DeletesApply(tools - {h.ref}, owner, t);
    }
  }

  lemma ChainsApart(rows: seq<Chain>)
    requires rows != [] && DistinctChains(rows)
    ensures DistinctChains(rows[1..])
    ensures forall x :: x in rows[1..] ==> x in rows && x.ref != rows[0].ref
  {
    forall x | x in rows[1..] ensures x in rows && x.ref != rows[0].ref {
      var i :| 0 <= i < |rows[1..]| && rows[1..][i] == x;
      assert rows[i + 1] == x;
    }
  }

  lemma {:induction false} ChainDeletesApply(chains: map<string, ChainRow>, owner: string, rows: seq<Chain>)
    requires DistinctChains(rows)
    requires forall x :: x in rows ==> x.ref in chains && chains[x.ref].conversation == owner
    ensures DeleteChains(chains, owner, rows).Some?
    ensures var after := DeleteChains(chains, owner, rows).value;
            && (forall r :: r in after <==> r in chains && forall x :: x in rows ==> x.ref != r)
            && (forall r :: r in after ==> after[r] == chains[r])
    decreases rows
  {
    if rows != [] {
      var h, t := rows[0], rows[1..];
      assert rows == [h] + t && h in rows;
      ChainsApart(rows);
      ChainDeletesApply(chains - {h.ref}, owner, t);
    }
  }

  // ---- splitting the snapshot's tools ----

  lemma {:induction false} VerbatimIsOriginals<T>(qs: seq<Quarantined<T>>)
    ensures Verbatim(qs) == Originals(qs)
    decreases |qs|
  {
    if qs != [] {
      var front := qs[..|qs| - 1];
      VerbatimIsOriginals(front);
      assert Verbatim(qs) == Verbatim(front) + [qs[|qs| - 1].original];
    }
  }

  lemma {:induction false} SplitDistinct(ts: seq<Tool>, a: seq<Tool>, b: seq<Tool>)
    requires DistinctTools(ts) && multiset(ts) == multiset(a) + multiset(b)
    ensures DistinctTools(b)
    ensures forall x, y :: x in a && y in b ==> x.ref != y.ref
    ensures forall x :: x in ts <==> x in a || x in b
  {
    forall x ensures x in ts <==> x in a || x in b {
      assert x in ts <==> x in multiset(ts);
      assert (x in a <==> x in multiset(a)) && (x in b <==> x in multiset(b));
    }
    forall x, y | x in a && y in b ensures x.ref != y.ref {
      if x.ref == y.ref {
        SameRefSameTool(ts, x, y);
        InBoth(a, b, x);
        OnlyOnce(ts, x);
      }
    }
    forall i, j | 0 <= i < j < |b| ensures b[i].ref != b[j].ref {
      if b[i].ref == b[j].ref {
        SameRefSameTool(ts, b[i], b[j]);
        AtTwo(b, i, j);
        OnlyOnce(ts, b[i]);
      }
    }
  }

  lemma InBoth(a: seq<Tool>, b: seq<Tool>, x: Tool)
    requires x in a && x in b
    ensures (multiset(a) + multiset(b))[x] >= 2
  {
    assert x in multiset(a) && x in multiset(b);
  }

  lemma AtTwo(b: seq<Tool>, i: nat, j: nat)
    requires i < j < |b| && b[i] == b[j]
    ensures multiset(b)[b[i]] >= 2
  {
    assert b == b[..j] + [b[j]] + b[j + 1..];
    assert b[i] in b[..j];
    assert b[i] in multiset(b[..j]);
  }

  lemma SameRefSameTool(ts: seq<Tool>, x: Tool, y: Tool)
    requires DistinctTools(ts) && x in ts && y in ts && x.ref == y.ref
    ensures x == y
  {
  }

  lemma {:induction false} OnlyOnce(ts: seq<Tool>, x: Tool)
    requires DistinctTools(ts)
    ensures multiset(ts)[x] <= 1
  {
    if ts != [] {
      OnlyOnce(ts[1..], x);
      assert ts == [ts[0]] + ts[1..];
      if ts[0] == x {
        assert x !in ts[1..];
        assert multiset(ts[1..])[x] == 0;
      }
    }
  }

  // ---- the result ----

  predicate TargetsNonNegative(cx: Context) {
    forall k :: k in cx.groups && cx.groups[k].Some? ==> cx.groups[k].value >= 0
  }

  /** What the plan's two tool lists are on a snapshot with unique refs. */
  lemma PlanSplitsTools(cx: Context, s: Snapshot, p: Plan)
    requires IsPlan(cx, s, p) && DistinctTools(s.tools)
    ensures DistinctTools(Verbatim(p.quarantinedTools))
    ensures forall m, y :: m in p.mappedTools && y in Verbatim(p.quarantinedTools) ==> m.tool.ref != y.ref
    ensures forall m :: m in p.mappedTools ==> m.tool in s.tools
    ensures forall x :: x in s.tools ==> (exists m :: m in p.mappedTools && m.tool == x) || x in Verbatim(p.quarantinedTools)
    ensures forall y :: y in Verbatim(p.quarantinedTools) ==> y in s.tools
  {
    ToolsConserved(cx, s, p);
    VerbatimIsOriginals(p.quarantinedTools);
    ToolsOfMembers(p.mappedTools);
    SplitDistinct(s.tools, ToolsOf(p.mappedTools), Originals(p.quarantinedTools));
    forall m, y | m in p.mappedTools && y in Verbatim(p.quarantinedTools) ensures m.tool.ref != y.ref {
      assert m.tool in ToolsOf(p.mappedTools);
    }
    forall m | m in p.mappedTools ensures m.tool in s.tools {
      assert m.tool in ToolsOf(p.mappedTools);
    }
  }

  /** The tool table after both passes, row by row. */
  ghost predicate ToolsFinal(t: Tables, owner: string, p: Plan, after: map<string, ToolRow>) {
    && (forall r :: r in after <==> r in t.tools && (t.tools[r].conversation != owner || Lookup(p.mappedTools, r).Some?))
    && (forall r :: r in after ==>
          after[r] == if Lookup(p.mappedTools, r).Some?
                      then ToolRow(owner, Lookup(p.mappedTools, r).value.tool.(turn := Lookup(p.mappedTools, r).value.target))
                      else t.tools[r])
  }

  lemma ToolsEndAsPlanned(cx: Context, s: Snapshot, p: Plan, t: Tables)
    requires IsPlan(cx, s, p) && Matches(t, cx.owner, s)
    ensures var updated := UpdateTools(t.tools, cx.owner, p.mappedTools);
            && updated.Some?
            && var deleted := DeleteTools(updated.value, cx.owner, Verbatim(p.quarantinedTools));
               deleted.Some? && ToolsFinal(t, cx.owner, p, deleted.value)
  {
    PlanSplitsTools(cx, s, p);
    UpdatesApply(t.tools, cx.owner, p.mappedTools);
    var updated := UpdateTools(t.tools, cx.owner, p.mappedTools).value;
    forall x | x in Verbatim(p.quarantinedTools) ensures Owns(updated, cx.owner, x.ref) {
      LookupFinds(p.mappedTools, x.ref);
      assert t.tools[x.ref] == ToolRow(cx.owner, x);
    }
    DeletesApply(updated, cx.owner, Verbatim(p.quarantinedTools));
    forall r | r in t.tools
      ensures Lookup(p.mappedTools, r).Some? ==> t.tools[r] == ToolRow(cx.owner, Lookup(p.mappedTools, r).value.tool)
      ensures (forall x :: x in Verbatim(p.quarantinedTools) ==> x.ref != r)
         <==> t.tools[r].conversation != cx.owner || Lookup(p.mappedTools, r).Some?
    {
      LookupFinds(p.mappedTools, r);
      if t.tools[r].conversation == cx.owner {
        assert t.tools[r].tool in s.tools;
      }
    }
    forall m | m in p.mappedTools ensures m.tool.ref in t.tools {
      assert m.tool in s.tools;
    }
  }

  /** The mapped tools and the live rows, one to one. */
  lemma LiveRowsArePlanned(cx: Context, s: Snapshot, p: Plan, t: Tables, after: map<string, ToolRow>)
    requires IsPlan(cx, s, p) && Matches(t, cx.owner, s) && ToolsFinal(t, cx.owner, p, after)
    ensures forall m :: m in p.mappedTools ==>
              m.tool.ref in after && after[m.tool.ref] == ToolRow(cx.owner, m.tool.(turn := m.target))
    ensures forall r :: r in after && after[r].conversation == cx.owner ==>
              exists m :: m in p.mappedTools && m.tool.ref == r
  {
    PlanSplitsTools(cx, s, p);
    forall m | m in p.mappedTools
      ensures m.tool.ref in after && after[m.tool.ref] == ToolRow(cx.owner, m.tool.(turn := m.target))
    {
      LookupFinds(p.mappedTools, m.tool.ref);
      assert m.tool in s.tools;
    }
    forall r | r in after && after[r].conversation == cx.owner ensures exists m :: m in p.mappedTools && m.tool.ref == r {
      LookupFinds(p.mappedTools, r);
      assert Lookup(p.mappedTools, r).Some?;
      var m := Lookup(p.mappedTools, r).value;
      assert m in p.mappedTools;
    }
  }

  lemma ShapesAgree(cx: Context, s: Snapshot, p: Plan, t: Tables, after: map<string, ToolRow>)
    requires IsPlan(cx, s, p) && Matches(t, cx.owner, s) && ToolsFinal(t, cx.owner, p, after)
    ensures LiveRefs(after, cx.owner) == PlannedRefs(p.mappedTools)
    ensures LiveShape(after, cx.owner) == PlannedShape(p.mappedTools)
  {
    LiveRowsArePlanned(cx, s, p, t, after);
    ShapesEqual(cx.owner, p.mappedTools, after);
  }

  lemma LiveTurnsNonNegative(cx: Context, s: Snapshot, p: Plan, t: Tables, after: map<string, ToolRow>)
    requires IsPlan(cx, s, p) && Matches(t, cx.owner, s) && ToolsFinal(t, cx.owner, p, after) && TargetsNonNegative(cx)
    ensures forall r :: r in after && after[r].conversation == cx.owner ==> after[r].tool.turn >= 0
  {
    LiveRowsArePlanned(cx, s, p, t, after);
    forall m | m in p.mappedTools ensures m.target >= 0 {
      TargetNonNegative(cx, s, p, m);
    }
    forall r | r in after && after[r].conversation == cx.owner ensures after[r].tool.turn >= 0 {
      var m :| m in p.mappedTools && m.tool.ref == r;
    }
  }

  lemma TargetNonNegative(cx: Context, s: Snapshot, p: Plan, m: Mapping)
    requires IsPlan(cx, s, p) && TargetsNonNegative(cx) && m in p.mappedTools
    ensures m.target >= 0
  {
    assert m == Mapping(m.tool, m.target);
    MappedExactly(cx, s, p, m.tool, m.target);
  }

  lemma ShapesEqual(owner: string, ms: seq<Mapping>, after: map<string, ToolRow>)
    requires forall m :: m in ms ==> m.tool.ref in after && after[m.tool.ref] == ToolRow(owner, m.tool.(turn := m.target))
    requires forall r :: r in after && after[r].conversation == owner ==> exists m :: m in ms && m.tool.ref == r
    ensures LiveRefs(after, owner) == PlannedRefs(ms)
    ensures LiveShape(after, owner) == PlannedShape(ms)
  {
    forall r ensures r in LiveRefs(after, owner) <==> r in PlannedRefs(ms) {
    }
    forall x ensures x in LiveShape(after, owner) <==> x in PlannedShape(ms) {
      if x in LiveShape(after, owner) {
        var r :| r in after && after[r].conversation == owner && x == (r, after[r].tool.turn, after[r].tool.origin);
        var m :| m in ms && m.tool.ref == r;
        assert x == (m.tool.ref, m.target, m.tool.origin);
      }
      if x in PlannedShape(ms) {
        var m :| m in ms && x == (m.tool.ref, m.target, m.tool.origin);
        assert m.tool.ref in after;
      }
    }
  }

  /** The owner's chains are gone, the others as they were. */
  ghost predicate ChainsFinal(t: Tables, owner: string, chains: map<string, ChainRow>) {
    && (forall r :: r in chains ==> chains[r].conversation != owner)
    && (forall r :: r in t.chains && t.chains[r].conversation != owner ==> r in chains && chains[r] == t.chains[r])
  }

  lemma ChainsEndAsPlanned(cx: Context, s: Snapshot, p: Plan, t: Tables)
    requires IsPlan(cx, s, p) && Matches(t, cx.owner, s)
    ensures UpdateChains(t.chains, cx.owner, p.mappedChains) == Some(t.chains)
    ensures DeleteChains(t.chains, cx.owner, Verbatim(p.quarantinedChains)).Some?
    ensures ChainsFinal(t, cx.owner, DeleteChains(t.chains, cx.owner, Verbatim(p.quarantinedChains)).value)
    ensures PlannedChains(p.mappedChains) == {}
  {
    assert Verbatim(p.quarantinedChains) == s.chains;
    ChainDeletesApply(t.chains, cx.owner, s.chains);
  }

  lemma LinkTurnsNonNegative(cx: Context, s: Snapshot, p: Plan)
    requires IsPlan(cx, s, p) && TargetsNonNegative(cx)
    ensures forall l :: l in p.mappedLinks ==> l.turn >= 0
  {
    forall n | n in p.mappedLinks ensures n.turn >= 0 {
      var corrupt := CorruptRefs(cx, Candidates(cx, s.tools), s.links);
      var l :| l in s.links && Keeps(cx, corrupt, p.mappedTools, l) && n == Moved(cx, l);
    }
  }

  /** Run on the tables the plan was made from, with every target a real
      group, the executor raises nothing if and only if no two mapped links
      share a turn and a tool. The one thing that can go wrong is the primary
      key of the link table, which two links differing only in how they name
      the owner as their origin both claim. */
  lemma RemapSucceedsExactly(cx: Context, s: Snapshot, p: Plan, t: Tables)
    requires IsPlan(cx, s, p) && Matches(t, cx.owner, s) && TargetsNonNegative(cx)
    ensures Outcome(t, cx.owner, p) == if KeysDistinct(p.mappedLinks) then None else Some(LinkKeyTaken)
  {
    ToolsEndAsPlanned(cx, s, p, t);
    ChainsEndAsPlanned(cx, s, p, t);
    var updated := UpdateTools(t.tools, cx.owner, p.mappedTools).value;
    var after := DeleteTools(updated, cx.owner, Verbatim(p.quarantinedTools)).value;
    var chains := DeleteChains(t.chains, cx.owner, Verbatim(p.quarantinedChains)).value;
    AuditPasses(cx, s, p, t, after, chains);
  }

  lemma AuditPasses(cx: Context, s: Snapshot, p: Plan, t: Tables, after: map<string, ToolRow>, chains: map<string, ChainRow>)
    requires IsPlan(cx, s, p) && Matches(t, cx.owner, s) && TargetsNonNegative(cx) && ToolsFinal(t, cx.owner, p, after)
    requires ChainsFinal(t, cx.owner, chains) && PlannedChains(p.mappedChains) == {}
    ensures AuditOf(after, chains, cx.owner, p) == None
  {
    ShapesAgree(cx, s, p, t, after);
    LiveTurnsNonNegative(cx, s, p, t, after);
    LinkTurnsNonNegative(cx, s, p);
    assert LiveChains(chains, cx.owner) == {};
  }

  /** Every original tool is live in its new place or verbatim in quarantine. */
  ghost predicate ToolsAccounted(cx: Context, s: Snapshot, p: Plan, after: map<string, ToolRow>) {
    forall x :: x in s.tools ==>
      || (ToolTarget(cx, x).Some? && x.ref in after && after[x.ref] == ToolRow(cx.owner, x.(turn := ToolTarget(cx, x).value)))
      || x in Verbatim(p.quarantinedTools)
  }

  lemma ToolsEnd(cx: Context, s: Snapshot, p: Plan, t: Tables, after: map<string, ToolRow>)
    requires IsPlan(cx, s, p) && Matches(t, cx.owner, s)
    requires var updated := UpdateTools(t.tools, cx.owner, p.mappedTools);
             updated.Some? && DeleteTools(updated.value, cx.owner, Verbatim(p.quarantinedTools)) == Some(after)
    ensures ToolsFinal(t, cx.owner, p, after) && ToolsAccounted(cx, s, p, after)
  {
    ToolsEndAsPlanned(cx, s, p, t);
    EveryToolKept(cx, s, p, t, after);
  }

  lemma ChainsEnd(cx: Context, s: Snapshot, p: Plan, t: Tables, chains: map<string, ChainRow>)
    requires IsPlan(cx, s, p) && Matches(t, cx.owner, s)
    requires var updated := UpdateChains(t.chains, cx.owner, p.mappedChains);
             updated.Some? && DeleteChains(updated.value, cx.owner, Verbatim(p.quarantinedChains)) == Some(chains)
    ensures ChainsFinal(t, cx.owner, chains)
  {
    ChainsEndAsPlanned(cx, s, p, t);
  }

  /** And then the owner's rows are exactly the planned ones, the other
      conversations' rows are untouched, and every original row is live in its
      new place or verbatim in quarantine. */
  lemma RemapEndsAsPlanned(cx: Context, s: Snapshot, p: Plan, t: Tables, t': Tables)
    requires IsPlan(cx, s, p) && Matches(t, cx.owner, s) && Remapped(t, cx.owner, p, t')
    ensures ToolsFinal(t, cx.owner, p, t'.tools) && ToolsAccounted(cx, s, p, t'.tools)
    ensures LiveLinks(t'.links, cx.owner) == p.mappedLinks && OtherLinks(t'.links, cx.owner) == OtherLinks(t.links, cx.owner)
    ensures ChainsFinal(t, cx.owner, t'.chains) && Verbatim(p.quarantinedChains) == s.chains
  {
    ToolsEnd(cx, s, p, t, t'.tools);
    ChainsEnd(cx, s, p, t, t'.chains);
  }

  lemma EveryToolKept(cx: Context, s: Snapshot, p: Plan, t: Tables, after: map<string, ToolRow>)
    requires IsPlan(cx, s, p) && Matches(t, cx.owner, s) && ToolsFinal(t, cx.owner, p, after)
    ensures ToolsAccounted(cx, s, p, after)
  {
    PlanSplitsTools(cx, s, p);
    CandidatesMembers(cx, s.tools);
    LiveRowsArePlanned(cx, s, p, t, after);
    forall x | x in s.tools && x !in Verbatim(p.quarantinedTools)
      ensures ToolTarget(cx, x).Some? && x.ref in after && after[x.ref] == ToolRow(cx.owner, x.(turn := ToolTarget(cx, x).value))
    {
      var m :| m in p.mappedTools && m.tool == x;
      assert ToolTarget(cx, m.tool) == Some(m.target);
    }
  }

  // ---- a snapshot on which the key is claimed twice ----

  const TWICE := Context("owner", map[7 := Some(70), 8 := Some(70)])

  const TWICE_TOOL := Tool("t", 7, "", "")

  const TWICE_SNAPSHOT := Snapshot([TWICE_TOOL], [Link(7, "t", ""), Link(8, "t", "owner")], [])

  const TWICE_TABLES := Tables(
    map["t" := ToolRow("owner", TWICE_TOOL)],
    map[LinkKey("owner", 7, "t") := "", LinkKey("owner", 8, "t") := "owner"],
    map[])

  /** Two old turns of one new group, one link naming the owner as its origin
      and one leaving it empty: the tables can hold this, the plan keeps both
      links, and the executor stops at the second. */
  lemma LinkKeysCanCollide(p: Plan)
    requires IsPlan(TWICE, TWICE_SNAPSHOT, p)
    ensures Matches(TWICE_TABLES, "owner", TWICE_SNAPSHOT)
    ensures Outcome(TWICE_TABLES, "owner", p) == Some(LinkKeyTaken)
  {
    TwiceKeepsBoth(p);
    TwiceMatches();
    SharedKey(p.mappedLinks);
    RemapSucceedsExactly(TWICE, TWICE_SNAPSHOT, p, TWICE_TABLES);
  }

  lemma SharedKey(ls: set<Link>)
    requires Link(70, "t", "") in ls && Link(70, "t", "owner") in ls
    ensures !KeysDistinct(ls)
  {
    assert |""| != |"owner"|;
  }

  lemma TwiceAgrees()
    ensures LinksAgree(TWICE, TWICE_SNAPSHOT, TWICE_TOOL)
  {
  }

  lemma TwiceKeepsBoth(p: Plan)
    requires IsPlan(TWICE, TWICE_SNAPSHOT, p)
    ensures Link(70, "t", "") in p.mappedLinks && Link(70, "t", "owner") in p.mappedLinks
  {
    var a, b := Link(7, "t", ""), Link(8, "t", "owner");
    assert TWICE_SNAPSHOT.links == [a, b] && a in [a, b] && b in [a, b];
    TwiceAgrees();
    MappedExactly(TWICE, TWICE_SNAPSHOT, p, TWICE_TOOL, 70);
    assert Mapping(TWICE_TOOL, 70) in p.mappedTools;
    LinksFollowTools(TWICE, TWICE_SNAPSHOT, p, a);
    LinksFollowTools(TWICE, TWICE_SNAPSHOT, p, b);
  }

  lemma TwiceMatches()
    ensures Matches(TWICE_TABLES, "owner", TWICE_SNAPSHOT)
  {
    var t := TWICE_TABLES;
    assert LinkKey("owner", 7, "t") in t.links && LinkKey("owner", 8, "t") in t.links;
    forall l ensures l in TWICE_SNAPSHOT.links <==> l in LiveLinks(t.links, "owner") {
      if l in LiveLinks(t.links, "owner") {
        var k :| k in t.links && k.conversation == "owner" && l == Link(k.turn, k.ref, t.links[k]);
        assert k == LinkKey("owner", 7, "t") || k == LinkKey("owner", 8, "t");
      }
    }
  }
}
