/** Actor cards during the canonical swap. Deleting a canonical turn fires a
    trigger that deletes every card entry citing it; the repair detaches those
    citations first. */
module ActorCards {
  import opened Seqs

  datatype CardEntry = CardEntry(tenant: string, actor: string)

  /** A citation of a canonical turn, or of a fact, by a card entry. */
  datatype Source = Source(entry: string, tenant: string, cited: string)

  /** `turns` and `facts` give the conversation each id belongs to; `invalid`
      are the (tenant, actor) profiles marked for a rebuild. */
  datatype Cards = Cards(
    turns: map<string, string>,
    facts: map<string, string>,
    entries: map<string, CardEntry>,
    turnSources: set<Source>,
    factSources: set<Source>,
    invalid: set<(string, string)>)

  datatype Error = CrossTenantEvidence | SourcesRemainAttached | OtherSourcesChanged

  /** The foreign key from a source to its entry, tenant included. */
  predicate Anchored(entries: map<string, CardEntry>, s: Source) {
    s.entry in entries && entries[s.entry].tenant == s.tenant
  }

  predicate Consistent(c: Cards) {
    && (forall s :: s in c.turnSources ==> Anchored(c.entries, s) && s.cited in c.turns)
    && (forall s :: s in c.factSources ==> Anchored(c.entries, s) && s.cited in c.facts)
  }

  predicate Cites(within: map<string, string>, s: Source, owner: string) {
    s.cited in within && within[s.cited] == owner
  }

  predicate CrossTenant(c: Cards, owner: string, tenant: string) {
    || (exists s :: s in c.turnSources && Cites(c.turns, s, owner) && s.tenant != tenant)
    || (exists s :: s in c.factSources && Cites(c.facts, s, owner) && s.tenant != tenant)
  }

  /** Entries of the tenant that cite the owner's history, and all entries of
      the candidate actors. */
  function Affected(c: Cards, owner: string, tenant: string, candidates: set<string>): set<string> {
    (set s | s in c.turnSources && Cites(c.turns, s, owner) && s.tenant == tenant && Anchored(c.entries, s) :: s.entry) +
    (set s | s in c.factSources && Cites(c.facts, s, owner) && s.tenant == tenant && Anchored(c.entries, s) :: s.entry) +
    (set e | e in c.entries && c.entries[e].tenant == tenant && c.entries[e].actor in candidates)
  }

  function ProfilesOf(entries: map<string, CardEntry>, es: set<string>): set<(string, string)> {
    set e | e in es && e in entries :: (entries[e].tenant, entries[e].actor)
  }

  /** The sources of the given entries that cite other conversations. */
  function Elsewhere(sources: set<Source>, within: map<string, string>, es: set<string>, owner: string, tenant: string): set<(string, string)> {
    set s | s in sources && s.tenant == tenant && s.entry in es && s.cited in within && within[s.cited] != owner :: (s.entry, s.cited)
  }

  function Detach(sources: set<Source>, within: map<string, string>, owner: string, tenant: string): set<Source> {
    set s | s in sources && !(s.tenant == tenant && Cites(within, s, owner))
  }

  /** What a successful invalidation leaves. */
  function Invalidated(c: Cards, owner: string, tenant: string, candidates: set<string>): Cards {
    c.(turnSources := Detach(c.turnSources, c.turns, owner, tenant),
       factSources := Detach(c.factSources, c.facts, owner, tenant),
       invalid := c.invalid + ProfilesOf(c.entries, Affected(c, owner, tenant, candidates)) + (set a | a in candidates :: (tenant, a)))
  }

  // ---- deleting turns under the trigger ----

  /** The entries the trigger deletes for one turn. */
  function CitedBy(entries: map<string, CardEntry>, sources: set<Source>, turn: string): set<string> {
    set s | s in sources && s.cited == turn && Anchored(entries, s) :: s.entry
  }

  /** DELETE of one turn: the trigger, its cascades, then the row and the
      cascade of its own sources. */
  function DeleteTurn(c: Cards, turn: string): Cards {
    var gone := CitedBy(c.entries, c.turnSources, turn);
    Cards(c.turns - {turn}, c.facts, c.entries - gone,
          (set s | s in c.turnSources && s.entry !in gone && s.cited != turn),
          (set s | s in c.factSources && s.entry !in gone),
          c.invalid + ProfilesOf(c.entries, gone))
  }

  /** All at once: what deleting a set of turns comes to. */
  function DeleteTurns(c: Cards, ts: set<string>): Cards {
    var gone := CitedByAny(c, ts);
    Cards(c.turns - ts, c.facts, c.entries - gone,
          (set s | s in c.turnSources && s.entry !in gone && s.cited !in ts),
          (set s | s in c.factSources && s.entry !in gone),
          c.invalid + ProfilesOf(c.entries, gone))
  }

  function CitedByAny(c: Cards, ts: set<string>): set<string> {
    set s | s in c.turnSources && s.cited in ts && Anchored(c.entries, s) :: s.entry
  }

  function TurnsOf(c: Cards, owner: string): set<string> {
    set t | t in c.turns && c.turns[t] == owner
  }

  lemma DeleteOneMore(c: Cards, ts: set<string>, t: string)
    requires Consistent(c)
    ensures DeleteTurn(DeleteTurns(c, ts), t) == DeleteTurns(c, ts + {t})
  {
    var d := DeleteTurns(c, ts);
    var gone, more := CitedByAny(c, ts), CitedBy(d.entries, d.turnSources, t);
    forall e ensures e in CitedByAny(c, ts + {t}) <==> e in gone || e in more {
      if e in CitedByAny(c, ts + {t}) && e !in gone {
        var s :| s in c.turnSources && s.cited in ts + {t} && Anchored(c.entries, s) && s.entry == e;
        assert s in d.turnSources && Anchored(d.entries, s);
      }
    }
    assert CitedByAny(c, ts + {t}) == gone + more;
    var one, all := DeleteTurn(d, t), DeleteTurns(c, ts + {t});
    assert one.turns == all.turns && one.entries == all.entries;
    assert one.turnSources == all.turnSources && one.factSources == all.factSources;
    forall p ensures p in ProfilesOf(c.entries, gone + more) <==> p in ProfilesOf(c.entries, gone) || p in ProfilesOf(d.entries, more) {
      if p in ProfilesOf(c.entries, gone + more) && p !in ProfilesOf(c.entries, gone) {
        var e :| e in gone + more && e in c.entries && p == (c.entries[e].tenant, c.entries[e].actor);
        assert e in more && e in d.entries;
      }
    }
    assert one.invalid == all.invalid;
  }

  /** DELETE FROM facts: the sources of a deleted fact go, the entries stay. */
  function DeleteFacts(c: Cards, owner: string): Cards {
    var kept := map f | f in c.facts && c.facts[f] != owner :: c.facts[f];
    c.(facts := kept, factSources := set s | s in c.factSources && s.cited in kept)
  }

  class CardStore {
    var cards: Cards

    /** `_invalidate_actor_cards` */
    method InvalidateActorCards(owner: string, tenant: string, candidates: set<string>) returns (e: Option<Error>)
      modifies this
      ensures e == if CrossTenant(old(cards), owner, tenant) then Some(CrossTenantEvidence) else None
      ensures e.None? ==> cards == Invalidated(old(cards), owner, tenant, candidates)
    {
      var before := cards;
      if (exists s :: s in cards.turnSources && Cites(cards.turns, s, owner) && s.tenant != tenant)
         || (exists s :: s in cards.factSources && Cites(cards.facts, s, owner) && s.tenant != tenant) {
        return Some(CrossTenantEvidence);
      }
      var affected := Affected(cards, owner, tenant, candidates);
      var turnsBefore := Elsewhere(cards.turnSources, cards.turns, affected, owner, tenant);
      var factsBefore := Elsewhere(cards.factSources, cards.facts, affected, owner, tenant);
      cards := cards.(turnSources := set s | s in cards.turnSources && !(s.tenant == tenant && Cites(cards.turns, s, owner)));
      cards := cards.(factSources := set s | s in cards.factSources && !(s.tenant == tenant && Cites(cards.facts, s, owner)));
      if (exists s :: s in cards.turnSources && Cites(cards.turns, s, owner))
         || (exists s :: s in cards.factSources && Cites(cards.facts, s, owner)) {
        return Some(SourcesRemainAttached);
      }
      ElsewhereKept(before.turnSources, before.turns, affected, owner, tenant);
      ElsewhereKept(before.factSources, before.facts, affected, owner, tenant);
      var turnsAfter := Elsewhere(cards.turnSources, cards.turns, affected, owner, tenant);
      var factsAfter := Elsewhere(cards.factSources, cards.facts, affected, owner, tenant);
      if affected != {} && (turnsAfter != turnsBefore || factsAfter != factsBefore) {
        return Some(OtherSourcesChanged);
      }
      cards := cards.(invalid := cards.invalid + ProfilesOf(cards.entries, affected) + set a | a in candidates :: (tenant, a));
      return None;
    }

    /** DELETE FROM canonical_turns WHERE conversation_id = owner, row by row
        in any order. */
    method DeleteCanonicalTurns(owner: string)
      requires Consistent(cards)
      modifies this
      ensures cards == DeleteTurns(old(cards), TurnsOf(old(cards), owner))
    {
      var all := TurnsOf(cards, owner);
      var todo := all;
      ghost var before := cards;
      NoTurns(before);
      assert all - todo == {};
      while todo != {}
        invariant todo <= all
        invariant cards == DeleteTurns(before, all - todo)
      {
        var t :| t in todo;
        DeleteOneMore(before, all - todo, t);
        assert (all - todo) + {t} == all - (todo - {t});
        cards := DeleteTurn(cards, t);
        todo := todo - {t};
      }
      assert all - todo == all;
    }

    /** The card-relevant steps of the swap, in its order: invalidate, clear
        the facts, delete the turns. */
    method SwapOut(owner: string, tenant: string, candidates: set<string>) returns (e: Option<Error>)
      requires Consistent(cards)
      modifies this
      ensures e == if CrossTenant(old(cards), owner, tenant) then Some(CrossTenantEvidence) else None
      ensures e.None? ==> cards == Swapped(old(cards), owner, tenant, candidates)
    {
      ghost var before := cards;
      e := InvalidateActorCards(owner, tenant, candidates);
      if e.Some? {
        return;
      }
      DetachKeepsConsistent(before, owner, tenant, candidates);
      cards := DeleteFacts(cards, owner);
      DeleteCanonicalTurns(owner);
    }
  }

  function Swapped(c: Cards, owner: string, tenant: string, candidates: set<string>): Cards {
    var d := DeleteFacts(Invalidated(c, owner, tenant, candidates), owner);
    DeleteTurns(d, TurnsOf(d, owner))
  }

  lemma NoTurns(c: Cards)
    requires Consistent(c)
    ensures DeleteTurns(c, {}) == c
  {
    assert CitedByAny(c, {}) == {};
    var d := DeleteTurns(c, {});
    assert d.turns == c.turns && d.entries == c.entries && d.turnSources == c.turnSources;
    assert d.factSources == c.factSources;
    assert ProfilesOf(c.entries, {}) == {};
    assert d.invalid == c.invalid;
  }

  lemma ElsewhereKept(sources: set<Source>, within: map<string, string>, es: set<string>, owner: string, tenant: string)
    ensures Elsewhere(Detach(sources, within, owner, tenant), within, es, owner, tenant) == Elsewhere(sources, within, es, owner, tenant)
  {
    var a, b := Elsewhere(Detach(sources, within, owner, tenant), within, es, owner, tenant), Elsewhere(sources, within, es, owner, tenant);
    forall x ensures x in a <==> x in b {
      if x in b {
        var s :| s in sources && s.tenant == tenant && s.entry in es && s.cited in within && within[s.cited] != owner && x == (s.entry, s.cited);
        assert s in Detach(sources, within, owner, tenant);
      }
    }
  }

  lemma DetachKeepsConsistent(c: Cards, owner: string, tenant: string, candidates: set<string>)
    requires Consistent(c)
    ensures Consistent(DeleteFacts(Invalidated(c, owner, tenant, candidates), owner))
  {
  }

  // ---- the results ----

  /** After the guard has passed, the trigger has nothing left to delete: every
      card entry survives, and so does every source that cites another
      conversation; the sources citing the owner's history are the only rows
      to go, and every affected profile is marked for a rebuild. */
  lemma SwapKeepsCards(c: Cards, owner: string, tenant: string, candidates: set<string>)
    requires Consistent(c) && !CrossTenant(c, owner, tenant)
    ensures var d := Swapped(c, owner, tenant, candidates);
            && d.entries == c.entries
            && d.turnSources == (set s | s in c.turnSources && !Cites(c.turns, s, owner))
            && d.factSources == (set s | s in c.factSources && !Cites(c.facts, s, owner))
            && TurnsOf(d, owner) == {}
            && (forall s :: s in c.turnSources && Cites(c.turns, s, owner) ==>
                  (tenant, c.entries[s.entry].actor) in d.invalid)
            && (forall s :: s in c.factSources && Cites(c.facts, s, owner) ==>
                  (tenant, c.entries[s.entry].actor) in d.invalid)
  {
    var i := Invalidated(c, owner, tenant, candidates);
    var f := DeleteFacts(i, owner);
    var ts := TurnsOf(f, owner);
    assert CitedByAny(f, ts) == {};
    var d := DeleteTurns(f, ts);
    assert d.entries == c.entries;
    forall s | s in c.turnSources && Cites(c.turns, s, owner)
      ensures (tenant, c.entries[s.entry].actor) in i.invalid
    {
      assert s.entry in Affected(c, owner, tenant, candidates);
    }
    forall s | s in c.factSources && Cites(c.facts, s, owner)
      ensures (tenant, c.entries[s.entry].actor) in i.invalid
    {
      assert s.entry in Affected(c, owner, tenant, candidates);
    }
  }

  /** Without detaching first, deleting the turns keeps exactly the entries
      that cite none of them, whatever else those entries cite. */
  lemma UndetachedLosesExactly(c: Cards, owner: string, e: string)
    requires Consistent(c) && e in c.entries
    ensures e in DeleteTurns(c, TurnsOf(c, owner)).entries
       <==> !exists s :: s in c.turnSources && s.entry == e && Cites(c.turns, s, owner)
    ensures e !in DeleteTurns(c, TurnsOf(c, owner)).entries ==>
              forall s :: s in DeleteTurns(c, TurnsOf(c, owner)).turnSources || s in DeleteTurns(c, TurnsOf(c, owner)).factSources ==>
                s.entry != e
  {
    var gone := CitedByAny(c, TurnsOf(c, owner));
    if s :| s in c.turnSources && s.entry == e && Cites(c.turns, s, owner) {
      assert s.entry in gone;
    }
    if e in gone {
      var s :| s in c.turnSources && s.cited in TurnsOf(c, owner) && Anchored(c.entries, s) && s.entry == e;
      assert Cites(c.turns, s, owner);
    }
  }

  // ---- the whole outcome, row by row ----

  /** The source cites a turn of the conversation, by an entry of this
      profile. */
  predicate SpeaksOf(c: Cards, sources: set<Source>, cited: map<string, string>, owner: string, profile: (string, string)) {
    exists s :: s in sources && s.cited in cited && cited[s.cited] == owner
      && s.entry in c.entries && c.entries[s.entry] == CardEntry(profile.0, profile.1)
  }

  /** The swap is refused exactly for a citation of the owner's history by
      another tenant. Otherwise the owner's turns and facts go with their
      citations, all other turns, facts, citations and entries stay, and the
      profiles marked are those marked before, the candidates' and those of
      the entries that cited the owner's history. */
  lemma SwapExactly(c: Cards, owner: string, tenant: string, candidates: set<string>)
    requires Consistent(c)
    ensures CrossTenant(c, owner, tenant) <==>
            || (exists s :: s in c.turnSources && c.turns[s.cited] == owner && s.tenant != tenant)
            || (exists s :: s in c.factSources && c.facts[s.cited] == owner && s.tenant != tenant)
    ensures !CrossTenant(c, owner, tenant) ==>
            var d := Swapped(c, owner, tenant, candidates);
            && d.entries == c.entries
            && d.turns == (map t | t in c.turns && c.turns[t] != owner :: c.turns[t])
            && d.facts == (map f | f in c.facts && c.facts[f] != owner :: c.facts[f])
            && (forall s :: s in d.turnSources <==> s in c.turnSources && c.turns[s.cited] != owner)
            && (forall s :: s in d.factSources <==> s in c.factSources && c.facts[s.cited] != owner)
    ensures !CrossTenant(c, owner, tenant) ==>
            forall p :: p in Swapped(c, owner, tenant, candidates).invalid <==>
              || p in c.invalid || (p.0 == tenant && p.1 in candidates)
              || SpeaksOf(c, c.turnSources, c.turns, owner, p) || SpeaksOf(c, c.factSources, c.facts, owner, p)
  {
    if !CrossTenant(c, owner, tenant) {
      SwapKeepsCards(c, owner, tenant, candidates);
      SwapEmpties(c, owner, tenant, candidates);
      forall p ensures p in Swapped(c, owner, tenant, candidates).invalid <==>
              || p in c.invalid || (p.0 == tenant && p.1 in candidates)
              || SpeaksOf(c, c.turnSources, c.turns, owner, p) || SpeaksOf(c, c.factSources, c.facts, owner, p) {
        MarkedExactly(c, owner, tenant, candidates, p);
      }
    }
  }

  lemma SwapEmpties(c: Cards, owner: string, tenant: string, candidates: set<string>)
    requires Consistent(c) && !CrossTenant(c, owner, tenant)
    ensures var d := Swapped(c, owner, tenant, candidates);
            && d.invalid == Invalidated(c, owner, tenant, candidates).invalid
            && d.turns == (map t | t in c.turns && c.turns[t] != owner :: c.turns[t])
            && d.facts == (map f | f in c.facts && c.facts[f] != owner :: c.facts[f])
  {
    var f := DeleteFacts(Invalidated(c, owner, tenant, candidates), owner);
    assert CitedByAny(f, TurnsOf(f, owner)) == {};
    assert ProfilesOf(f.entries, {}) == {};
  }

  /** The affected entries, by their profiles. */
  lemma MarkedExactly(c: Cards, owner: string, tenant: string, candidates: set<string>, p: (string, string))
    requires Consistent(c) && !CrossTenant(c, owner, tenant)
    ensures p in Invalidated(c, owner, tenant, candidates).invalid <==>
            || p in c.invalid || (p.0 == tenant && p.1 in candidates)
            || SpeaksOf(c, c.turnSources, c.turns, owner, p) || SpeaksOf(c, c.factSources, c.facts, owner, p)
  {
    var es := Affected(c, owner, tenant, candidates);
    if p in ProfilesOf(c.entries, es) {
      var e :| e in es && e in c.entries && p == (c.entries[e].tenant, c.entries[e].actor);
      AffectedSpeaks(c, owner, tenant, candidates, e);
    }
    if SpeaksOf(c, c.turnSources, c.turns, owner, p) {
      var s :| s in c.turnSources && Cites(c.turns, s, owner) && s.entry in c.entries && c.entries[s.entry] == CardEntry(p.0, p.1);
      assert s.entry in es;
    }
    if SpeaksOf(c, c.factSources, c.facts, owner, p) {
      var s :| s in c.factSources && Cites(c.facts, s, owner) && s.entry in c.entries && c.entries[s.entry] == CardEntry(p.0, p.1);
      assert s.entry in es;
    }
  }

  lemma AffectedSpeaks(c: Cards, owner: string, tenant: string, candidates: set<string>, e: string)
    requires Consistent(c) && e in Affected(c, owner, tenant, candidates) && e in c.entries
    ensures var p := (c.entries[e].tenant, c.entries[e].actor);
            || (p.0 == tenant && p.1 in candidates)
            || SpeaksOf(c, c.turnSources, c.turns, owner, p) || SpeaksOf(c, c.factSources, c.facts, owner, p)
  {
  }

  /** Deleting a conversation's turns without detaching: the turns go, with
      every entry that cites one, all citations by such entries and all
      citations of the turns; the profiles of the lost entries are marked. */
  lemma DeletedExactly(c: Cards, owner: string)
    requires Consistent(c)
    ensures var d := DeleteTurns(c, TurnsOf(c, owner));
            && d.turns == (map t | t in c.turns && c.turns[t] != owner :: c.turns[t])
            && d.facts == c.facts && (forall e :: e in d.entries ==> e in c.entries && d.entries[e] == c.entries[e])
            && (forall s :: s in d.turnSources <==> s in c.turnSources && s.entry in d.entries && c.turns[s.cited] != owner)
            && (forall s :: s in d.factSources <==> s in c.factSources && s.entry in d.entries)
            && (forall p :: p in d.invalid <==>
                  p in c.invalid || exists e :: e in c.entries && e !in d.entries && c.entries[e] == CardEntry(p.0, p.1))
  {
    var d, gone := DeleteTurns(c, TurnsOf(c, owner)), CitedByAny(c, TurnsOf(c, owner));
    forall p ensures p in ProfilesOf(c.entries, gone) <==> exists e :: e in c.entries && e !in d.entries && c.entries[e] == CardEntry(p.0, p.1) {
      if p in ProfilesOf(c.entries, gone) {
        var e :| e in gone && e in c.entries && p == (c.entries[e].tenant, c.entries[e].actor);
        assert e !in d.entries && c.entries[e] == CardEntry(p.0, p.1);
      }
    }
  }
}
