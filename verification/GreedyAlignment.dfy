/** The lexical alignment of the event-ordering judge: score every pair, sort,
    and take pairs greedily while both ends are unused. */
module GreedyAlignment {

  datatype Pair = Pair(score: real, system: nat, reference: nat)

  /** The tuple order Python sorts by. */
  predicate AtMost(a: Pair, b: Pair) {
    a.score < b.score
    || (a.score == b.score && (a.system < b.system || (a.system == b.system && a.reference <= b.reference)))
  }

  predicate Descending(ps: seq<Pair>) {
    forall i, j :: 0 <= i < j < |ps| ==> AtMost(ps[j], ps[i])
  }

  predicate Distinct(ps: seq<Pair>) {
    forall i, j :: 0 <= i < j < |ps| ==> ps[i] != ps[j]
  }

  predicate Clash(a: Pair, b: Pair) {
    a.system == b.system || a.reference == b.reference
  }

  /** A set of pairs no two of which share an end. */
  predicate Matching(m: set<Pair>) {
    forall a, b :: a in m && b in m && a != b ==> !Clash(a, b)
  }

  /** The total score of the members of `m` that occur in `ps`. */
  ghost function Total(ps: seq<Pair>, m: set<Pair>): real {
    if ps == [] then 0.0 else (if ps[0] in m then ps[0].score else 0.0) + Total(ps[1..], m)
  }

  /** The greedy choice from `ps` when the ends in `usedSystem` and
      `usedReference` are taken. */
  function Chosen(ps: seq<Pair>, usedSystem: set<nat>, usedReference: set<nat>): seq<Pair> {
    if ps == [] then []
    else if ps[0].system in usedSystem || ps[0].reference in usedReference then Chosen(ps[1..], usedSystem, usedReference)
    else [ps[0]] + Chosen(ps[1..], usedSystem + {ps[0].system}, usedReference + {ps[0].reference})
  }

  function AsSet(ps: seq<Pair>): set<Pair> {
    set p | p in ps
  }

  /** `m` avoids the used ends. */
  predicate Avoids(m: set<Pair>, usedSystem: set<nat>, usedReference: set<nat>) {
    forall p :: p in m ==> p.system !in usedSystem && p.reference !in usedReference
  }

  // ---- sorting ----

  function InsertAt(sorted: seq<Pair>, i: nat, p: Pair): seq<Pair>
    requires i <= |sorted|
  {
    sorted[..i] + [p] + sorted[i..]
  }

  lemma InsertedCounts(sorted: seq<Pair>, i: nat, p: Pair)
    requires i <= |sorted|
    ensures multiset(InsertAt(sorted, i, p)) == multiset(sorted) + multiset{p}
  {
    assert sorted == sorted[..i] + sorted[i..];
  }

  lemma InsertedDescending(sorted: seq<Pair>, i: nat, p: Pair)
    requires Descending(sorted) && i <= |sorted|
    requires forall j :: 0 <= j < i ==> AtMost(p, sorted[j])
    requires i < |sorted| ==> AtMost(sorted[i], p)
    ensures Descending(InsertAt(sorted, i, p))
  {
    var r := InsertAt(sorted, i, p);
    forall j, k | 0 <= j < k < |r| ensures AtMost(r[k], r[j]) {
      if k == i {
        assert r[j] == sorted[j];
      } else if j == i {
        assert r[k] == sorted[k - 1];
        assert k - 1 == i || AtMost(sorted[k - 1], sorted[i]);
      } else {
        var j', k' := if j < i then j else j - 1, if k < i then k else k - 1;
        assert r[j] == sorted[j'] && r[k] == sorted[k'] && j' < k';
      }
    }
  }

  method InsertDescending(sorted: seq<Pair>, p: Pair) returns (r: seq<Pair>)
    requires Descending(sorted)
    ensures Descending(r) && multiset(r) == multiset(sorted) + multiset{p}
  {
    var i := 0;
    while i < |sorted| && AtMost(p, sorted[i])
      invariant 0 <= i <= |sorted|
      invariant forall j :: 0 <= j < i ==> AtMost(p, sorted[j])
    {
      i := i + 1;
    }
    InsertedDescending(sorted, i, p);
    InsertedCounts(sorted, i, p);
    r := InsertAt(sorted, i, p);
  }

  /** `list.sort(reverse=True)` */
  method SortDescending(ps: seq<Pair>) returns (r: seq<Pair>)
    ensures Descending(r) && multiset(r) == multiset(ps)
  {
    r := [];
    for i := 0 to |ps|
      invariant Descending(r) && multiset(r) == multiset(ps[..i])
    {
      assert ps[..i + 1] == ps[..i] + [ps[i]];
      r := InsertDescending(r, ps[i]);
    }
    assert ps[..|ps|] == ps;
  }

  lemma SamePairs(a: seq<Pair>, b: seq<Pair>)
    requires multiset(a) == multiset(b)
    ensures forall p :: p in a <==> p in b
  {
    forall p ensures p in a <==> p in b {
      assert p in a <==> p in multiset(a);
      assert p in b <==> p in multiset(b);
    }
  }

  // ---- scoring ----

  /** The pairs at or above the threshold, in the order of the two loops. */
  ghost predicate Candidates(ps: seq<Pair>, score: (nat, nat) -> real, systems: nat, references: nat, threshold: real) {
    && Distinct(ps)
    && forall p :: p in ps <==>
         p.system < systems && p.reference < references && p.score == score(p.system, p.reference) && p.score >= threshold
  }

  method ScorePairs(score: (nat, nat) -> real, systems: nat, references: nat, threshold: real) returns (ps: seq<Pair>)
    ensures Candidates(ps, score, systems, references, threshold)
  {
    ps := [];
    for s := 0 to systems
      invariant Distinct(ps)
      invariant forall p :: p in ps <==>
                  p.system < s && p.reference < references && p.score == score(p.system, p.reference) && p.score >= threshold
    {
      for r := 0 to references
        invariant Distinct(ps)
        invariant forall p :: p in ps <==>
                    && (p.system < s || (p.system == s && p.reference < r)) && p.reference < references
                    && p.score == score(p.system, p.reference) && p.score >= threshold
      {
        var value := score(s, r);
        if value >= threshold {
          forall i | 0 <= i < |ps| ensures ps[i] != Pair(value, s, r) {
            assert ps[i] in ps;
          }
          ps := ps + [Pair(value, s, r)];
        }
      }
    }
  }

  // ---- the greedy loop ----

  /** The dictionary holds the chosen pairs. */
  ghost predicate Records(replacements: map<nat, nat>, chosen: seq<Pair>) {
    && (forall s :: s in replacements ==> exists p :: p in chosen && p.system == s)
    && forall p :: p in chosen ==> p.system in replacements && replacements[p.system] == p.reference
  }

  lemma RecordsSnoc(replacements: map<nat, nat>, chosen: seq<Pair>, p: Pair)
    requires Records(replacements, chosen) && p.system !in replacements
    ensures Records(replacements[p.system := p.reference], chosen + [p])
  {
    var more := replacements[p.system := p.reference];
    forall s | s in more ensures exists q :: q in chosen + [p] && q.system == s {
      if s in replacements {
        var q :| q in chosen && q.system == s;
        assert q in chosen + [p];
      } else {
        assert p in chosen + [p];
      }
    }
  }

  predicate Skips(p: Pair, usedSystem: set<nat>, usedReference: set<nat>) {
    p.system in usedSystem || p.reference in usedReference
  }

  lemma ChosenFrom(ps: seq<Pair>, i: nat, chosen: seq<Pair>, usedSystem: set<nat>, usedReference: set<nat>)
    requires i < |ps|
    ensures var p := ps[i];
            chosen + Chosen(ps[i..], usedSystem, usedReference) ==
            if Skips(p, usedSystem, usedReference) then chosen + Chosen(ps[i + 1..], usedSystem, usedReference)
            else (chosen + [p]) + Chosen(ps[i + 1..], usedSystem + {p.system}, usedReference + {p.reference})
  {
    var p := ps[i];
    assert ps[i..][1..] == ps[i + 1..] && ps[i..][0] == p;
    var rest := Chosen(ps[i + 1..], usedSystem + {p.system}, usedReference + {p.reference});
    assert chosen + ([p] + rest) == (chosen + [p]) + rest;
  }

  method ChooseGreedily(ps: seq<Pair>) returns (chosen: seq<Pair>, replacements: map<nat, nat>)
    ensures chosen == Chosen(ps, {}, {}) && Records(replacements, chosen)
  {
    var usedSystem: set<nat>, usedReference: set<nat> := {}, {};
    chosen, replacements := [], map[];
    assert ps[0..] == ps;
    for i := 0 to |ps|
      invariant chosen + Chosen(ps[i..], usedSystem, usedReference) == Chosen(ps, {}, {})
      invariant replacements.Keys == usedSystem && Records(replacements, chosen)
    {
      var p := ps[i];
      ChosenFrom(ps, i, chosen, usedSystem, usedReference);
      if p.system in usedSystem || p.reference in usedReference {
        continue;
      }
      RecordsSnoc(replacements, chosen, p);
      usedSystem := usedSystem + {p.system};
      usedReference := usedReference + {p.reference};
      chosen, replacements := chosen + [p], replacements[p.system := p.reference];
    }
    assert ps[|ps|..] == [];
  }

  /** The candidates in the order the greedy loop visits them. */
  method RankCandidates(score: (nat, nat) -> real, systems: nat, references: nat, threshold: real) returns (ps: seq<Pair>)
    ensures Candidates(ps, score, systems, references, threshold) && Descending(ps)
  {
    var scored := ScorePairs(score, systems, references, threshold);
    ps := SortDescending(scored);
    SamePairs(ps, scored);
    DistinctSorted(scored, ps);
  }

  /** The output list: replaced items and the rest as they were. */
  method Rewrite(reference: seq<string>, system: seq<string>, replacements: map<nat, nat>) returns (systemOut: seq<string>)
    requires forall s :: s in replacements ==> replacements[s] < |reference|
    ensures |systemOut| == |system|
    ensures forall s :: 0 <= s < |system| ==> systemOut[s] == if s in replacements then reference[replacements[s]] else system[s]
  {
    systemOut := [];
    for s := 0 to |system|
      invariant |systemOut| == s
      invariant forall k :: 0 <= k < s ==> systemOut[k] == if k in replacements then reference[replacements[k]] else system[k]
    {
      systemOut := systemOut + [if s in replacements then reference[replacements[s]] else system[s]];
    }
  }

  /** A chosen pair shares an end with this one and scores higher, or the
      same with the larger system item, or the same with that item and a
      reference item as large. */
  ghost predicate Taken(chosen: seq<Pair>, score: (nat, nat) -> real, s: nat, r: nat) {
    exists p :: p in chosen && (p.system == s || p.reference == r)
      && (p.score > score(s, r) || (p.score == score(s, r) && (p.system > s || (p.system == s && p.reference >= r))))
  }

  ghost predicate AllTaken(chosen: seq<Pair>, score: (nat, nat) -> real, systems: nat, references: nat, threshold: real) {
    forall s: nat, r: nat :: s < systems && r < references && score(s, r) >= threshold ==> Taken(chosen, score, s, r)
  }

  predicate Disjoint(chosen: seq<Pair>) {
    forall i, j :: 0 <= i < j < |chosen| ==> chosen[i].system != chosen[j].system && chosen[i].reference != chosen[j].reference
  }

  /** `_align_without_llm` */
  method AlignWithoutLlm(reference: seq<string>, system: seq<string>, score: (nat, nat) -> real, threshold: real)
    returns (systemOut: seq<string>, chosen: seq<Pair>, ghost sorted: seq<Pair>)
    ensures Candidates(sorted, score, |system|, |reference|, threshold) && Descending(sorted)
    ensures chosen == Chosen(sorted, {}, {})
    ensures forall p :: p in chosen ==> p.score == score(p.system, p.reference) && p.score >= threshold
    ensures Disjoint(chosen) && AllTaken(chosen, score, |system|, |reference|, threshold)
    ensures |systemOut| == |system|
    ensures forall p :: p in chosen ==> p.system < |system| && p.reference < |reference|
    ensures forall p :: p in chosen ==> systemOut[p.system] == reference[p.reference]
    ensures forall s :: 0 <= s < |system| && (forall p :: p in chosen ==> p.system != s) ==> systemOut[s] == system[s]
  {
    var ps := RankCandidates(score, |system|, |reference|, threshold);
    sorted := ps;
    var replacements;
    chosen, replacements := ChooseGreedily(ps);
    ChosenAreCandidates(ps, {}, {});
    ChosenIsDisjoint(ps);
    EveryPairTaken(ps, score, |system|, |reference|, threshold);
    forall s | s in replacements ensures replacements[s] < |reference| {
      var p :| p in chosen && p.system == s;
      assert p in ps;
    }
    systemOut := Rewrite(reference, system, replacements);
  }

  lemma DistinctSorted(a: seq<Pair>, b: seq<Pair>)
    requires Distinct(a) && multiset(a) == multiset(b)
    ensures Distinct(b)
  {
    forall i, j | 0 <= i < j < |b| ensures b[i] != b[j] {
      if b[i] == b[j] {
        CountTwice(b, i, j);
        CountOnce(a, b[i]);
      }
    }
  }

  lemma CountTwice(b: seq<Pair>, i: nat, j: nat)
    requires i < j < |b| && b[i] == b[j]
    ensures multiset(b)[b[i]] >= 2
  {
    assert b == b[..j] + [b[j]] + b[j + 1..];
    assert b[i] in b[..j];
    assert multiset(b[..j])[b[i]] >= 1;
  }

  lemma {:induction false} CountOnce(a: seq<Pair>, p: Pair)
    requires Distinct(a)
    ensures multiset(a)[p] <= 1
  {
    if a != [] {
      CountOnce(a[1..], p);
      assert a == [a[0]] + a[1..];
      if a[0] == p {
        assert p !in a[1..];
        assert multiset(a[1..])[p] == 0;
      }
    }
  }

  // ---- a maximal matching, each loser beaten by a better pair ----

  lemma {:induction false} ChosenAreCandidates(ps: seq<Pair>, usedSystem: set<nat>, usedReference: set<nat>)
    ensures forall p :: p in Chosen(ps, usedSystem, usedReference) ==>
              p in ps && p.system !in usedSystem && p.reference !in usedReference
    decreases ps
  {
    if ps != [] {
      ChosenAreCandidates(ps[1..], usedSystem, usedReference);
      ChosenAreCandidates(ps[1..], usedSystem + {ps[0].system}, usedReference + {ps[0].reference});
      assert ps == [ps[0]] + ps[1..];
    }
  }

  lemma MatchingCons(h: Pair, rest: seq<Pair>)
    requires Matching(AsSet(rest)) && Distinct(rest)
    requires forall p :: p in rest ==> p.system != h.system && p.reference != h.reference
    ensures Matching(AsSet([h] + rest)) && Distinct([h] + rest)
  {
    assert AsSet([h] + rest) == {h} + AsSet(rest);
    assert forall i :: 0 <= i < |rest| ==> rest[i] in rest;
  }

  /** No system item and no reference item is used twice. */
  lemma {:induction false} ChosenInjective(ps: seq<Pair>, usedSystem: set<nat>, usedReference: set<nat>)
    ensures Matching(AsSet(Chosen(ps, usedSystem, usedReference)))
    ensures Distinct(Chosen(ps, usedSystem, usedReference))
    decreases ps
  {
    if ps != [] {
      ChosenInjective(ps[1..], usedSystem, usedReference);
      var s, r := usedSystem + {ps[0].system}, usedReference + {ps[0].reference};
      ChosenInjective(ps[1..], s, r);
      ChosenAreCandidates(ps[1..], s, r);
      MatchingCons(ps[0], Chosen(ps[1..], s, r));
    }
  }

  /** Every candidate left out meets a used end or a chosen pair that is
      sorted before it. */
  lemma {:induction false} LeftOutIsBlocked(ps: seq<Pair>, usedSystem: set<nat>, usedReference: set<nat>, p: Pair)
    requires Descending(ps) && p in ps && p !in Chosen(ps, usedSystem, usedReference)
    ensures p.system in usedSystem || p.reference in usedReference
         || exists q :: q in Chosen(ps, usedSystem, usedReference) && Clash(p, q) && AtMost(p, q)
    decreases ps
  {
    var h, t := ps[0], ps[1..];
    assert ps == [h] + t;
    if h.system in usedSystem || h.reference in usedReference {
      if p != h {
        LeftOutIsBlocked(t, usedSystem, usedReference, p);
      }
    } else {
      var s, r := usedSystem + {h.system}, usedReference + {h.reference};
      var rest := Chosen(t, s, r);
      assert Chosen(ps, usedSystem, usedReference) == [h] + rest;
      assert h in [h] + rest;
      LeftOutIsBlocked(t, s, r, p);
      var i :| 0 <= i < |t| && t[i] == p;
      assert AtMost(ps[i + 1], ps[0]);
      if exists q :: q in rest && Clash(p, q) && AtMost(p, q) {
        var q :| q in rest && Clash(p, q) && AtMost(p, q);
        assert q in [h] + rest;
      } else if p.system == h.system || p.reference == h.reference {
        assert Clash(p, h) && AtMost(p, h);
      }
    }
  }

  lemma ChosenIsDisjoint(ps: seq<Pair>)
    ensures Disjoint(Chosen(ps, {}, {}))
  {
    var chosen := Chosen(ps, {}, {});
    ChosenInjective(ps, {}, {});
    forall i, j | 0 <= i < j < |chosen| ensures !Clash(chosen[i], chosen[j]) {
      assert chosen[i] in AsSet(chosen) && chosen[j] in AsSet(chosen) && chosen[i] != chosen[j];
    }
  }

  lemma EveryPairTaken(ps: seq<Pair>, score: (nat, nat) -> real, systems: nat, references: nat, threshold: real)
    requires Candidates(ps, score, systems, references, threshold) && Descending(ps)
    ensures AllTaken(Chosen(ps, {}, {}), score, systems, references, threshold)
  {
    var chosen := Chosen(ps, {}, {});
    forall s: nat, r: nat | s < systems && r < references && score(s, r) >= threshold ensures Taken(chosen, score, s, r) {
      var p := Pair(score(s, r), s, r);
      assert p in ps;
      if p !in chosen {
        LeftOutIsBlocked(ps, {}, {}, p);
        var q :| q in chosen && Clash(p, q) && AtMost(p, q);
      }
    }
  }

  // ---- at least half of any other matching ----

  /** Taking one end's pair out of a matching costs at most its score. */
  lemma {:induction false} TotalWithout(ps: seq<Pair>, m: set<Pair>, p: Pair)
    requires Distinct(ps)
    ensures Total(ps, m) == Total(ps, m - {p}) + if p in m && p in ps then p.score else 0.0
  {
    if ps != [] {
      assert ps == [ps[0]] + ps[1..];
      assert Distinct(ps[1..]);
      TotalWithout(ps[1..], m, p);
      if ps[0] == p {
        assert p !in ps[1..];
      }
    }
  }

  /** The at most two members of a matching that meet `h`, removed. */
  lemma DropClashing(ps: seq<Pair>, m: set<Pair>, h: Pair) returns (rest: set<Pair>)
    requires Distinct(ps) && Matching(m) && h.score >= 0.0
    requires forall p :: p in m ==> p.score <= h.score
    ensures rest <= m && Matching(rest)
    ensures forall p :: p in rest ==> !Clash(p, h)
    ensures Total(ps, m) <= Total(ps, rest) + 2.0 * h.score
  {
    rest := m;
    if a :| a in m && a.system == h.system {
      TotalWithout(ps, rest, a);
      rest := rest - {a};
    }
    var once := rest;
    assert Total(ps, m) <= Total(ps, once) + h.score;
    if b :| b in once && b.reference == h.reference {
      TotalWithout(ps, once, b);
      rest := once - {b};
    }
  }

  lemma {:induction false} HalfOfAny(ps: seq<Pair>, usedSystem: set<nat>, usedReference: set<nat>, m: set<Pair>)
    requires Descending(ps) && Distinct(ps) && (forall p :: p in ps ==> p.score >= 0.0)
    requires Matching(m) && Avoids(m, usedSystem, usedReference) && forall p :: p in m ==> p in ps
    ensures Total(ps, m) <= 2.0 * Sum(Chosen(ps, usedSystem, usedReference))
    decreases ps
  {
    if ps != [] {
      var h, t := ps[0], ps[1..];
      assert ps == [h] + t && h in ps;
      assert Descending(t) && Distinct(t);
      if h.system in usedSystem || h.reference in usedReference {
        assert h !in m;
        HalfOfAny(t, usedSystem, usedReference, m);
      } else {
        forall p | p in m ensures p.score <= h.score {
          var i :| 0 <= i < |ps| && ps[i] == p;
          assert i > 0 ==> AtMost(ps[i], ps[0]);
        }
        var rest := DropClashing(ps, m, h);
        assert h !in rest;
        assert Total(ps, rest) == Total(t, rest);
        HalfOfAny(t, usedSystem + {h.system}, usedReference + {h.reference}, rest);
        var after := Chosen(t, usedSystem + {h.system}, usedReference + {h.reference});
        assert ([h] + after)[1..] == after;
        assert Sum([h] + after) == h.score + Sum(after);
      }
    }
  }

  function Sum(ps: seq<Pair>): real {
    if ps == [] then 0.0 else ps[0].score + Sum(ps[1..])
  }

  /** The result for `AlignWithoutLlm`: a matching, maximal with every loser
      beaten, worth at least half of any matching over the same candidates. */
  lemma GreedyIsHalfOptimal(ps: seq<Pair>, m: set<Pair>)
    requires Descending(ps) && Distinct(ps) && (forall p :: p in ps ==> p.score >= 0.0)
    requires Matching(m) && forall p :: p in m ==> p in ps
    ensures Matching(AsSet(Chosen(ps, {}, {}))) && Distinct(Chosen(ps, {}, {}))
    ensures forall p :: p in ps && p !in Chosen(ps, {}, {}) ==>
              exists q :: q in Chosen(ps, {}, {}) && Clash(p, q) && AtMost(p, q)
    ensures Total(ps, m) <= 2.0 * Sum(Chosen(ps, {}, {}))
  {
    ChosenInjective(ps, {}, {});
    HalfOfAny(ps, {}, {}, m);
    forall p | p in ps && p !in Chosen(ps, {}, {})
      ensures exists q :: q in Chosen(ps, {}, {}) && Clash(p, q) && AtMost(p, q)
    {
      LeftOutIsBlocked(ps, {}, {}, p);
    }
  }

  /** The factor is the best possible: for any smaller one there is an input
      on which another matching is worth more. */
  lemma HalfIsTight(c: real) returns (ps: seq<Pair>, m: set<Pair>)
    requires 0.0 <= c < 2.0
    ensures Descending(ps) && Distinct(ps) && (forall p :: p in ps ==> p.score >= 0.0)
    ensures Matching(m) && forall p :: p in m ==> p in ps
    ensures Total(ps, m) > c * Sum(Chosen(ps, {}, {}))
  {
    var low := (2.0 + c) / 4.0;
    var h, a, b := Pair(1.0, 0, 0), Pair(low, 1, 0), Pair(low, 0, 1);
    ps, m := [h, a, b], {a, b};
    assert ps[1..] == [a, b] && [a, b][1..] == [b] && [b][1..] == [];
    assert Chosen([b], {0}, {0}) == [] && Chosen([a, b], {0}, {0}) == [];
    assert {} + {0} == {0};
    assert Chosen(ps, {}, {}) == [h] + [];
    assert Sum([h]) == 1.0 + Sum([]);
    assert Total([a, b], m) == low + Total([b], m) && Total([b], m) == low + 0.0;
  }
}
