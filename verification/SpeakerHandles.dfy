/** Speaker handles: deriving a base from a display name and adding a rank. */
module SpeakerHandles {
  import opened Text

  const MAX_LENGTH: nat := 32
  const BASE_MAX_LENGTH: nat := 24
  const FALLBACK_BASE := "user"
  const RESERVED := "assistant"

  predicate IsLetter(c: char) { 'a' <= c <= 'z' }

  predicate IsDigit(c: char) { '0' <= c <= '9' }

  predicate IsSeparator(c: char) { c == ' ' || c == '-' || c == '_' || c == '.' }

  predicate BaseChar(c: char) { IsLetter(c) || IsDigit(c) || c == '_' }

  // ---- normalization ----

  /** What the loop makes of a character: kept, turned into one `_` of a run
      of separators, or dropped. */
  function Squeeze(s: string): string {
    if s == "" then "" else Push(Squeeze(s[..|s| - 1]), s[|s| - 1])
  }

  function Push(out: string, c: char): string {
    if IsLetter(c) || IsDigit(c) then out + [c]
    else if IsSeparator(c) && out != "" && out[|out| - 1] != '_' then out + "_"
    else out
  }

  /** `lstrip("0123456789_")` */
  function TrimLeft(s: string): string {
    if s != "" && (IsDigit(s[0]) || s[0] == '_') then TrimLeft(s[1..]) else s
  }

  /** `rstrip("_")` */
  function TrimRight(s: string): string {
    if s != "" && s[|s| - 1] == '_' then TrimRight(s[..|s| - 1]) else s
  }

  function Take(s: string, n: nat): string {
    if |s| <= n then s else s[..n]
  }

  function BaseOf(s: string): string {
    var base := TrimRight(TrimLeft(Squeeze(s)));
    var cut := TrimRight(Take(base, BASE_MAX_LENGTH));
    if cut == "" || cut == RESERVED then FALLBACK_BASE else cut
  }

  /** `normalize_speaker_handle_base`; `casefold` is Python's. */
  method NormalizeSpeakerHandleBase(name: string, casefold: string -> string) returns (base: string)
    ensures base == BaseOf(casefold(Strip(name)))
  {
    var s := casefold(Strip(name));
    var out := "";
    for i := 0 to |s|
      invariant out == Squeeze(s[..i])
    {
      var c := s[i];
      assert s[..i + 1][..i] == s[..i];
      if IsLetter(c) || IsDigit(c) {
        out := out + [c];
      } else if IsSeparator(c) && out != "" && out[|out| - 1] != '_' {
        out := out + "_";
      }
    }
    assert s[..|s|] == s;
    base := TrimRight(TrimLeft(out));
    base := TrimRight(Take(base, BASE_MAX_LENGTH));
    if base == "" || base == RESERVED {
      base := FALLBACK_BASE;
    }
  }

  /** Only grammar characters and no two `_` in a row. */
  predicate Squeezed(s: string) {
    && (forall i :: 0 <= i < |s| ==> BaseChar(s[i]))
    && (forall i :: 0 < i < |s| ==> !(s[i - 1] == '_' && s[i] == '_'))
  }

  /** The bases normalization produces: letter-led, at most 24 grammar
      characters, single inner underscores, not the engine's own name. */
  predicate CanonicalBase(s: string) {
    && 0 < |s| <= BASE_MAX_LENGTH
    && Squeezed(s) && IsLetter(s[0]) && s[|s| - 1] != '_'
    && s != RESERVED
  }

  lemma {:induction false} SqueezeGives(s: string)
    ensures Squeezed(Squeeze(s))
    decreases |s|
  {
    if s != "" {
      SqueezeGives(s[..|s| - 1]);
    }
  }

  lemma {:induction false} TrimLeftGives(s: string)
    requires Squeezed(s)
    ensures Squeezed(TrimLeft(s)) && (TrimLeft(s) != "" ==> IsLetter(TrimLeft(s)[0]))
  {
    if s != "" && (IsDigit(s[0]) || s[0] == '_') {
      TrimLeftGives(s[1..]);
    }
  }

  lemma {:induction false} TrimRightGives(s: string)
    requires Squeezed(s) && (s != "" ==> IsLetter(s[0]))
    ensures var r := TrimRight(s);
            && |r| <= |s| && Squeezed(r)
            && (r != "" ==> IsLetter(r[0]) && r[|r| - 1] != '_')
    decreases |s|
  {
    if s != "" && s[|s| - 1] == '_' {
      TrimRightGives(s[..|s| - 1]);
    }
  }

  /** Every name gives a canonical base. */
  lemma BaseIsCanonical(s: string)
    ensures CanonicalBase(BaseOf(s))
  {
    SqueezeGives(s);
    TrimLeftGives(Squeeze(s));
    var left := TrimLeft(Squeeze(s));
    TrimRightGives(left);
    TrimRightGives(Take(TrimRight(left), BASE_MAX_LENGTH));
  }

  lemma {:induction false} SqueezeFixes(s: string)
    requires Squeezed(s) && (s != "" ==> s[0] != '_')
    ensures Squeeze(s) == s
    decreases |s|
  {
    if s != "" {
      var front := s[..|s| - 1];
      SqueezeFixes(front);
      assert s == front + [s[|s| - 1]];
      if s[|s| - 1] == '_' {
        assert front != "" && front[|front| - 1] == s[|s| - 2];
      }
    }
  }

  /** Normalization fixes the canonical bases and nothing else. */
  lemma BaseFixedExactly(s: string)
    ensures BaseOf(s) == s <==> CanonicalBase(s)
  {
    BaseIsCanonical(s);
    if CanonicalBase(s) {
      SqueezeFixes(s);
    }
  }

  /** So normalizing a second time changes nothing, given that case folding
      leaves lowercase ASCII alone. */
  lemma NormalizeIdempotent(name: string, casefold: string -> string)
    requires forall t: string :: (forall i :: 0 <= i < |t| ==> BaseChar(t[i])) ==> casefold(t) == t
    ensures var base := BaseOf(casefold(Strip(name)));
            BaseOf(casefold(Strip(base))) == base
  {
    var base := BaseOf(casefold(Strip(name)));
    BaseIsCanonical(casefold(Strip(name)));
    StripFixed(base);
    BaseFixedExactly(base);
  }

  // ---- decimal numbers ----

  function Digit(d: nat): char
    requires d < 10
  {
    "0123456789"[d]
  }

  function Decimal(n: nat): string {
    if n < 10 then [Digit(n)] else Decimal(n / 10) + [Digit(n % 10)]
  }

  function DigitValue(c: char): nat {
    if IsDigit(c) then (c - '0') as nat else 0
  }

  function DecimalValue(s: string): nat {
    if s == "" then 0 else 10 * DecimalValue(s[..|s| - 1]) + DigitValue(s[|s| - 1])
  }

  function Pow10(k: nat): nat {
    if k == 0 then 1 else 10 * Pow10(k - 1)
  }

  predicate AllDigits(s: string) {
    forall i :: 0 <= i < |s| ==> IsDigit(s[i])
  }

  lemma DigitRoundTrip(d: nat)
    requires d < 10
    ensures IsDigit(Digit(d)) && DigitValue(Digit(d)) == d
  {
  }

  lemma {:induction false} DecimalReadsBack(n: nat)
    ensures Decimal(n) != "" && AllDigits(Decimal(n)) && DecimalValue(Decimal(n)) == n
  {
    DigitRoundTrip(n % 10);
    if n >= 10 {
      DecimalReadsBack(n / 10);
      assert Decimal(n)[..|Decimal(n)| - 1] == Decimal(n / 10);
    } else {
      assert Decimal(n)[..0] == "";
    }
  }

  lemma {:induction false} DecimalLength(n: nat, k: nat)
    requires k > 0
    ensures |Decimal(n)| <= k <==> n < Pow10(k)
    decreases k
  {
    if n < 10 {
      PowAtLeast10(k);
    } else if k == 1 {
      assert Pow10(1) == 10 * Pow10(0);
      DecimalReadsBack(n / 10);
    } else {
      DecimalLength(n / 10, k - 1);
      assert n < 10 * Pow10(k - 1) <==> n / 10 < Pow10(k - 1);
    }
  }

  lemma {:induction false} PowAtLeast10(k: nat)
    requires k > 0
    ensures Pow10(k) >= 10
  {
    if k > 1 {
      PowAtLeast10(k - 1);
    } else {
      assert Pow10(0) == 1;
    }
  }

  // ---- ranked handles ----

  function Suffix(rank: int): string {
    if rank <= 1 then "" else "." + Decimal(rank)
  }

  /** Python's `s[:n]`, which counts from the end when `n` is negative. */
  function Slice(s: string, n: int): string {
    if n >= 0 then Take(s, n) else if |s| + n <= 0 then "" else s[..|s| + n]
  }

  /** `speaker_handle_for_rank` */
  function HandleForRank(base: string, rank: int): string {
    if rank <= 1 then Slice(base, MAX_LENGTH)
    else Slice(base, MAX_LENGTH - |Suffix(rank)|) + Suffix(rank)
  }

  /** `[a-z][a-z0-9_]*(?:\.[0-9]+)?` over the whole string. */
  predicate Grammatical(h: string) {
    exists i :: 0 < i <= |h| && GrammaticalAt(h, i)
  }

  predicate GrammaticalAt(h: string, i: nat)
    requires 0 < i <= |h|
  {
    && IsLetter(h[0]) && (forall j :: 0 <= j < i ==> BaseChar(h[j]))
    && (i == |h| || (h[i] == '.' && i + 1 < |h| && AllDigits(h[i + 1..])))
  }

  /** `is_valid_speaker_handle`; `$` also matches before a final newline. */
  predicate IsValid(h: string) {
    && 0 < |h| <= MAX_LENGTH
    && (Grammatical(h) || (h[|h| - 1] == '\n' && Grammatical(h[..|h| - 1])))
  }

  /** The bound that keeps a 24-character base whole. */
  const RANKS: nat := 10000000

  lemma SuffixFits(rank: int)
    ensures |Suffix(rank)| <= MAX_LENGTH - BASE_MAX_LENGTH <==> rank < RANKS
  {
    if rank >= 2 {
      DecimalLength(rank, 7);
      assert Pow10(7) == 10000000 by {
        assert Pow10(3) == 1000 && Pow10(5) == 100000;
      }
    }
  }

  /** Below ten million ranks a handle is its whole base and the rank, valid,
      and without the trailing newline the validity test would let through. */
  lemma RankedHandleIsValid(base: string, rank: int)
    requires CanonicalBase(base) && rank < RANKS
    ensures HandleForRank(base, rank) == base + Suffix(rank)
    ensures Grammatical(HandleForRank(base, rank)) && IsValid(HandleForRank(base, rank))
  {
    SuffixFits(rank);
    var h := HandleForRank(base, rank);
    assert h == base + Suffix(rank);
    if rank >= 2 {
      DecimalReadsBack(rank);
      assert h[|base| + 1..] == Decimal(rank);
    }
    assert GrammaticalAt(h, |base|);
  }

  /** How many grammar characters lead the string. */
  function BaseLength(h: string): nat {
    if h != "" && BaseChar(h[0]) then 1 + BaseLength(h[1..]) else 0
  }

  lemma {:induction false} BaseLengthOf(b: string, s: string)
    requires (forall i :: 0 <= i < |b| ==> BaseChar(b[i])) && (s == "" || s[0] == '.')
    ensures BaseLength(b + s) == |b|
  {
    if b == "" {
      assert b + s == s;
    } else {
      assert (b + s)[1..] == b[1..] + s;
      BaseLengthOf(b[1..], s);
    }
  }

  /** The first `.` ends the base, so base and rank can be read off. */
  lemma SplitHandle(b: string, c: string, s: string, t: string)
    requires (forall i :: 0 <= i < |b| ==> BaseChar(b[i])) && (forall i :: 0 <= i < |c| ==> BaseChar(c[i]))
    requires (s == "" || s[0] == '.') && (t == "" || t[0] == '.')
    requires b + s == c + t
    ensures b == c && s == t
  {
    BaseLengthOf(b, s);
    BaseLengthOf(c, t);
    assert b == (b + s)[..|b|] && c == (c + t)[..|c|];
    assert s == (b + s)[|b|..] && t == (c + t)[|c|..];
  }

  /** Two holders never share a handle. */
  lemma RankedHandleInjective(b: string, c: string, i: int, j: int)
    requires CanonicalBase(b) && CanonicalBase(c)
    requires 1 <= i < RANKS && 1 <= j < RANKS
    requires HandleForRank(b, i) == HandleForRank(c, j)
    ensures b == c && i == j
  {
    RankedHandleIsValid(b, i);
    RankedHandleIsValid(c, j);
    SplitHandle(b, c, Suffix(i), Suffix(j));
    DecimalReadsBack(i);
    DecimalReadsBack(j);
    assert i >= 2 ==> Suffix(i)[1..] == Decimal(i);
    assert j >= 2 ==> Suffix(j)[1..] == Decimal(j);
  }

  function Repeat(c: char, n: nat): string {
    seq(n, _ => c)
  }

  /** At ten million the base is cut, and two different bases collide. */
  lemma TruncationCollides()
    ensures var b, c := Repeat('a', 24), Repeat('a', 23);
            CanonicalBase(b) && CanonicalBase(c) && b != c && HandleForRank(b, RANKS) == HandleForRank(c, RANKS)
  {
    var b, c := Repeat('a', 24), Repeat('a', 23);
    assert b[..23] == c;
    DecimalLength(RANKS, 7);
    DecimalLength(RANKS, 8);
    assert Pow10(3) == 1000 && Pow10(5) == 100000;
    assert Pow10(7) == 10000000 && Pow10(8) == 100000000;
    assert |Suffix(RANKS)| == 9;
    assert |b| != |c|;
    assert RESERVED[1] == 's' && b[1] == 'a' && c[1] == 'a';
  }

  // ---- normalization, read off the text ----

  predicate Letters(c: char) { 'a' <= c <= 'z' || '0' <= c <= '9' }

  predicate Gaps(c: char) { c in {' ', '-', '_', '.'} }

  /** Position `j` shows in the result: a letter or digit, or the first
      separator after one. */
  predicate Shows(s: string, j: int)
    requires 0 <= j < |s|
  {
    Letters(s[j]) || (Gaps(s[j]) && exists i :: 0 <= i < j && AfterLetter(s, i, j))
  }

  predicate AfterLetter(s: string, i: int, j: int)
    requires 0 <= i < j < |s|
  {
    Letters(s[i]) && forall m :: i < m < j ==> !Letters(s[m]) && !Gaps(s[m])
  }

  predicate OnlyShown(s: string, at: seq<int>) {
    forall k :: 0 <= k < |at| ==> 0 <= at[k] < |s| && Shows(s, at[k])
  }

  predicate AllShown(s: string, at: seq<int>) {
    forall j :: 0 <= j < |s| && Shows(s, j) ==> j in at
  }

  predicate Rising(at: seq<int>) {
    forall k, l :: 0 <= k < l < |at| ==> at[k] < at[l]
  }

  /** `at` lists the positions that show. */
  predicate Showing(s: string, at: seq<int>) {
    OnlyShown(s, at) && AllShown(s, at) && Rising(at)
  }

  /** `out` spells what is at those positions, a separator as `_`. */
  predicate Spells(s: string, at: seq<int>, out: string) {
    && |at| == |out|
    && forall k :: 0 <= k < |at| ==> 0 <= at[k] < |s| && out[k] == if Gaps(s[at[k]]) then '_' else s[at[k]]
  }

  lemma ShowsBefore(s: string, j: int)
    requires 0 <= j < |s| - 1
    ensures Shows(s[..|s| - 1], j) <==> Shows(s, j)
  {
    var front := s[..|s| - 1];
    if Shows(front, j) && !Letters(s[j]) {
      var i :| 0 <= i < j && AfterLetter(front, i, j);
      assert AfterLetter(s, i, j);
    }
    if Shows(s, j) && !Letters(s[j]) {
      var i :| 0 <= i < j && AfterLetter(s, i, j);
      assert AfterLetter(front, i, j);
    }
  }

  lemma OnlyShownSnoc(s: string, at: seq<int>)
    requires s != "" && OnlyShown(s[..|s| - 1], at)
    ensures OnlyShown(s, at) && (Shows(s, |s| - 1) ==> OnlyShown(s, at + [|s| - 1]))
  {
    forall k | 0 <= k < |at| ensures 0 <= at[k] < |s| && Shows(s, at[k]) {
      ShowsBefore(s, at[k]);
    }
  }

  lemma AllShownSnoc(s: string, at: seq<int>, after: seq<int>)
    requires s != "" && AllShown(s[..|s| - 1], at) && (forall j :: j in at ==> j in after)
    requires Shows(s, |s| - 1) ==> |s| - 1 in after
    ensures AllShown(s, after)
  {
    forall j | 0 <= j < |s| && Shows(s, j) ensures j in after {
      if j < |s| - 1 {
        ShowsBefore(s, j);
      }
    }
  }

  lemma ShowingSnoc(s: string, at: seq<int>, last: bool)
    requires s != "" && Showing(s[..|s| - 1], at) && (last <==> Shows(s, |s| - 1))
    ensures Showing(s, if last then at + [|s| - 1] else at)
  {
    OnlyShownSnoc(s, at);
    AllShownSnoc(s, at, if last then at + [|s| - 1] else at);
  }

  /** The loop keeps each letter and digit and one `_` where separators follow
      one, in order, and nothing else. */
  lemma {:induction false} SqueezeIs(s: string) returns (at: seq<int>)
    ensures Showing(s, at) && Spells(s, at, Squeeze(s))
    decreases |s|
  {
    if s == "" {
      at := [];
    } else {
      var front := SqueezeIs(s[..|s| - 1]);
      at := SqueezeStep(s, front);
    }
  }

  lemma PushIs(out: string, c: char)
    ensures Push(out, c) == if Letters(c) || (Gaps(c) && out != "" && out[|out| - 1] != '_') then out + [if Gaps(c) then '_' else c] else out
  {
    assert "_" == ['_'];
  }

  lemma StepSpells(s: string, at: seq<int>, out: string) returns (after: seq<int>, next: string)
    requires s != "" && Showing(s[..|s| - 1], at) && Spells(s[..|s| - 1], at, out)
    ensures Showing(s, after) && Spells(s, after, next)
    ensures var c := s[|s| - 1];
            next == if Letters(c) || (Gaps(c) && out != "" && out[|out| - 1] != '_') then out + [if Gaps(c) then '_' else c] else out
  {
    var n := |s| - 1;
    SpellsMore(s, at, out);
    GapShows(s, at, out);
    ShowingSnoc(s, at, Shows(s, n));
    SpellsSnoc(s, at, out, n);
    if Shows(s, n) {
      after, next := at + [n], out + [if Gaps(s[n]) then '_' else s[n]];
    } else {
      after, next := at, out;
    }
  }

  lemma SqueezeStep(s: string, at: seq<int>) returns (after: seq<int>)
    requires s != "" && Showing(s[..|s| - 1], at) && Spells(s[..|s| - 1], at, Squeeze(s[..|s| - 1]))
    ensures Showing(s, after) && Spells(s, after, Squeeze(s))
  {
    var next;
    PushIs(Squeeze(s[..|s| - 1]), s[|s| - 1]);
    after, next := StepSpells(s, at, Squeeze(s[..|s| - 1]));
  }

  lemma SpellsMore(s: string, at: seq<int>, out: string)
    requires s != "" && Spells(s[..|s| - 1], at, out)
    ensures Spells(s, at, out)
  {
    var front := s[..|s| - 1];
    forall k | 0 <= k < |at| ensures 0 <= at[k] < |s| && out[k] == if Gaps(s[at[k]]) then '_' else s[at[k]] {
      assert front[at[k]] == s[at[k]];
    }
  }

  lemma SpellsSnoc(s: string, at: seq<int>, out: string, n: int)
    requires Spells(s, at, out) && 0 <= n < |s|
    ensures Spells(s, at + [n], out + [if Gaps(s[n]) then '_' else s[n]])
  {
  }

  /** A separator at the end shows exactly when the last character out is a
      letter or digit. */
  lemma GapShows(s: string, at: seq<int>, out: string)
    requires s != "" && Showing(s[..|s| - 1], at) && Spells(s, at, out)
    ensures Gaps(s[|s| - 1]) ==> (Shows(s, |s| - 1) <==> out != "" && out[|out| - 1] != '_')
  {
    if Gaps(s[|s| - 1]) && out != "" && out[|out| - 1] != '_' {
      LetterLast(s, at, out);
    }
    if Gaps(s[|s| - 1]) && Shows(s, |s| - 1) {
      ShownLast(s, at, out);
    }
  }

  lemma LetterLast(s: string, at: seq<int>, out: string)
    requires s != "" && Showing(s[..|s| - 1], at) && Spells(s, at, out)
    requires Gaps(s[|s| - 1]) && out != "" && out[|out| - 1] != '_'
    ensures Shows(s, |s| - 1)
  {
    var i := at[|at| - 1];
    assert Shows(s[..|s| - 1], i);
    NothingAfter(s, at);
    assert AfterLetter(s, i, |s| - 1);
  }

  lemma ShownLast(s: string, at: seq<int>, out: string)
    requires s != "" && Showing(s[..|s| - 1], at) && Spells(s, at, out)
    requires Gaps(s[|s| - 1]) && Shows(s, |s| - 1)
    ensures out != "" && out[|out| - 1] != '_'
  {
    var i :| 0 <= i < |s| - 1 && AfterLetter(s, i, |s| - 1);
    assert Shows(s[..|s| - 1], i);
    LastIsLargest(s, at, i);
    assert at[|at| - 1] == i;
  }

  lemma LastIsLargest(s: string, at: seq<int>, i: int)
    requires s != "" && Showing(s[..|s| - 1], at) && i in at
    ensures i <= at[|at| - 1]
    ensures i < at[|at| - 1] ==> Letters(s[at[|at| - 1]]) || Gaps(s[at[|at| - 1]])
  {
    assert Shows(s[..|s| - 1], at[|at| - 1]);
  }

  /** Nothing between the last shown letter and the end is kept. */
  lemma NothingAfter(s: string, at: seq<int>)
    requires s != "" && Showing(s[..|s| - 1], at) && at != [] && Letters(s[at[|at| - 1]])
    ensures forall m :: at[|at| - 1] < m < |s| - 1 ==> !Letters(s[m]) && !Gaps(s[m])
  {
    var front, i := s[..|s| - 1], at[|at| - 1];
    forall m | i < m < |front| ensures !Letters(s[m]) && !Gaps(s[m]) {
      NoneShown(front, at, i, m);
    }
  }

  lemma {:induction false} NoneShown(s: string, at: seq<int>, i: int, m: int)
    requires Showing(s, at) && at != [] && at[|at| - 1] == i && Letters(s[i]) && i < m < |s|
    ensures !Letters(s[m]) && !Gaps(s[m])
    decreases m
  {
    forall l | i < l < m ensures !Letters(s[l]) && !Gaps(s[l]) {
      NoneShown(s, at, i, l);
    }
    assert AfterLetter(s, i, m);
    assert m !in at;
  }

  predicate Underscores(s: string) { forall i :: 0 <= i < |s| ==> s[i] == '_' }

  predicate DigitOrUnderscore(c: char) { '0' <= c <= '9' || c == '_' }

  predicate DigitsOrUnderscores(s: string) { forall i :: 0 <= i < |s| ==> DigitOrUnderscore(s[i]) }

  lemma {:induction false} TrimLeftCuts(s: string) returns (lead: string)
    ensures s == lead + TrimLeft(s) && DigitsOrUnderscores(lead) && (TrimLeft(s) != "" ==> !DigitOrUnderscore(TrimLeft(s)[0]))
  {
    if s != "" && (IsDigit(s[0]) || s[0] == '_') {
      var rest := TrimLeftCuts(s[1..]);
      lead := [s[0]] + rest;
      Regroup([s[0]], rest, TrimLeft(s));
      assert s == [s[0]] + s[1..];
    } else {
      lead := "";
    }
  }

  lemma {:induction false} TrimRightCuts(s: string) returns (trail: string)
    ensures s == TrimRight(s) + trail && Underscores(trail) && (TrimRight(s) != "" ==> TrimRight(s)[|TrimRight(s)| - 1] != '_')
  {
    if s != "" && s[|s| - 1] == '_' {
      var rest := TrimRightCuts(s[..|s| - 1]);
      trail := rest + [s[|s| - 1]];
      Regroup(TrimRight(s), rest, [s[|s| - 1]]);
      assert s == s[..|s| - 1] + [s[|s| - 1]];
    } else {
      trail := "";
    }
  }

  /** What is left of the squeezed text between leading digits or underscores
      and trailing underscores, cut to 24 characters and its underscores
      trimmed again; `user` when that is empty or the engine's own name. */
  lemma BaseIs(s: string) returns (lead: string, body: string, trail: string, kept: string, under: string)
    ensures Squeeze(s) == lead + body + trail && DigitsOrUnderscores(lead) && Underscores(trail)
    ensures body != "" ==> !DigitOrUnderscore(body[0]) && body[|body| - 1] != '_'
    ensures (if |body| <= 24 then body else body[..24]) == kept + under && Underscores(under)
    ensures kept != "" ==> kept[|kept| - 1] != '_'
    ensures BaseOf(s) == if kept == "" || kept == "assistant" then "user" else kept
  {
    lead := TrimLeftCuts(Squeeze(s));
    trail := TrimRightCuts(TrimLeft(Squeeze(s)));
    body := TrimRight(TrimLeft(Squeeze(s)));
    under := TrimRightCuts(Take(body, BASE_MAX_LENGTH));
    kept := TrimRight(Take(body, BASE_MAX_LENGTH));
    assert TrimLeft(Squeeze(s)) != "" && body != "" ==> body[0] == TrimLeft(Squeeze(s))[0];
  }

  lemma {:induction false} NoLeadingZero(n: nat)
    requires n > 0
    ensures Decimal(n) != "" && Decimal(n)[0] != '0'
  {
    if n >= 10 {
      NoLeadingZero(n / 10);
    } else {
      DigitRoundTrip(n);
    }
  }

  /** The first holder's handle is the base, every later one's the base, a
      point and the rank, the base cut so that all of it has 32 characters. */
  lemma HandleIs(base: string, rank: int)
    ensures rank <= 1 ==> HandleForRank(base, rank) == if |base| <= 32 then base else base[..32]
    ensures rank >= 2 ==>
              var suffix := ['.'] + Decimal(rank);
              && (|base| + |suffix| <= 32 ==> HandleForRank(base, rank) == base + suffix)
              && (|suffix| <= 32 < |base| + |suffix| ==> HandleForRank(base, rank) == base[..32 - |suffix|] + suffix)
              && (|suffix| > 32 ==>
                    HandleForRank(base, rank) == (if |suffix| - 32 >= |base| then "" else base[..|base| - (|suffix| - 32)]) + suffix)
  {
    assert "." == ['.'];
    if rank >= 2 {
      assert Suffix(rank) == ['.'] + Decimal(rank);
    }
  }
}
