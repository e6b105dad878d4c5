/** Text tests the modelled Python code relies on: truthiness of a string is
    `s != ""`, and `str.strip` removes the whitespace characters listed in
    virtual_context/core/canonical_turns.py. */
module Text {

  /** The characters `str.strip` removes. */
  predicate IsSpace(c: char) {
    || '\t' <= c <= '\r'
    || '\U{1c}' <= c <= ' '
    || c == '\U{85}' || c == '\U{a0}' || c == '\U{1680}'
    || '\U{2000}' <= c <= '\U{200a}'
    || c == '\U{2028}' || c == '\U{2029}' || c == '\U{202f}'
    || c == '\U{205f}' || c == '\U{3000}'
  }

  function LStrip(s: string): string {
    if s != "" && IsSpace(s[0]) then LStrip(s[1..]) else s
  }

  function RStrip(s: string): string {
    if s != "" && IsSpace(s[|s| - 1]) then RStrip(s[..|s| - 1]) else s
  }

  function Strip(s: string): string {
    RStrip(LStrip(s))
  }

  /** `not s.strip()` */
  predicate Blank(s: string) {
    forall i :: 0 <= i < |s| ==> IsSpace(s[i])
  }

  lemma {:induction false} LStripBlank(s: string)
    ensures LStrip(s) == "" <==> Blank(s)
    ensures LStrip(s) != "" ==> !IsSpace(LStrip(s)[0])
  {
    if s == "" {
    } else if IsSpace(s[0]) {
      LStripBlank(s[1..]);
      assert Blank(s) <==> Blank(s[1..]) by {
        assert forall i :: 1 <= i < |s| ==> s[i] == s[1..][i - 1];
      }
    }
  }

  lemma {:induction false} RStripKeepsFirst(s: string)
    requires s != "" && !IsSpace(s[0])
    ensures RStrip(s) != "" && RStrip(s)[0] == s[0]
    ensures !IsSpace(RStrip(s)[|RStrip(s)| - 1])
  {
    if IsSpace(s[|s| - 1]) {
      RStripKeepsFirst(s[..|s| - 1]);
    }
  }

  /** Stripping empties exactly the blank strings, and what it leaves starts
      and ends outside the whitespace. */
  lemma StripBlank(s: string)
    ensures Strip(s) == "" <==> Blank(s)
    ensures Strip(s) != "" ==> !IsSpace(Strip(s)[0]) && !IsSpace(Strip(s)[|Strip(s)| - 1])
  {
    LStripBlank(s);
    if LStrip(s) != "" {
      RStripKeepsFirst(LStrip(s));
    }
  }

  /** A string that neither starts nor ends with whitespace is its own strip. */
  lemma StripFixed(s: string)
    requires s == "" || (!IsSpace(s[0]) && !IsSpace(s[|s| - 1]))
    ensures Strip(s) == s
  {
  }

  lemma StripIdempotent(s: string)
    ensures Strip(Strip(s)) == Strip(s)
  {
    StripBlank(s);
    StripFixed(Strip(s));
  }

  lemma Regroup(a: string, b: string, c: string)
    ensures a + (b + c) == (a + b) + c
  {
  }

  lemma {:induction false} LStripCuts(s: string) returns (lead: string)
    ensures s == lead + LStrip(s) && Blank(lead)
  {
    if s != "" && IsSpace(s[0]) {
      var rest := LStripCuts(s[1..]);
      lead := [s[0]] + rest;
      Regroup([s[0]], rest, LStrip(s));
      assert s == [s[0]] + s[1..];
    } else {
      lead := "";
    }
  }

  lemma {:induction false} RStripCuts(s: string) returns (trail: string)
    ensures s == RStrip(s) + trail && Blank(trail)
  {
    if s != "" && IsSpace(s[|s| - 1]) {
      var rest := RStripCuts(s[..|s| - 1]);
      trail := rest + [s[|s| - 1]];
      Regroup(RStrip(s), rest, [s[|s| - 1]]);
      assert s == s[..|s| - 1] + [s[|s| - 1]];
    } else {
      trail := "";
    }
  }

  /** Stripping takes whitespace off the two ends and nothing else. */
  lemma StripCuts(s: string) returns (lead: string, trail: string)
    ensures s == lead + Strip(s) + trail && Blank(lead) && Blank(trail)
  {
    lead := LStripCuts(s);
    trail := RStripCuts(LStrip(s));
  }
}
