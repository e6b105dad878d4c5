/** The persisted structured summary: a strict decoder that accepts a payload
    whole or not at all, and an encoder that refuses what the decoder would
    refuse. */
module StructuredSummary {
  import opened Seqs
  import opened Text

  /** What `json.loads` yields, and what a dataclass field may hold. */
  datatype Json =
    | JNull
    | JBool(flag: bool)
    | JInt(number: int)
    | JReal(ratio: real)
    | JStr(text: string)
    | JList(items: seq<Json>)
    | JObj(fields: map<string, Json>)

  /** The dataclasses do not enforce their field types, so a field may hold
      anything, and a tuple may hold strangers. */
  datatype Source =
    | Source(canonicalId: Json, role: Json, speaker: Json, excerpt: Json, date: Json, digest: Json)
    | NotASource

  datatype Claim =
    | Claim(text: Json, kind: Json, temporal: Json, modality: Json, eventTime: Json, sources: seq<Source>)
    | NotAClaim

  datatype Summary = Summary(version: Json, claims: seq<Claim>, digest: Json, model: Json)

  const VERSION := 1
  const MAX_CLAIMS := 256
  const MAX_SOURCES := 1
  const MAX_TEXT := 1000
  const MAX_EXCERPT := 800
  const MAX_EVENT_TIME := 128
  const MAX_CANONICAL_ID := 256
  const MAX_LABEL := 256
  const MAX_DATE := 128
  const DIGEST_CHARS := 64
  const MAX_MODEL := 256

  const ROLES := {"requester"}
  const KINDS := {"personal", "world", "decision", "action", "technical", "conversation"}
  const MODALITIES := {"asserted", "hypothetical", "conditional", "question", "recommendation", "uncertain"}
  const TEMPORALS := {"", "active", "completed", "ceased", "planned", "abandoned", "recurring"}

  const CURRENT_KEYS := {"schema_version", "claims", "source_digest", "generation_model"}
  const LEGACY_KEYS := {"schema_version", "claims"}
  const CLAIM_KEYS := {"text", "claim_type", "temporal_status", "modality", "event_time", "sources"}
  const SOURCE_KEYS :=
    {"canonical_turn_id", "source_role", "speaker_label", "evidence_excerpt", "session_date", "source_provenance_digest"}

  /** The version-zero value without claims. */
  const EMPTY := Summary(JInt(0), [], JStr(""), JStr(""))

  const EMPTY_PAYLOAD :=
    JObj(map["schema_version" := JInt(0), "claims" := JList([]), "source_digest" := JStr(""), "generation_model" := JStr("")])

  // ---- admissible values ----

  predicate Within(j: Json, max: nat) { j.JStr? && |j.text| <= max }

  predicate Spoken(j: Json, max: nat) { Within(j, max) && !Blank(j.text) }

  predicate OneOf(j: Json, names: set<string>) { j.JStr? && j.text in names }

  predicate IsDigest(s: string) {
    |s| == DIGEST_CHARS && forall i :: 0 <= i < |s| ==> '0' <= s[i] <= '9' || 'a' <= s[i] <= 'f'
  }

  predicate SourceOk(s: Source) {
    && s.Source?
    && Spoken(s.canonicalId, MAX_CANONICAL_ID) && OneOf(s.role, ROLES) && Spoken(s.speaker, MAX_LABEL)
    && Spoken(s.excerpt, MAX_EXCERPT) && Within(s.date, MAX_DATE) && s.digest.JStr? && IsDigest(s.digest.text)
  }

  predicate ClaimOk(c: Claim) {
    && c.Claim?
    && Spoken(c.text, MAX_TEXT) && OneOf(c.kind, KINDS) && OneOf(c.temporal, TEMPORALS) && OneOf(c.modality, MODALITIES)
    && Within(c.eventTime, MAX_EVENT_TIME)
    && |c.sources| == MAX_SOURCES && SourceOk(c.sources[0]) && c.text == c.sources[0].excerpt
  }

  predicate ClaimsOk(cs: seq<Claim>) { forall i :: 0 <= i < |cs| ==> ClaimOk(cs[i]) }

  /** A well-formed value of the current schema. */
  predicate Current(v: Summary) {
    && v.version == JInt(VERSION) && |v.claims| <= MAX_CLAIMS && ClaimsOk(v.claims)
    && v.digest.JStr? && (v.digest.text == "" || IsDigest(v.digest.text)) && (v.claims != [] ==> v.digest.text != "")
    && Within(v.model, MAX_MODEL)
  }

  /** Python's `==` with the sentinel: False and 0.0 equal 0. */
  predicate EqualsEmpty(v: Summary) {
    && v.version in {JInt(0), JBool(false), JReal(0.0)}
    && v.(version := JInt(0)) == EMPTY
  }

  predicate Equal(decoded: Summary, v: Summary)
    requires decoded == EMPTY || Current(decoded)
  {
    if decoded == EMPTY then EqualsEmpty(v)
    else v.version in {JInt(VERSION), JBool(true), JReal(1.0)} && v.(version := JInt(VERSION)) == decoded
  }

  // ---- the payload's shape ----

  predicate SourceShaped(j: Json) { j.JObj? && j.fields.Keys == SOURCE_KEYS }

  predicate SourcesShaped(js: seq<Json>) { forall i :: 0 <= i < |js| ==> SourceShaped(js[i]) }

  predicate ClaimShaped(j: Json) {
    j.JObj? && j.fields.Keys == CLAIM_KEYS && j.fields["sources"].JList? && SourcesShaped(j.fields["sources"].items)
  }

  predicate ClaimsShaped(js: seq<Json>) { forall i :: 0 <= i < |js| ==> ClaimShaped(js[i]) }

  predicate SummaryShaped(j: Json) {
    && j.JObj? && (j.fields.Keys == CURRENT_KEYS || j.fields.Keys == LEGACY_KEYS)
    && j.fields["claims"].JList? && ClaimsShaped(j.fields["claims"].items)
  }

  function SourceOf(j: Json): Source
    requires SourceShaped(j)
  {
    Source(j.fields["canonical_turn_id"], j.fields["source_role"], j.fields["speaker_label"],
           j.fields["evidence_excerpt"], j.fields["session_date"], j.fields["source_provenance_digest"])
  }

  function SourcesOf(js: seq<Json>): (r: seq<Source>)
    requires SourcesShaped(js)
    ensures |r| == |js|
  {
    seq(|js|, i requires 0 <= i < |js| => SourceOf(js[i]))
  }

  function ClaimOf(j: Json): Claim
    requires ClaimShaped(j)
  {
    Claim(j.fields["text"], j.fields["claim_type"], j.fields["temporal_status"], j.fields["modality"], j.fields["event_time"],
          SourcesOf(j.fields["sources"].items))
  }

  function ClaimsOf(js: seq<Json>): (r: seq<Claim>)
    requires ClaimsShaped(js)
    ensures |r| == |js|
  {
    seq(|js|, i requires 0 <= i < |js| => ClaimOf(js[i]))
  }

  function Get(fields: map<string, Json>, key: string): Json {
    if key in fields then fields[key] else JStr("")
  }

  function SummaryOf(j: Json): Summary
    requires SummaryShaped(j)
  {
    Summary(j.fields["schema_version"], ClaimsOf(j.fields["claims"].items), Get(j.fields, "source_digest"), Get(j.fields, "generation_model"))
  }

  /** What the decoder means: the payload has the shape of a summary, and that
      summary is well-formed. */
  predicate Accepts(j: Json) { SummaryShaped(j) && Current(SummaryOf(j)) }

  function Decode(j: Json): (v: Summary)
    ensures v == EMPTY || Current(v)
  {
    if Accepts(j) then SummaryOf(j) else EMPTY
  }

  // ---- the decoder ----

  method StrictSource(raw: Json) returns (r: Option<Source>)
    ensures r.Some? <==> SourceShaped(raw) && SourceOk(SourceOf(raw))
    ensures r.Some? ==> r.value == SourceOf(raw)
  {
    if !raw.JObj? || raw.fields.Keys != SOURCE_KEYS {
      return None;
    }
    var canonicalId, role, speaker := raw.fields["canonical_turn_id"], raw.fields["source_role"], raw.fields["speaker_label"];
    var excerpt, date, digest := raw.fields["evidence_excerpt"], raw.fields["session_date"], raw.fields["source_provenance_digest"];
    if || !canonicalId.JStr? || Blank(canonicalId.text) || |canonicalId.text| > MAX_CANONICAL_ID
       || !role.JStr? || role.text !in ROLES
       || !speaker.JStr? || Blank(speaker.text) || |speaker.text| > MAX_LABEL
       || !excerpt.JStr? || Blank(excerpt.text) || |excerpt.text| > MAX_EXCERPT
       || !date.JStr? || |date.text| > MAX_DATE
       || !digest.JStr? || !IsDigest(digest.text) {
      return None;
    }
    return Some(Source(canonicalId, role, speaker, excerpt, date, digest));
  }

  method StrictClaim(raw: Json) returns (r: Option<Claim>)
    ensures r.Some? <==> ClaimShaped(raw) && ClaimOk(ClaimOf(raw))
    ensures r.Some? ==> r.value == ClaimOf(raw)
  {
    if !raw.JObj? || raw.fields.Keys != CLAIM_KEYS {
      return None;
    }
    var text, kind, temporal := raw.fields["text"], raw.fields["claim_type"], raw.fields["temporal_status"];
    var modality, eventTime, sourcesRaw := raw.fields["modality"], raw.fields["event_time"], raw.fields["sources"];
    if || !text.JStr? || Blank(text.text) || |text.text| > MAX_TEXT
       || !kind.JStr? || kind.text !in KINDS
       || !temporal.JStr? || temporal.text !in TEMPORALS
       || !modality.JStr? || modality.text !in MODALITIES
       || !eventTime.JStr? || |eventTime.text| > MAX_EVENT_TIME
       || !sourcesRaw.JList? || |sourcesRaw.items| != MAX_SOURCES {
      return None;
    }
    var sources := [];
    for i := 0 to |sourcesRaw.items|
      invariant SourcesShaped(sourcesRaw.items[..i]) && sources == SourcesOf(sourcesRaw.items[..i])
      invariant forall k :: 0 <= k < i ==> SourceOk(sources[k])
    {
      var source := StrictSource(sourcesRaw.items[i]);
      if source.None? {
        return None;
      }
      assert sourcesRaw.items[..i + 1] == sourcesRaw.items[..i] + [sourcesRaw.items[i]];
      sources := sources + [source.value];
    }
    assert sourcesRaw.items[..|sourcesRaw.items|] == sourcesRaw.items;
    var roles := set s | s in sources :: s.role;
    assert sources == [sources[0]];
    assert roles == {JStr("requester")};
    if roles != {JStr("requester")} || text != sources[0].excerpt {
      return None;
    }
    return Some(Claim(text, kind, temporal, modality, eventTime, sources));
  }

  /** `strict_structured_summary` */
  method StrictStructuredSummary(raw: Json) returns (v: Summary)
    ensures v == Decode(raw)
  {
    if !raw.JObj? || (raw.fields.Keys != CURRENT_KEYS && raw.fields.Keys != LEGACY_KEYS) {
      return EMPTY;
    }
    var version, claimsRaw := raw.fields["schema_version"], raw.fields["claims"];
    var digest, model := Get(raw.fields, "source_digest"), Get(raw.fields, "generation_model");
    if !version.JInt? || !claimsRaw.JList? {
      return EMPTY;
    }
    if || !digest.JStr? || |digest.text| > DIGEST_CHARS || (digest.text != "" && !IsDigest(digest.text))
       || !model.JStr? || |model.text| > MAX_MODEL {
      return EMPTY;
    }
    if version.number != VERSION || |claimsRaw.items| > MAX_CLAIMS {
      return EMPTY;
    }
    DigestNotBlank(digest.text);
    if claimsRaw.items != [] && Blank(digest.text) {
      return EMPTY;
    }
    var claims := [];
    for i := 0 to |claimsRaw.items|
      invariant ClaimsShaped(claimsRaw.items[..i]) && claims == ClaimsOf(claimsRaw.items[..i]) && ClaimsOk(claims)
    {
      var claim := StrictClaim(claimsRaw.items[i]);
      if claim.None? {
        if Accepts(raw) {
          OneBadClaim(raw, i);
        }
        return EMPTY;
      }
      assert claimsRaw.items[..i + 1] == claimsRaw.items[..i] + [claimsRaw.items[i]];
      claims := claims + [claim.value];
    }
    assert claimsRaw.items[..|claimsRaw.items|] == claimsRaw.items;
    return Summary(version, claims, digest, model);
  }

  lemma OneBadClaim(j: Json, i: nat)
    requires Accepts(j) && i < |j.fields["claims"].items|
    ensures ClaimShaped(j.fields["claims"].items[i]) && ClaimOk(ClaimOf(j.fields["claims"].items[i]))
  {
    assert ClaimOk(SummaryOf(j).claims[i]);
  }

  lemma DigestNotBlank(s: string)
    ensures IsDigest(s) ==> !Blank(s)
    ensures s == "" ==> Blank(s)
  {
    if IsDigest(s) {
      assert !IsSpace(s[0]);
    }
  }

  // ---- the encoder ----

  function EncodeSource(s: Source): Json
    requires s.Source?
  {
    JObj(map["canonical_turn_id" := s.canonicalId, "source_role" := s.role, "speaker_label" := s.speaker,
             "evidence_excerpt" := s.excerpt, "session_date" := s.date, "source_provenance_digest" := s.digest])
  }

  function EncodeSources(ss: seq<Source>): seq<Json> {
    if ss == [] then []
    else (if ss[0].Source? then [EncodeSource(ss[0])] else []) + EncodeSources(ss[1..])
  }

  function EncodeClaim(c: Claim): Json
    requires c.Claim?
  {
    JObj(map["text" := c.text, "claim_type" := c.kind, "temporal_status" := c.temporal, "modality" := c.modality,
             "event_time" := c.eventTime, "sources" := JList(EncodeSources(c.sources))])
  }

  function EncodeClaims(cs: seq<Claim>): seq<Json> {
    if cs == [] then []
    else (if cs[0].Claim? then [EncodeClaim(cs[0])] else []) + EncodeClaims(cs[1..])
  }

  function RawOf(v: Summary): Json {
    JObj(map["schema_version" := v.version, "claims" := JList(EncodeClaims(v.claims)), "source_digest" := v.digest,
             "generation_model" := v.model])
  }

  /** `structured_summary_to_dict` */
  function Encode(v: Summary): Json {
    if Equal(Decode(RawOf(v)), v) then RawOf(v) else EMPTY_PAYLOAD
  }

  // ---- round trips ----

  /** The values the codec carries faithfully. */
  predicate Admissible(v: Summary) { EqualsEmpty(v) || Current(v) }

  predicate AllSources(ss: seq<Source>) { forall i :: 0 <= i < |ss| ==> ss[i].Source? }

  lemma SourceOfEncode(x: Source)
    requires x.Source?
    ensures SourceShaped(EncodeSource(x)) && SourceOf(EncodeSource(x)) == x
  {
    assert EncodeSource(x).fields.Keys == SOURCE_KEYS;
  }

  lemma SourcesOfCons(j: Json, js: seq<Json>)
    requires SourceShaped(j) && SourcesShaped(js)
    ensures SourcesShaped([j] + js) && SourcesOf([j] + js) == [SourceOf(j)] + SourcesOf(js)
  {
  }

  lemma EncodeSourcesCons(x: Source, ss: seq<Source>)
    ensures EncodeSources([x] + ss) == (if x.Source? then [EncodeSource(x)] else []) + EncodeSources(ss)
  {
    assert ([x] + ss)[1..] == ss;
  }

  lemma {:induction false} SourcesOfEncode(ss: seq<Source>)
    ensures SourcesShaped(EncodeSources(ss))
    ensures AllSources(ss) ==> SourcesOf(EncodeSources(ss)) == ss
  {
    if ss != [] {
      var x, rest := ss[0], ss[1..];
      assert ss == [x] + rest;
      SourcesOfEncode(rest);
      EncodeSourcesCons(x, rest);
      if x.Source? {
        SourceOfEncode(x);
        SourcesOfCons(EncodeSource(x), EncodeSources(rest));
      }
      assert AllSources(ss) ==> x.Source? && AllSources(rest);
    }
  }

  lemma ClaimOfEncode(c: Claim)
    requires c.Claim?
    ensures ClaimShaped(EncodeClaim(c))
    ensures ClaimOk(c) ==> ClaimOf(EncodeClaim(c)) == c
  {
    SourcesOfEncode(c.sources);
    assert EncodeClaim(c).fields.Keys == CLAIM_KEYS;
  }

  lemma ClaimsOfCons(j: Json, js: seq<Json>)
    requires ClaimShaped(j) && ClaimsShaped(js)
    ensures ClaimsShaped([j] + js) && ClaimsOf([j] + js) == [ClaimOf(j)] + ClaimsOf(js)
  {
  }

  lemma EncodeClaimsCons(c: Claim, cs: seq<Claim>)
    ensures EncodeClaims([c] + cs) == (if c.Claim? then [EncodeClaim(c)] else []) + EncodeClaims(cs)
  {
    assert ([c] + cs)[1..] == cs;
  }

  lemma {:induction false} ClaimsOfEncode(cs: seq<Claim>)
    ensures ClaimsShaped(EncodeClaims(cs))
    ensures ClaimsOk(cs) ==> ClaimsOf(EncodeClaims(cs)) == cs
  {
    if cs != [] {
      var c, rest := cs[0], cs[1..];
      assert cs == [c] + rest;
      ClaimsOfEncode(rest);
      EncodeClaimsCons(c, rest);
      if c.Claim? {
        ClaimOfEncode(c);
        ClaimsOfCons(EncodeClaim(c), EncodeClaims(rest));
      }
      assert ClaimsOk(cs) ==> ClaimOk(cs[0]) && ClaimsOk(rest);
    }
  }

  lemma RawShaped(v: Summary)
    ensures SummaryShaped(RawOf(v))
    ensures ClaimsOk(v.claims) ==> SummaryOf(RawOf(v)) == v
  {
    ClaimsOfEncode(v.claims);
    assert RawOf(v).fields.Keys == CURRENT_KEYS;
  }

  /** A value survives encoding exactly when it is admissible; anything else
      is stored as the empty payload. */
  lemma EncodeKeepsExactlyAdmissible(v: Summary)
    ensures Admissible(v) <==> Equal(Decode(Encode(v)), v)
    ensures Current(v) ==> Decode(Encode(v)) == v
    ensures !Admissible(v) ==> Encode(v) == EMPTY_PAYLOAD && Decode(Encode(v)) == EMPTY
  {
    RawShaped(v);
    EmptyDecodesEmpty();
    var d := Decode(RawOf(v));
    if Current(v) {
      assert d == v;
    } else if EqualsEmpty(v) {
      assert d == EMPTY;
    } else if d != EMPTY {
      assert d.version == v.version;
      assert d == v || !Equal(d, v);
    }
  }

  lemma EmptyDecodesEmpty()
    ensures Decode(EMPTY_PAYLOAD) == EMPTY && RawOf(EMPTY) == EMPTY_PAYLOAD
  {
    assert EMPTY_PAYLOAD.fields.Keys == CURRENT_KEYS;
  }

  /** The payload with the two keys a legacy payload omits. */
  function WithDefaults(j: Json): Json
    requires SummaryShaped(j)
  {
    JObj(j.fields["source_digest" := Get(j.fields, "source_digest")]["generation_model" := Get(j.fields, "generation_model")])
  }

  lemma {:induction false} EncodeOfSources(js: seq<Json>)
    requires SourcesShaped(js)
    ensures EncodeSources(SourcesOf(js)) == js
  {
    if js != [] {
      EncodeOfSources(js[1..]);
      assert SourcesOf(js)[1..] == SourcesOf(js[1..]);
      assert EncodeSource(SourceOf(js[0])).fields == js[0].fields;
      assert js == [js[0]] + js[1..];
    }
  }

  lemma EncodeOfClaim(j: Json)
    requires ClaimShaped(j)
    ensures EncodeClaim(ClaimOf(j)) == j
  {
    EncodeOfSources(j.fields["sources"].items);
    assert EncodeClaim(ClaimOf(j)).fields == j.fields;
  }

  lemma {:induction false} EncodeOfClaims(js: seq<Json>)
    requires ClaimsShaped(js)
    ensures EncodeClaims(ClaimsOf(js)) == js
  {
    if js != [] {
      var j, rest := js[0], js[1..];
      assert js == [j] + rest;
      EncodeOfClaims(rest);
      EncodeOfClaim(j);
      ClaimsOfCons(j, rest);
      EncodeClaimsCons(ClaimOf(j), ClaimsOf(rest));
    }
  }

  lemma FieldsByName(fields: map<string, Json>, d: Json, m: Json)
    requires fields.Keys == CURRENT_KEYS || fields.Keys == LEGACY_KEYS
    ensures map["schema_version" := fields["schema_version"], "claims" := fields["claims"], "source_digest" := d, "generation_model" := m]
         == fields["source_digest" := d]["generation_model" := m]
  {
  }

  lemma RawOfSummary(j: Json)
    requires SummaryShaped(j)
    ensures RawOf(SummaryOf(j)) == WithDefaults(j)
  {
    EncodeOfClaims(j.fields["claims"].items);
    FieldsByName(j.fields, Get(j.fields, "source_digest"), Get(j.fields, "generation_model"));
  }

  lemma DefaultsChangeNothing(j: Json)
    requires SummaryShaped(j)
    ensures WithDefaults(j) == j <==> j.fields.Keys == CURRENT_KEYS
  {
    assert "source_digest" in WithDefaults(j).fields;
    assert j.fields.Keys == CURRENT_KEYS ==> WithDefaults(j).fields == j.fields;
  }

  /** Re-encoding an accepted payload returns it, with the keys a legacy
      payload leaves out; every other payload re-encodes to the empty one. */
  lemma ReencodeReturnsPayload(j: Json)
    ensures Accepts(j) ==> Encode(Decode(j)) == WithDefaults(j)
    ensures !Accepts(j) ==> Encode(Decode(j)) == EMPTY_PAYLOAD
    ensures Encode(Decode(j)) == j <==> j == EMPTY_PAYLOAD || (Accepts(j) && j.fields.Keys == CURRENT_KEYS)
  {
    var v := Decode(j);
    EncodeKeepsExactlyAdmissible(v);
    EmptyDecodesEmpty();
    if Accepts(j) {
      RawOfSummary(j);
      DefaultsChangeNothing(j);
      RawShaped(v);
    }
  }

  /** Decoding admits every claim or none. Each admitted claim rests on one
      requester source it quotes in full, so its text is bounded by the
      excerpt limit and the larger text limit never decides. */
  lemma AllOrNothing(j: Json, i: nat)
    ensures Decode(j) == EMPTY || (SummaryShaped(j) && |Decode(j).claims| == |j.fields["claims"].items|)
    ensures i < |Decode(j).claims| ==>
              var c := Decode(j).claims[i];
              && c.Claim? && |c.sources| == 1 && c.sources[0].Source? && c.sources[0].role == JStr("requester")
              && c.text == c.sources[0].excerpt && c.text.JStr? && !Blank(c.text.text) && |c.text.text| <= MAX_EXCERPT
    ensures i < |Decode(j).claims| ==> Decode(j).digest.JStr? && IsDigest(Decode(j).digest.text)
  {
    var v := Decode(j);
    if i < |v.claims| {
      assert ClaimOk(v.claims[i]);
    }
  }

  // ---- the accepted payloads, in the payload's own terms ----

  predicate Hex(s: string) {
    |s| == 64 && forall i :: 0 <= i < |s| ==> s[i] in "0123456789abcdef"
  }

  predicate ShortText(j: Json, most: nat) { j.JStr? && |j.text| <= most }

  predicate FilledText(j: Json, most: nat) { ShortText(j, most) && Strip(j.text) != "" }

  predicate WellFormedSource(j: Json) {
    && j.JObj?
    && j.fields.Keys ==
         {"canonical_turn_id", "source_role", "speaker_label", "evidence_excerpt", "session_date", "source_provenance_digest"}
    && FilledText(j.fields["canonical_turn_id"], 256) && j.fields["source_role"] == JStr("requester")
    && FilledText(j.fields["speaker_label"], 256) && FilledText(j.fields["evidence_excerpt"], 800)
    && ShortText(j.fields["session_date"], 128) && ShortText(j.fields["source_provenance_digest"], 64)
    && Hex(j.fields["source_provenance_digest"].text)
  }

  predicate WellFormedClaim(j: Json) {
    && j.JObj? && j.fields.Keys == {"text", "claim_type", "temporal_status", "modality", "event_time", "sources"}
    && FilledText(j.fields["text"], 1000)
    && j.fields["claim_type"].JStr?
    && j.fields["claim_type"].text in {"personal", "world", "decision", "action", "technical", "conversation"}
    && j.fields["temporal_status"].JStr?
    && j.fields["temporal_status"].text in {"", "active", "completed", "ceased", "planned", "abandoned", "recurring"}
    && j.fields["modality"].JStr?
    && j.fields["modality"].text in {"asserted", "hypothetical", "conditional", "question", "recommendation", "uncertain"}
    && ShortText(j.fields["event_time"], 128)
    && j.fields["sources"].JList? && |j.fields["sources"].items| == 1 && WellFormedSource(j.fields["sources"].items[0])
    && j.fields["text"] == j.fields["sources"].items[0].fields["evidence_excerpt"]
  }

  /** A missing digest or model name counts as empty. */
  predicate WellFormed(j: Json) {
    && j.JObj?
    && (j.fields.Keys == {"schema_version", "claims", "source_digest", "generation_model"} || j.fields.Keys == {"schema_version", "claims"})
    && j.fields["schema_version"] == JInt(1)
    && j.fields["claims"].JList? && |j.fields["claims"].items| <= 256
    && (forall i :: 0 <= i < |j.fields["claims"].items| ==> WellFormedClaim(j.fields["claims"].items[i]))
    && ("source_digest" in j.fields ==>
          j.fields["source_digest"] == JStr("") || (j.fields["source_digest"].JStr? && Hex(j.fields["source_digest"].text)))
    && ("generation_model" in j.fields ==> ShortText(j.fields["generation_model"], 256))
    && (j.fields["claims"].items == [] || ("source_digest" in j.fields && j.fields["source_digest"] != JStr("")))
  }

  lemma HexIs(s: string)
    ensures IsDigest(s) <==> Hex(s)
  {
    forall c: char ensures c in "0123456789abcdef" <==> '0' <= c <= '9' || 'a' <= c <= 'f' {
      HexChar(c);
    }
  }

  lemma HexChar(c: char)
    ensures c in "0123456789abcdef" <==> '0' <= c <= '9' || 'a' <= c <= 'f'
  {
    var all := "0123456789abcdef";
    if '0' <= c <= '9' {
      assert all[(c - '0') as int] == c;
    }
    if 'a' <= c <= 'f' {
      assert all[(c - 'a') as int + 10] == c;
    }
  }

  lemma FilledIs(j: Json, most: nat)
    ensures Spoken(j, most) <==> FilledText(j, most)
  {
    if j.JStr? {
      StripBlank(j.text);
    }
  }

  lemma SourceIs(j: Json)
    ensures SourceShaped(j) && SourceOk(SourceOf(j)) <==> WellFormedSource(j)
  {
    if SourceShaped(j) {
      FilledIs(j.fields["canonical_turn_id"], 256);
      FilledIs(j.fields["speaker_label"], 256);
      FilledIs(j.fields["evidence_excerpt"], 800);
      if j.fields["source_provenance_digest"].JStr? {
        HexIs(j.fields["source_provenance_digest"].text);
      }
    }
  }

  lemma ClaimIs(j: Json)
    ensures ClaimShaped(j) && ClaimOk(ClaimOf(j)) <==> WellFormedClaim(j)
  {
    if j.JObj? && j.fields.Keys == CLAIM_KEYS {
      FilledIs(j.fields["text"], 1000);
      if j.fields["sources"].JList? && |j.fields["sources"].items| == 1 {
        SourceIs(j.fields["sources"].items[0]);
      }
    }
  }

  /** The decoder accepts exactly these payloads. */
  lemma AcceptsExactly(j: Json)
    ensures Accepts(j) <==> WellFormed(j)
  {
    if j.JObj? && (j.fields.Keys == CURRENT_KEYS || j.fields.Keys == LEGACY_KEYS) && j.fields["claims"].JList? {
      var items, digest := j.fields["claims"].items, Get(j.fields, "source_digest");
      forall i | 0 <= i < |items| ensures ClaimShaped(items[i]) && ClaimOk(ClaimOf(items[i])) <==> WellFormedClaim(items[i]) {
        ClaimIs(items[i]);
      }
      if digest.JStr? {
        HexIs(digest.text);
      }
      AcceptsByClaim(j);
    }
  }

  lemma AcceptsByClaim(j: Json)
    requires j.JObj? && (j.fields.Keys == CURRENT_KEYS || j.fields.Keys == LEGACY_KEYS) && j.fields["claims"].JList?
    ensures SummaryShaped(j) && ClaimsOk(SummaryOf(j).claims) <==>
            forall i :: 0 <= i < |j.fields["claims"].items| ==>
              ClaimShaped(j.fields["claims"].items[i]) && ClaimOk(ClaimOf(j.fields["claims"].items[i]))
  {
    var items := j.fields["claims"].items;
    if SummaryShaped(j) {
      assert forall i :: 0 <= i < |items| ==> SummaryOf(j).claims[i] == ClaimOf(items[i]);
    }
  }

  /** Every field of what is decoded is the payload's field of that name. */
  lemma DecodedFields(j: Json, i: nat)
    requires WellFormed(j)
    ensures Decode(j).version == j.fields["schema_version"] && |Decode(j).claims| == |j.fields["claims"].items|
    ensures Decode(j).digest == (if "source_digest" in j.fields then j.fields["source_digest"] else JStr(""))
    ensures Decode(j).model == (if "generation_model" in j.fields then j.fields["generation_model"] else JStr(""))
    ensures i < |Decode(j).claims| ==>
            var c, f := Decode(j).claims[i], j.fields["claims"].items[i].fields;
            var g := f["sources"].items[0].fields;
            && c.Claim? && c.text == f["text"] && c.kind == f["claim_type"] && c.temporal == f["temporal_status"]
            && c.modality == f["modality"] && c.eventTime == f["event_time"] && |c.sources| == 1
            && c.sources[0] == Source(g["canonical_turn_id"], g["source_role"], g["speaker_label"], g["evidence_excerpt"],
                                      g["session_date"], g["source_provenance_digest"])
  {
    AcceptsExactly(j);
    if i < |Decode(j).claims| {
      ClaimIs(j.fields["claims"].items[i]);
    }
  }
}
