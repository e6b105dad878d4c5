/** Recovering the channel columns of canonical rows, and when one run is
    enough. */
module ChannelBackfill {
  import opened Seqs
  import opened Text

  /** The columns the backfill reads and writes; an absent raw content is
      empty. */
  datatype Row = Row(
    id: string,
    user: string,
    assistant: string,
    userRaw: string,
    assistantRaw: string,
    origin: string,
    channelId: string,
    channelLabel: string)

  /** The conversation and the derivation from raw content, which may fail. */
  datatype Env = Env(conversation: string, raw: string -> Option<(string, string)>)

  predicate Stripped(s: string) { Strip(s) == s }

  /** What `get_origin_channel` promises of a derived pair. */
  ghost predicate RawIsStripped(env: Env) {
    forall s :: env.raw(s).Some? ==> Stripped(env.raw(s).value.0) && Stripped(env.raw(s).value.1)
  }

  function Or(a: string, b: string): string { if a != "" then a else b }

  // ---- stable conversation keys ----

  function Split(s: string): (parts: seq<string>)
    ensures parts != []
  {
    if s == "" then [""]
    else
      var rest := Split(s[1..]);
      if s[0] == ':' then [""] + rest else [[s[0]] + rest[0]] + rest[1..]
  }

  /** `_channel_id_from_provenance_key` */
  function KeyChannel(key: string): string {
    var all := Split(Strip(key));
    var parts := if all[0] == "sk" then all[1..] else all;
    if |parts| == 5 && parts[0] == "agent" && parts[1] != "" && parts[2] != "" && (parts[3] == "channel" || parts[3] == "group")
    then parts[4]
    else ""
  }

  // ---- what one run derives ----

  function RawSources(r: Row): seq<string> {
    (if !Blank(r.user) then [r.userRaw] else []) + (if !Blank(r.assistant) then [r.assistantRaw] else [])
  }

  /** The raw contents in order until both fields are known; None when one
      that is needed cannot be decoded. */
  function FromRaws(env: Env, raws: seq<string>, id: string, name: string): Option<(string, string)> {
    if raws == [] || (id != "" && name != "") then Some((id, name))
    else if env.raw(raws[0]).None? then None
    else FromRaws(env, raws[1..], Or(id, env.raw(raws[0]).value.0), Or(name, env.raw(raws[0]).value.1))
  }

  function KeyId(env: Env, r: Row): string {
    KeyChannel(Or(Strip(r.origin), env.conversation))
  }

  /** The id and label the first pass proposes for a row's empty columns. */
  function Fill(env: Env, receipted: set<string>, r: Row): (string, string) {
    var storedId, storedLabel := Strip(r.channelId), Strip(r.channelLabel);
    if r.id == "" || r.id in receipted || (storedId != "" && storedLabel != "") then ("", "")
    else
      match FromRaws(env, RawSources(r), "", "")
      case None => ("", "")
      case Some(found) =>
        (if storedId != "" then "" else Or(found.0, KeyId(env, r)), if storedLabel != "" then "" else found.1)
  }

  type Upgrades = map<string, (string, string)>

  function Get(ups: Upgrades, id: string): (string, string) {
    if id in ups then ups[id] else ("", "")
  }

  function Ids(rows: seq<Row>): (r: seq<string>)
    ensures |r| == |rows|
  {
    seq(|rows|, i requires 0 <= i < |rows| => rows[i].id)
  }

  /** A pair with neither part known is not stored. */
  function Upgrade(fill: (string, string)): Option<(string, string)> {
    if fill != ("", "") then Some(fill) else None
  }

  function Fills(env: Env, receipted: set<string>, rows: seq<Row>): (r: seq<Option<(string, string)>>)
    ensures |r| == |rows|
  {
    seq(|rows|, i requires 0 <= i < |rows| => Upgrade(Fill(env, receipted, rows[i])))
  }

  /** The dictionary of the first pass. */
  function FillMap(env: Env, receipted: set<string>, rows: seq<Row>): Upgrades {
    PutFirst(Ids(rows), Fills(env, receipted, rows), |rows|)
  }

  /** Stored columns win over proposed ones. */
  function Effective(ups: Upgrades, r: Row): (string, string) {
    (Or(Strip(r.channelId), Get(ups, r.id).0), Or(Strip(r.channelLabel), Get(ups, r.id).1))
  }

  function LabelsOf(ups: Upgrades, rows: seq<Row>, id: string): set<string> {
    set r | r in rows && r.id != "" && Effective(ups, r).0 == id && Effective(ups, r).1 != "" :: Effective(ups, r).1
  }

  /** A row that knows its channel but no label, where the conversation knows
      exactly one. */
  predicate Propagates(ups: Upgrades, receipted: set<string>, rows: seq<Row>, r: Row) {
    && r.id != "" && r.id !in receipted && Effective(ups, r).0 != "" && Effective(ups, r).1 == ""
    && |LabelsOf(ups, rows, Effective(ups, r).0)| == 1
  }

  ghost function Only(s: set<string>): (x: string)
    requires |s| == 1
    ensures x in s
  {
    var x :| x in s;
    x
  }

  /** The label the second pass adds to a row. */
  ghost function Addition(ups: Upgrades, receipted: set<string>, rows: seq<Row>, r: Row): Option<string> {
    if Propagates(ups, receipted, rows, r) then Some(Only(LabelsOf(ups, rows, Effective(ups, r).0))) else None
  }

  ghost function Additions(ups: Upgrades, receipted: set<string>, rows: seq<Row>): (r: seq<Option<string>>)
    ensures |r| == |rows|
  {
    seq(|rows|, i requires 0 <= i < |rows| => Addition(ups, receipted, rows, rows[i]))
  }

  /** The upgrades of the first `n` rows with their added labels. */
  function Extended(ups: Upgrades, rows: seq<Row>, labels: seq<Option<string>>, n: nat): Upgrades
    requires n <= |rows| == |labels|
  {
    if n == 0 then ups
    else
      var m, id, added := Extended(ups, rows, labels, n - 1), rows[n - 1].id, labels[n - 1];
      if added.Some? then m[id := (Get(m, id).0, added.value)] else m
  }

  ghost function Propagated(ups: Upgrades, receipted: set<string>, rows: seq<Row>): Upgrades {
    Extended(ups, rows, Additions(ups, receipted, rows), |rows|)
  }

  // ---- the compare-and-set write ----

  /** SQL trims spaces only. */
  predicate SqlBlank(s: string) { forall i :: 0 <= i < |s| ==> s[i] == ' ' }

  function FillColumn(stored: string, candidate: string): string {
    if Strip(candidate) != "" && SqlBlank(stored) then Strip(candidate) else stored
  }

  function Write(r: Row, up: (string, string)): Row {
    r.(channelId := FillColumn(r.channelId, up.0), channelLabel := FillColumn(r.channelLabel, up.1))
  }

  function Written(rows: seq<Row>, ups: Upgrades): (r: seq<Row>)
    ensures |r| == |rows|
  {
    seq(|rows|, i requires 0 <= i < |rows| => Write(rows[i], Get(ups, rows[i].id)))
  }

  predicate Partial(r: Row) { r.id != "" && (Blank(r.channelId) || Blank(r.channelLabel)) }

  function ReceiptedIn(receipts: set<string>, rows: seq<Row>): set<string> {
    set r | r in rows && Partial(r) && r.id in receipts :: r.id
  }

  /** A run whose first pass stopped after `n` rows. */
  ghost function RunOf(env: Env, receipts: set<string>, rows: seq<Row>, n: nat): (r: seq<Row>)
    requires n <= |rows|
    ensures |r| == |rows|
  {
    var receipted := ReceiptedIn(receipts, rows);
    Written(rows, Propagated(FillMap(env, receipted, rows[..n]), receipted, rows))
  }

  ghost function Run(env: Env, receipts: set<string>, rows: seq<Row>): (r: seq<Row>)
    ensures |r| == |rows|
  {
    RunOf(env, receipts, rows, |rows|)
  }

  predicate Distinct(rows: seq<Row>) {
    forall i, j :: 0 <= i < j < |rows| ==> rows[i].id != rows[j].id
  }

  // ---- the procedure ----

  method DeriveFromRaws(env: Env, r: Row) returns (found: Option<(string, string)>)
    ensures found == FromRaws(env, RawSources(r), "", "")
  {
    var raws := RawSources(r);
    var id, name := "", "";
    for i := 0 to |raws|
      invariant FromRaws(env, raws[i..], id, name) == FromRaws(env, raws, "", "")
    {
      if id != "" && name != "" {
        break;
      }
      assert raws[i..][1..] == raws[i + 1..];
      var pair := env.raw(raws[i]);
      if pair.None? {
        return None;
      }
      id, name := Or(id, pair.value.0), Or(name, pair.value.1);
    }
    return Some((id, name));
  }

  method DeriveFill(env: Env, receipted: set<string>, r: Row) returns (fill: (string, string))
    ensures fill == Fill(env, receipted, r)
  {
    var storedId, storedLabel := Strip(r.channelId), Strip(r.channelLabel);
    if r.id in receipted || (storedId != "" && storedLabel != "") {
      return ("", "");
    }
    var found := DeriveFromRaws(env, r);
    if found.None? || r.id == "" {
      return ("", "");
    }
    var (id, name) := found.value;
    if storedId == "" && id == "" {
      id := KeyChannel(Or(Strip(r.origin), env.conversation));
    }
    return (if storedId == "" then id else "", if storedLabel == "" then name else "");
  }

  lemma IdsSnoc(rows: seq<Row>, n: nat)
    requires n < |rows|
    ensures Ids(rows[..n + 1]) == Ids(rows[..n]) + [rows[n].id]
  {
  }

  lemma FillsSnoc(env: Env, receipted: set<string>, rows: seq<Row>, n: nat)
    requires n < |rows|
    ensures Fills(env, receipted, rows[..n + 1]) == Fills(env, receipted, rows[..n]) + [Upgrade(Fill(env, receipted, rows[n]))]
  {
  }

  lemma FillMapSnoc(env: Env, receipted: set<string>, rows: seq<Row>, n: nat)
    requires n < |rows|
    ensures FillMap(env, receipted, rows[..n + 1]) ==
            Put(FillMap(env, receipted, rows[..n]), rows[n].id, Upgrade(Fill(env, receipted, rows[n])))
  {
    IdsSnoc(rows, n);
    FillsSnoc(env, receipted, rows, n);
    PutFirstSnoc(Ids(rows[..n]), Fills(env, receipted, rows[..n]), rows[n].id, Upgrade(Fill(env, receipted, rows[n])));
  }

  function UpgradesIn(env: Env, receipted: set<string>, rows: seq<Row>, n: nat): nat
    requires n <= |rows|
  {
    |FillMap(env, receipted, rows[..n])|
  }

  /** At each of the first `n` rows the limit is not reached, or the row is
      receipted and passed over anyhow. */
  ghost predicate Room(env: Env, receipted: set<string>, rows: seq<Row>, most: nat, n: nat)
    requires n <= |rows|
  {
    forall m: nat :: m < n ==> UpgradesIn(env, receipted, rows, m) < most || rows[m].id in receipted
  }

  lemma RoomSnoc(env: Env, receipted: set<string>, rows: seq<Row>, most: nat, n: nat)
    requires n < |rows| && Room(env, receipted, rows, most, n)
    requires UpgradesIn(env, receipted, rows, n) < most || rows[n].id in receipted
    ensures Room(env, receipted, rows, most, n + 1)
  {
  }

  /** A limit stops the loop at the first row without receipt before which
      that many upgrades were collected; without one it visits every row. */
  ghost predicate StopsAt(env: Env, receipted: set<string>, rows: seq<Row>, limit: Option<nat>, n: nat)
    requires n <= |rows|
  {
    match limit
    case None => n == |rows|
    case Some(most) =>
      && UpgradesIn(env, receipted, rows, n) <= most && Room(env, receipted, rows, most, n)
      && (n < |rows| ==> UpgradesIn(env, receipted, rows, n) == most && rows[n].id !in receipted)
  }

  lemma ReceiptedFill(env: Env, receipted: set<string>, r: Row)
    requires r.id in receipted
    ensures Upgrade(Fill(env, receipted, r)) == None
  {
  }

  /** The first pass, which a limit may stop early. */
  method Collect(env: Env, receipted: set<string>, rows: seq<Row>, limit: Option<nat>) returns (ups: Upgrades, ghost n: nat)
    ensures n <= |rows| && ups == FillMap(env, receipted, rows[..n]) && StopsAt(env, receipted, rows, limit, n)
  {
    ups := map[];
    for i := 0 to |rows|
      invariant ups == FillMap(env, receipted, rows[..i])
      invariant limit.Some? ==> |ups| <= limit.value && Room(env, receipted, rows, limit.value, i)
    {
      if limit.Some? && |ups| >= limit.value && rows[i].id !in receipted {
        n := i;
        return;
      }
      FillMapSnoc(env, receipted, rows, i);
      if limit.Some? {
        RoomSnoc(env, receipted, rows, limit.value, i);
      }
      var fill := DeriveFill(env, receipted, rows[i]);
      if rows[i].id in receipted {
        ReceiptedFill(env, receipted, rows[i]);
      }
      ups := StoreFill(ups, rows[i].id, fill);
    }
    n := |rows|;
    assert rows[..n] == rows;
  }

  method StoreFill(ups: Upgrades, id: string, fill: (string, string)) returns (ups': Upgrades)
    ensures ups' == Put(ups, id, Upgrade(fill)) && |ups'| <= |ups| + 1 && (Upgrade(fill).None? ==> ups' == ups)
  {
    ups' := if fill != ("", "") then ups[id := fill] else ups;
  }

  function LabelsIn(labels: map<string, set<string>>, id: string): set<string> {
    if id in labels then labels[id] else {}
  }

  ghost predicate Gathered(labels: map<string, set<string>>, ups: Upgrades, rows: seq<Row>) {
    forall id :: id != "" ==> LabelsIn(labels, id) == LabelsOf(ups, rows, id)
  }

  lemma LabelsSnoc(ups: Upgrades, rows: seq<Row>, r: Row, id: string)
    ensures LabelsOf(ups, rows + [r], id) ==
            LabelsOf(ups, rows, id) + if r.id != "" && Effective(ups, r).0 == id && Effective(ups, r).1 != "" then {Effective(ups, r).1} else {}
  {
    assert forall x :: x in rows + [r] <==> x in rows || x == r;
  }

  function Gather(labels: map<string, set<string>>, id: string, name: string): map<string, set<string>> {
    if id != "" && name != "" then labels[id := LabelsIn(labels, id) + {name}] else labels
  }

  lemma GatheredSnoc(labels: map<string, set<string>>, ups: Upgrades, rows: seq<Row>, r: Row)
    requires Gathered(labels, ups, rows)
    ensures Gathered(if r.id != "" then Gather(labels, Effective(ups, r).0, Effective(ups, r).1) else labels, ups, rows + [r])
  {
    var after := if r.id != "" then Gather(labels, Effective(ups, r).0, Effective(ups, r).1) else labels;
    forall id | id != "" ensures LabelsIn(after, id) == LabelsOf(ups, rows + [r], id) {
      LabelsSnoc(ups, rows, r, id);
    }
  }

  /** The dictionary from channel ids to the labels seen with them. */
  method GatherLabels(ups: Upgrades, rows: seq<Row>) returns (labels: map<string, set<string>>)
    ensures Gathered(labels, ups, rows)
  {
    labels := map[];
    for i := 0 to |rows|
      invariant Gathered(labels, ups, rows[..i])
    {
      assert rows[..i + 1] == rows[..i] + [rows[i]];
      GatheredSnoc(labels, ups, rows[..i], rows[i]);
      if rows[i].id != "" {
        labels := Gather(labels, Effective(ups, rows[i]).0, Effective(ups, rows[i]).1);
      }
    }
    assert rows[..|rows|] == rows;
  }

  method LabelFor(ups: Upgrades, receipted: set<string>, ghost rows: seq<Row>, labels: map<string, set<string>>, r: Row)
    returns (added: Option<string>)
    requires Gathered(labels, ups, rows)
    ensures added == Addition(ups, receipted, rows, r)
  {
    var (id, name) := Effective(ups, r);
    var known := LabelsIn(labels, id);
    if r.id != "" && r.id !in receipted && id != "" && name == "" && |known| == 1 {
      OnlyOne(known);
      var only :| only in known;
      return Some(only);
    }
    return None;
  }

  /** The second pass: unambiguous labels fill the rows that know only their
      channel. */
  method Propagate(ups: Upgrades, receipted: set<string>, rows: seq<Row>) returns (all: Upgrades)
    ensures all == Propagated(ups, receipted, rows)
  {
    var labels := GatherLabels(ups, rows);
    all := ups;
    ghost var added := Additions(ups, receipted, rows);
    for i := 0 to |rows|
      invariant all == Extended(ups, rows, added, i)
    {
      var extra := LabelFor(ups, receipted, rows, labels, rows[i]);
      if extra.Some? {
        all := all[rows[i].id := (Get(all, rows[i].id).0, extra.value)];
      }
    }
  }

  lemma OnlyOne<T>(s: set<T>)
    requires |s| == 1
    ensures forall x, y :: x in s && y in s ==> x == y
  {
    var x :| x in s;
    var rest := s - {x};
    assert |rest| == 0 && s == rest + {x};
  }

  function WriteWhere(rows: seq<Row>, id: string, up: (string, string)): (r: seq<Row>)
    ensures |r| == |rows|
  {
    seq(|rows|, i requires 0 <= i < |rows| => if rows[i].id == id then Write(rows[i], up) else rows[i])
  }

  lemma WriteNothing(rows: seq<Row>)
    ensures Written(rows, map[]) == rows
  {
  }

  lemma WrittenOneMore(rows: seq<Row>, done: Upgrades, k: string, up: (string, string))
    requires k !in done
    ensures WriteWhere(Written(rows, done), k, up) == Written(rows, done[k := up])
  {
  }

  class CanonicalTable {
    var rows: seq<Row>

    constructor (initial: seq<Row>)
      ensures rows == initial
    {
      rows := initial;
    }

    /** `update_canonical_turn_channels_if_empty`: one guarded UPDATE per key. */
    method UpdateChannelsIfEmpty(ups: Upgrades)
      modifies this
      ensures rows == Written(old(rows), ups)
    {
      var todo := ups.Keys;
      ghost var done: Upgrades := map[];
      WriteNothing(rows);
      while todo != {}
        invariant todo <= ups.Keys && done == ups - todo
        invariant rows == Written(old(rows), done)
      {
        var k :| k in todo;
        WrittenOneMore(old(rows), done, k, ups[k]);
        rows := WriteWhere(rows, k, ups[k]);
        todo := todo - {k};
        done := done[k := ups[k]];
      }
      assert done == ups;
    }

    /** `backfill_channels` */
    method BackfillChannels(env: Env, receipts: set<string>, limit: Option<nat>)
      modifies this
      ensures limit.None? ==> rows == Run(env, receipts, old(rows))
      ensures var before := old(rows);
              exists n: nat :: n <= |before| && StopsAt(env, ReceiptedIn(receipts, before), before, limit, n)
                && rows == RunOf(env, receipts, before, n)
    {
      var receipted := ReceiptedIn(receipts, rows);
      var ups, n := Collect(env, receipted, rows, limit);
      var all := Propagate(ups, receipted, rows);
      UpdateChannelsIfEmpty(all);
      assert rows == RunOf(env, receipts, old(rows), n);
    }
  }

  // ---- per-row reading of a run ----

  lemma GetIsLookup(ups: Upgrades, id: string, fill: (string, string))
    requires AtKey(ups, id) == Upgrade(fill)
    ensures Get(ups, id) == fill
  {
  }

  lemma FillMapLookup(env: Env, receipted: set<string>, rows: seq<Row>, n: nat, i: nat)
    requires Distinct(rows) && n <= |rows| && i < |rows|
    ensures Get(FillMap(env, receipted, rows[..n]), rows[i].id) == if i < n then Fill(env, receipted, rows[i]) else ("", "")
  {
    var ids, fills := Ids(rows[..n]), Fills(env, receipted, rows[..n]);
    assert forall k :: 0 <= k < n ==> ids[k] == rows[k].id;
    if i < n {
      PutFirstLookup(ids, fills, n, i);
      GetIsLookup(FillMap(env, receipted, rows[..n]), rows[i].id, Fill(env, receipted, rows[i]));
    } else {
      PutFirstAbsent(ids, fills, n, rows[i].id);
      GetIsLookup(FillMap(env, receipted, rows[..n]), rows[i].id, ("", ""));
    }
  }

  ghost function Final(ups: Upgrades, receipted: set<string>, rows: seq<Row>, r: Row): (string, string) {
    var added := Addition(ups, receipted, rows, r);
    if added.Some? then (Get(ups, r.id).0, added.value) else Get(ups, r.id)
  }

  lemma {:induction false} ExtendedLookup(ups: Upgrades, rows: seq<Row>, labels: seq<Option<string>>, n: nat, i: nat)
    requires Distinct(rows) && n <= |rows| == |labels| && i < |rows|
    ensures var before, id := Get(ups, rows[i].id), rows[i].id;
            Get(Extended(ups, rows, labels, n), id) == if i < n && labels[i].Some? then (before.0, labels[i].value) else before
    decreases n
  {
    if n > 0 {
      ExtendedLookup(ups, rows, labels, n - 1, i);
      assert i != n - 1 ==> rows[i].id != rows[n - 1].id;
    }
  }

  lemma PropagatedLookup(ups: Upgrades, receipted: set<string>, rows: seq<Row>, i: nat)
    requires Distinct(rows) && i < |rows|
    ensures Get(Propagated(ups, receipted, rows), rows[i].id) == Final(ups, receipted, rows, rows[i])
  {
    ExtendedLookup(ups, rows, Additions(ups, receipted, rows), |rows|, i);
  }

  ghost function FinalOf(env: Env, receipts: set<string>, rows: seq<Row>, n: nat, i: nat): (string, string)
    requires n <= |rows| && i < |rows|
  {
    var receipted := ReceiptedIn(receipts, rows);
    Final(FillMap(env, receipted, rows[..n]), receipted, rows, rows[i])
  }

  lemma RunRow(env: Env, receipts: set<string>, rows: seq<Row>, n: nat, i: nat)
    requires Distinct(rows) && n <= |rows| && i < |rows|
    ensures RunOf(env, receipts, rows, n)[i] == Write(rows[i], FinalOf(env, receipts, rows, n, i))
  {
    var receipted := ReceiptedIn(receipts, rows);
    PropagatedLookup(FillMap(env, receipted, rows[..n]), receipted, rows, i);
  }

  lemma BlankStrip(s: string)
    ensures Blank(s) <==> Strip(s) == ""
    ensures SqlBlank(s) ==> Blank(s)
  {
    StripBlank(s);
  }

  lemma InReceipted(receipts: set<string>, rows: seq<Row>, i: nat)
    requires Distinct(rows) && i < |rows|
    ensures rows[i].id in ReceiptedIn(receipts, rows) <==> Partial(rows[i]) && rows[i].id in receipts
  {
    assert rows[i] in rows;
    if rows[i].id in ReceiptedIn(receipts, rows) {
      var r :| r in rows && Partial(r) && r.id in receipts && r.id == rows[i].id;
      var j :| 0 <= j < |rows| && rows[j] == r;
      assert i == j;
    }
  }

  /** Whatever the limit, a run keeps every column that holds more than
      spaces, every column but the two channel columns, and every receipted
      row. */
  lemma RunOverwritesNothing(env: Env, receipts: set<string>, rows: seq<Row>, n: nat, i: nat)
    requires Distinct(rows) && n <= |rows| && i < |rows|
    ensures var r, r' := rows[i], RunOf(env, receipts, rows, n)[i];
            && r' == r.(channelId := r'.channelId, channelLabel := r'.channelLabel)
            && (!SqlBlank(r.channelId) ==> r'.channelId == r.channelId)
            && (!SqlBlank(r.channelLabel) ==> r'.channelLabel == r.channelLabel)
            && (r.id in receipts || r.id == "" ==> r' == r)
  {
    var r := rows[i];
    RunRow(env, receipts, rows, n, i);
    if r.id in receipts || r.id == "" {
      var receipted := ReceiptedIn(receipts, rows);
      InReceipted(receipts, rows, i);
      FillMapLookup(env, receipted, rows, n, i);
      BlankStrip(r.channelId);
      BlankStrip(r.channelLabel);
      assert Strip("") == "";
    }
  }

  // ---- one run is enough, unless a key hides a padded id ----

  /** A row's own effective pair: what it stores, or else what is derived. */
  function Own(env: Env, receipts: set<string>, r: Row): (string, string) {
    (Or(Strip(r.channelId), Fill(env, receipts, r).0), Or(Strip(r.channelLabel), Fill(env, receipts, r).1))
  }

  /** The id a run would write has no surrounding whitespace. */
  predicate Unpadded(env: Env, receipts: set<string>, r: Row) {
    SqlBlank(r.channelId) ==> Stripped(Fill(env, receipts, r).0)
  }

  /** The dictionaries say of a row what the row says alone. */
  lemma FillOfRow(env: Env, receipts: set<string>, rows: seq<Row>, i: nat)
    requires Distinct(rows) && i < |rows|
    ensures var ups := FillMap(env, ReceiptedIn(receipts, rows), rows);
            Get(ups, rows[i].id) == Fill(env, receipts, rows[i]) && Effective(ups, rows[i]) == Own(env, receipts, rows[i])
  {
    var r, receipted := rows[i], ReceiptedIn(receipts, rows);
    InReceipted(receipts, rows, i);
    BlankStrip(r.channelId);
    BlankStrip(r.channelLabel);
    FillMapLookup(env, receipted, rows, |rows|, i);
    assert rows[..|rows|] == rows;
    assert Fill(env, receipted, r) == Fill(env, receipts, r);
  }

  ghost function FullFinal(env: Env, receipts: set<string>, rows: seq<Row>, i: nat): (string, string)
    requires i < |rows|
  {
    FinalOf(env, receipts, rows, |rows|, i)
  }

  ghost predicate HasLabel(env: Env, receipts: set<string>, rows: seq<Row>, id: string, name: string) {
    exists i :: 0 <= i < |rows| && rows[i].id != "" && Own(env, receipts, rows[i]) == (id, name)
  }

  ghost function Known(env: Env, receipts: set<string>, rows: seq<Row>, id: string): set<string> {
    LabelsOf(FillMap(env, ReceiptedIn(receipts, rows), rows), rows, id)
  }

  lemma KnownIs(env: Env, receipts: set<string>, rows: seq<Row>, id: string, name: string)
    requires Distinct(rows)
    ensures name in Known(env, receipts, rows, id) <==> name != "" && HasLabel(env, receipts, rows, id, name)
  {
    var ups := FillMap(env, ReceiptedIn(receipts, rows), rows);
    if name in Known(env, receipts, rows, id) {
      var r :| r in rows && r.id != "" && Effective(ups, r).0 == id && Effective(ups, r).1 != "" && Effective(ups, r).1 == name;
      var i :| 0 <= i < |rows| && rows[i] == r;
      FillOfRow(env, receipts, rows, i);
    }
    if name != "" && HasLabel(env, receipts, rows, id, name) {
      var i :| 0 <= i < |rows| && rows[i].id != "" && Own(env, receipts, rows[i]) == (id, name);
      FillOfRow(env, receipts, rows, i);
      assert rows[i] in rows;
    }
  }

  /** The first pass proposes `Fill`; the second adds the one known label. */
  lemma FinalIs(env: Env, receipts: set<string>, rows: seq<Row>, i: nat)
    requires Distinct(rows) && i < |rows|
    ensures var r, u := rows[i], FullFinal(env, receipts, rows, i);
            var own := Own(env, receipts, r);
            && u.0 == Fill(env, receipts, r).0
            && if r.id != "" && r.id !in receipts && own.0 != "" && own.1 == "" && |Known(env, receipts, rows, own.0)| == 1
               then u.1 in Known(env, receipts, rows, own.0)
               else u.1 == Fill(env, receipts, r).1
  {
    var r := rows[i];
    FillOfRow(env, receipts, rows, i);
    InReceipted(receipts, rows, i);
    BlankStrip(r.channelLabel);
    assert rows[..|rows|] == rows;
  }

  lemma {:induction false} FromRawsStripped(env: Env, raws: seq<string>, id: string, name: string)
    requires RawIsStripped(env) && Stripped(id) && Stripped(name)
    ensures FromRaws(env, raws, id, name).Some? ==>
              Stripped(FromRaws(env, raws, id, name).value.0) && Stripped(FromRaws(env, raws, id, name).value.1)
    decreases |raws|
  {
    if raws != [] && !(id != "" && name != "") && env.raw(raws[0]).Some? {
      FromRawsStripped(env, raws[1..], Or(id, env.raw(raws[0]).value.0), Or(name, env.raw(raws[0]).value.1));
    }
  }

  lemma {:induction false} SplitOne(s: string)
    requires |Split(s)| == 1
    ensures Split(s) == [s]
  {
    if s != "" {
      SplitOne(s[1..]);
      assert s == [s[0]] + s[1..];
    }
  }

  lemma {:induction false} SplitLast(s: string)
    ensures var last := Split(s)[|Split(s)| - 1]; |last| <= |s| && s[|s| - |last|..] == last
  {
    if s != "" {
      SplitLast(s[1..]);
      var rest := Split(s[1..]);
      var last := rest[|rest| - 1];
      assert s[1..][|s| - 1 - |last|..] == s[|s| - |last|..];
      if s[0] != ':' && |rest| == 1 {
        assert s[1..][|s| - 1 - |last|..] == last;
        SplitOne(s[1..]);
        assert s == [s[0]] + s[1..];
      }
    }
  }

  /** An id cut from a key ends outside the whitespace, so it is not blank. */
  lemma KeyChannelNotBlank(key: string)
    ensures KeyChannel(key) == "" || Strip(KeyChannel(key)) != ""
  {
    var id := KeyChannel(key);
    if id != "" {
      var text := Strip(key);
      SplitLast(text);
      StripBlank(key);
      assert id == Split(text)[|Split(text)| - 1];
      assert id == text[|text| - |id|..];
      assert id[|id| - 1] == text[|text| - 1];
      StripBlank(id);
    }
  }

  /** Proposed labels are stripped, and proposed ids are not blank. */
  lemma FillClean(env: Env, receipts: set<string>, r: Row)
    requires RawIsStripped(env)
    ensures Stripped(Fill(env, receipts, r).1)
    ensures Fill(env, receipts, r).0 == "" || Strip(Fill(env, receipts, r).0) != ""
  {
    FromRawsStripped(env, RawSources(r), "", "");
    KeyChannelNotBlank(Or(Strip(r.origin), env.conversation));
  }

  /** The id a run leaves a row with: what it writes is stripped. */
  function SettledId(env: Env, receipts: set<string>, r: Row): string {
    if SqlBlank(r.channelId) then Strip(Own(env, receipts, r).0) else Own(env, receipts, r).0
  }

  /** What a row proposes after its columns were filled: nothing more for an
      empty column, and the same as before for a column SQL refused. */
  lemma RefillId(env: Env, receipts: set<string>, r: Row, u: (string, string))
    requires RawIsStripped(env) && u.0 == Fill(env, receipts, r).0
    ensures SqlBlank(Write(r, u).channelId) ==> Fill(env, receipts, Write(r, u)).0 == ""
    ensures Own(env, receipts, Write(r, u)).0 == SettledId(env, receipts, r)
  {
    var r1 := Write(r, u);
    FillClean(env, receipts, r);
    BlankStrip(r.channelId);
    BlankStrip(r1.channelId);
    StripIdempotent(u.0);
    assert RawSources(r1) == RawSources(r) && KeyId(env, r1) == KeyId(env, r);
  }

  lemma RefillLabel(env: Env, receipts: set<string>, r: Row, u: (string, string))
    requires RawIsStripped(env)
    requires u.1 == Fill(env, receipts, r).1 || (Own(env, receipts, r).1 == "" && Stripped(u.1) && u.1 != "")
    ensures SqlBlank(Write(r, u).channelLabel) ==> Fill(env, receipts, Write(r, u)).1 == "" && u.1 == ""
    ensures Own(env, receipts, Write(r, u)).1 == if SqlBlank(r.channelLabel) && u.1 != "" then u.1 else Own(env, receipts, r).1
  {
    var r1 := Write(r, u);
    FillClean(env, receipts, r);
    BlankStrip(r.channelLabel);
    BlankStrip(r1.channelLabel);
    assert RawSources(r1) == RawSources(r) && KeyId(env, r1) == KeyId(env, r);
  }

  // ---- one run, then another ----

  lemma Ran(env: Env, receipts: set<string>, rows: seq<Row>, i: nat)
    requires Distinct(rows) && i < |rows|
    ensures Run(env, receipts, rows)[i] == Write(rows[i], FullFinal(env, receipts, rows, i))
    ensures Distinct(Run(env, receipts, rows))
  {
    RunRow(env, receipts, rows, |rows|, i);
    var after := Run(env, receipts, rows);
    forall k | 0 <= k < |rows| ensures after[k].id == rows[k].id {
      RunRow(env, receipts, rows, |rows|, k);
    }
  }

  lemma OwnLabelStripped(env: Env, receipts: set<string>, r: Row)
    requires RawIsStripped(env)
    ensures Stripped(Own(env, receipts, r).1)
  {
    FillClean(env, receipts, r);
    StripIdempotent(r.channelLabel);
  }

  lemma KnownStripped(env: Env, receipts: set<string>, rows: seq<Row>, id: string, name: string)
    requires Distinct(rows) && RawIsStripped(env) && name in Known(env, receipts, rows, id)
    ensures Stripped(name) && name != ""
  {
    KnownIs(env, receipts, rows, id, name);
    var k :| 0 <= k < |rows| && rows[k].id != "" && Own(env, receipts, rows[k]) == (id, name);
    OwnLabelStripped(env, receipts, rows[k]);
  }

  /** The premise of `RefillLabel` for the label a run settles on. */
  lemma FinalLabelClean(env: Env, receipts: set<string>, rows: seq<Row>, i: nat)
    requires Distinct(rows) && RawIsStripped(env) && i < |rows|
    ensures var r, u := rows[i], FullFinal(env, receipts, rows, i);
            u.1 == Fill(env, receipts, r).1 || (Own(env, receipts, r).1 == "" && Stripped(u.1) && u.1 != "")
  {
    var r, u := rows[i], FullFinal(env, receipts, rows, i);
    FinalIs(env, receipts, rows, i);
    if u.1 != Fill(env, receipts, r).1 {
      KnownStripped(env, receipts, rows, Own(env, receipts, r).0, u.1);
    }
  }

  /** After a run an empty id column has nothing to receive, and an empty
      label column nothing from the row's own sources. */
  lemma NothingLeft(env: Env, receipts: set<string>, rows: seq<Row>, i: nat)
    requires Distinct(rows) && RawIsStripped(env) && i < |rows|
    ensures var r1, u := Run(env, receipts, rows)[i], FullFinal(env, receipts, rows, i);
            && (SqlBlank(r1.channelId) ==> Fill(env, receipts, r1).0 == "")
            && (SqlBlank(r1.channelLabel) ==> Fill(env, receipts, r1).1 == "" && u.1 == "")
  {
    Ran(env, receipts, rows, i);
    FinalIs(env, receipts, rows, i);
    FinalLabelClean(env, receipts, rows, i);
    RefillId(env, receipts, rows[i], FullFinal(env, receipts, rows, i));
    RefillLabel(env, receipts, rows[i], FullFinal(env, receipts, rows, i));
  }

  // ---- exactly which tables need the second run ----

  /** A run gives the row the one label its channel has. */
  ghost predicate Labelled(env: Env, receipts: set<string>, rows: seq<Row>, r: Row) {
    && r.id != "" && r.id !in receipts && SqlBlank(r.channelLabel)
    && Own(env, receipts, r).0 != "" && Own(env, receipts, r).1 == ""
    && |Known(env, receipts, rows, Own(env, receipts, r).0)| == 1
  }

  ghost function SettledLabel(env: Env, receipts: set<string>, rows: seq<Row>, r: Row): string {
    if Labelled(env, receipts, rows, r) then Only(Known(env, receipts, rows, Own(env, receipts, r).0)) else Own(env, receipts, r).1
  }

  /** The labels that rows are left with in one channel. */
  ghost function SettledLabels(env: Env, receipts: set<string>, rows: seq<Row>, id: string): set<string> {
    set r | r in rows && r.id != "" && SettledId(env, receipts, r) == id && SettledLabel(env, receipts, rows, r) != "" ::
      SettledLabel(env, receipts, rows, r)
  }

  /** A row left without a label in a channel that is left with exactly one:
      the channel was not known under this id before stripping. */
  ghost predicate LeftOpen(env: Env, receipts: set<string>, rows: seq<Row>, r: Row) {
    && r.id != "" && r.id !in receipts && SqlBlank(r.channelLabel)
    && SettledId(env, receipts, r) != "" && SettledLabel(env, receipts, rows, r) == ""
    && |SettledLabels(env, receipts, rows, SettledId(env, receipts, r))| == 1
  }

  /** The label of the first run's final pair, for a row it can write. */
  lemma FirstLabel(env: Env, receipts: set<string>, rows: seq<Row>, i: nat)
    requires Distinct(rows) && RawIsStripped(env) && i < |rows|
    ensures var r, u := rows[i], FullFinal(env, receipts, rows, i);
            SqlBlank(r.channelLabel) ==>
              SettledLabel(env, receipts, rows, r) == if u.1 != "" then u.1 else Own(env, receipts, r).1
  {
    var r, u := rows[i], FullFinal(env, receipts, rows, i);
    FinalIs(env, receipts, rows, i);
    BlankStrip(r.channelLabel);
    if Labelled(env, receipts, rows, r) {
      OnlyOne(Known(env, receipts, rows, Own(env, receipts, r).0));
      KnownStripped(env, receipts, rows, Own(env, receipts, r).0, u.1);
    }
  }

  lemma SettledOwn(env: Env, receipts: set<string>, rows: seq<Row>, i: nat)
    requires Distinct(rows) && RawIsStripped(env) && i < |rows|
    ensures var r, r1 := rows[i], Run(env, receipts, rows)[i];
            && r1.id == r.id
            && Own(env, receipts, r1) == (SettledId(env, receipts, r), SettledLabel(env, receipts, rows, r))
  {
    var r, u := rows[i], FullFinal(env, receipts, rows, i);
    Ran(env, receipts, rows, i);
    FinalIs(env, receipts, rows, i);
    FinalLabelClean(env, receipts, rows, i);
    RefillId(env, receipts, r, u);
    RefillLabel(env, receipts, r, u);
    FirstLabel(env, receipts, rows, i);
  }

  lemma SettledKnown(env: Env, receipts: set<string>, rows: seq<Row>, id: string)
    requires Distinct(rows) && RawIsStripped(env) && Distinct(Run(env, receipts, rows))
    ensures Known(env, receipts, Run(env, receipts, rows), id) == SettledLabels(env, receipts, rows, id)
  {
    var after := Run(env, receipts, rows);
    forall name ensures name in Known(env, receipts, after, id) <==> name in SettledLabels(env, receipts, rows, id) {
      KnownIs(env, receipts, after, id, name);
      if name != "" && HasLabel(env, receipts, after, id, name) {
        var i :| 0 <= i < |after| && after[i].id != "" && Own(env, receipts, after[i]) == (id, name);
        SettledOwn(env, receipts, rows, i);
        assert rows[i] in rows;
      }
      if name in SettledLabels(env, receipts, rows, id) {
        var r :| r in rows && r.id != "" && SettledId(env, receipts, r) == id && SettledLabel(env, receipts, rows, r) == name && name != "";
        var i :| 0 <= i < |rows| && rows[i] == r;
        SettledOwn(env, receipts, rows, i);
        assert after[i].id != "" && Own(env, receipts, after[i]) == (id, name);
      }
    }
  }

  /** Whether the label column is still blank after a run. */
  lemma StillBlank(env: Env, receipts: set<string>, rows: seq<Row>, i: nat)
    requires Distinct(rows) && RawIsStripped(env) && i < |rows|
    ensures var r, r1 := rows[i], Run(env, receipts, rows)[i];
            SqlBlank(r1.channelLabel) && Own(env, receipts, r1).1 == "" <==>
            SqlBlank(r.channelLabel) && SettledLabel(env, receipts, rows, r) == ""
  {
    var r, u := rows[i], FullFinal(env, receipts, rows, i);
    Ran(env, receipts, rows, i);
    SettledOwn(env, receipts, rows, i);
    NothingLeft(env, receipts, rows, i);
    FirstLabel(env, receipts, rows, i);
    assert Strip("") == "";
  }

  /** What a further run writes into a settled row: one propagated label or
      nothing. */
  lemma SecondVisit(env: Env, receipts: set<string>, r1: Row, u: (string, string), known: set<string>)
    requires (SqlBlank(r1.channelId) ==> u.0 == "") && (forall x :: x in known ==> x != "" && Stripped(x))
    requires SqlBlank(r1.channelLabel) && u.1 != "" ==> u.1 in known
    ensures Write(r1, u) != r1 <==> SqlBlank(r1.channelLabel) && u.1 != ""
  {
    assert Strip("") == "";
    BlankStrip(r1.channelLabel);
  }

  lemma ChangedAgainExactly(env: Env, receipts: set<string>, rows: seq<Row>, i: nat)
    requires Distinct(rows) && RawIsStripped(env) && i < |rows| && Distinct(Run(env, receipts, rows))
    ensures Run(env, receipts, Run(env, receipts, rows))[i] != Run(env, receipts, rows)[i] <==> LeftOpen(env, receipts, rows, rows[i])
  {
    var after := Run(env, receipts, rows);
    var r1, u := after[i], FullFinal(env, receipts, after, i);
    var known := Known(env, receipts, after, SettledId(env, receipts, rows[i]));
    Ran(env, receipts, after, i);
    FinalIs(env, receipts, after, i);
    NothingLeft(env, receipts, rows, i);
    SettledOwn(env, receipts, rows, i);
    StillBlank(env, receipts, rows, i);
    SettledKnown(env, receipts, rows, SettledId(env, receipts, rows[i]));
    forall x | x in known ensures x != "" && Stripped(x) {
      KnownStripped(env, receipts, after, SettledId(env, receipts, rows[i]), x);
    }
    SecondVisit(env, receipts, r1, u, known);
  }

  ghost predicate SomeLeftOpen(env: Env, receipts: set<string>, rows: seq<Row>) {
    exists r :: r in rows && LeftOpen(env, receipts, rows, r)
  }

  ghost predicate OneRunIsEnough(env: Env, receipts: set<string>, rows: seq<Row>) {
    Run(env, receipts, Run(env, receipts, rows)) == Run(env, receipts, rows)
  }

  /** On every table, a second unlimited run is a no-op exactly when the first
      leaves no row open. */
  lemma OneRunExactly(env: Env, receipts: set<string>, rows: seq<Row>)
    requires Distinct(rows) && RawIsStripped(env)
    ensures OneRunIsEnough(env, receipts, rows) <==> !SomeLeftOpen(env, receipts, rows)
  {
    var once := Run(env, receipts, rows);
    var twice := Run(env, receipts, once);
    forall i | 0 <= i < |rows| ensures twice[i] != once[i] <==> LeftOpen(env, receipts, rows, rows[i]) {
      Ran(env, receipts, rows, i);
      ChangedAgainExactly(env, receipts, rows, i);
    }
    if r :| r in rows && LeftOpen(env, receipts, rows, r) {
      var i :| 0 <= i < |rows| && rows[i] == r;
      assert twice[i] != once[i];
    } else {
      assert forall i :: 0 <= i < |rows| ==> rows[i] in rows;
      assert twice == once;
    }
  }

  // ---- without padded ids ----

  predicate AllUnpadded(env: Env, receipts: set<string>, rows: seq<Row>) {
    forall i :: 0 <= i < |rows| ==> Unpadded(env, receipts, rows[i])
  }

  /** Then a run keeps every row's channel, so that each channel keeps its
      labels. */
  lemma UnpaddedSettles(env: Env, receipts: set<string>, r: Row)
    requires Unpadded(env, receipts, r)
    ensures SettledId(env, receipts, r) == Own(env, receipts, r).0
  {
    BlankStrip(r.channelId);
  }

  lemma LabelsStay(env: Env, receipts: set<string>, rows: seq<Row>, id: string)
    requires Distinct(rows) && RawIsStripped(env) && AllUnpadded(env, receipts, rows)
    ensures SettledLabels(env, receipts, rows, id) == Known(env, receipts, rows, id)
  {
    forall name ensures name in SettledLabels(env, receipts, rows, id) <==> name in Known(env, receipts, rows, id) {
      KnownIs(env, receipts, rows, id, name);
      if name != "" && HasLabel(env, receipts, rows, id, name) {
        var i :| 0 <= i < |rows| && rows[i].id != "" && Own(env, receipts, rows[i]) == (id, name);
        UnpaddedSettles(env, receipts, rows[i]);
        assert rows[i] in rows && SettledLabel(env, receipts, rows, rows[i]) == name;
      }
      if name in SettledLabels(env, receipts, rows, id) {
        var r :| r in rows && r.id != "" && SettledId(env, receipts, r) == id && SettledLabel(env, receipts, rows, r) == name && name != "";
        var i :| 0 <= i < |rows| && rows[i] == r;
        UnpaddedSettles(env, receipts, r);
        assert Labelled(env, receipts, rows, r) || Own(env, receipts, rows[i]) == (id, name);
      }
    }
  }

  lemma UnpaddedIsNotOpen(env: Env, receipts: set<string>, rows: seq<Row>, i: nat)
    requires Distinct(rows) && RawIsStripped(env) && AllUnpadded(env, receipts, rows) && i < |rows|
    ensures !LeftOpen(env, receipts, rows, rows[i])
  {
    var id := Own(env, receipts, rows[i]).0;
    UnpaddedSettles(env, receipts, rows[i]);
    LabelsStay(env, receipts, rows, id);
    KnownIs(env, receipts, rows, id, "");
  }

  /** Unless an id cut from a key starts with whitespace, one unlimited run
      is a fixed point: running it again changes nothing. */
  lemma OneRunSuffices(env: Env, receipts: set<string>, rows: seq<Row>)
    requires Distinct(rows) && RawIsStripped(env) && AllUnpadded(env, receipts, rows)
    ensures Run(env, receipts, Run(env, receipts, rows)) == Run(env, receipts, rows)
  {
    forall r | r in rows ensures !LeftOpen(env, receipts, rows, r) {
      var i :| 0 <= i < |rows| && rows[i] == r;
      UnpaddedIsNotOpen(env, receipts, rows, i);
    }
    OneRunExactly(env, receipts, rows);
  }

  /** Two unlimited runs always reach the fixed point. */
  lemma TwoRunsAlwaysSuffice(env: Env, receipts: set<string>, rows: seq<Row>)
    requires Distinct(rows) && RawIsStripped(env)
    ensures var twice := Run(env, receipts, Run(env, receipts, rows)); Run(env, receipts, twice) == twice
  {
    var after := Run(env, receipts, rows);
    if rows != [] {
      Ran(env, receipts, rows, 0);
    }
    forall i | 0 <= i < |after| ensures Unpadded(env, receipts, after[i]) {
      NothingLeft(env, receipts, rows, i);
      assert Stripped("");
    }
    OneRunSuffices(env, receipts, after);
  }

  // ---- exactly which keys need the second run ----

  /** A table of a conversation whose rows carry origins from `origins`; a
      blank one stands for a row that was never moved. */
  ghost predicate OriginsIn(origins: set<string>, key: string, env: Env, rows: seq<Row>) {
    env.conversation == key && RawIsStripped(env) && Distinct(rows) && forall r :: r in rows ==> r.origin in origins
  }

  /** The id a row of this origin can get from its provenance key. */
  function Derived(origin: string, key: string): string { KeyChannel(Or(Strip(origin), key)) }

  function Nameless(origin: string): Row { Row("a", "", "", "", "", origin, "", "") }

  function Named(id: string, origin: string): Row { Row("b", "", "", "", "", origin, id, "general") }

  /** A row that learns its channel from its key, beside one that stores the
      same channel with its label. */
  function Conversation(origin: string, key: string): seq<Row> {
    [Nameless(origin), Named(Strip(Derived(origin, key)), origin)]
  }

  /** Two different spellings of one id, until the first run writes it
      stripped. */
  lemma PaddedOwn(env: Env, origin: string)
    requires !Stripped(Derived(origin, env.conversation))
    ensures var rows, id := Conversation(origin, env.conversation), Derived(origin, env.conversation);
            && Own(env, {}, rows[0]) == (id, "") && SettledId(env, {}, rows[0]) == Strip(id) && Strip(id) != ""
            && Own(env, {}, rows[1]) == (Strip(id), "general") && SettledId(env, {}, rows[1]) == Strip(id)
  {
    var id := Derived(origin, env.conversation);
    KeyChannelNotBlank(Or(Strip(origin), env.conversation));
    StripIdempotent(id);
    StripFixed("general");
    assert Strip("") == "";
  }

  lemma PairKnowsNothing(env: Env, rows: seq<Row>, id: string)
    requires Distinct(rows) && |rows| == 2 && Own(env, {}, rows[0]).1 == "" && Own(env, {}, rows[1]).0 != id
    ensures Known(env, {}, rows, id) == {}
  {
    forall name ensures name !in Known(env, {}, rows, id) {
      KnownIs(env, {}, rows, id, name);
    }
  }

  /** The label is not known for the id the key gives. */
  lemma PaddedKnowsNothing(env: Env, origin: string)
    requires RawIsStripped(env) && !Stripped(Derived(origin, env.conversation))
    ensures Known(env, {}, Conversation(origin, env.conversation), Derived(origin, env.conversation)) == {}
  {
    PaddedOwn(env, origin);
    PairKnowsNothing(env, Conversation(origin, env.conversation), Derived(origin, env.conversation));
  }

  lemma PaddedLabels(env: Env, origin: string)
    requires RawIsStripped(env) && !Stripped(Derived(origin, env.conversation))
    ensures var rows := Conversation(origin, env.conversation);
            SettledLabel(env, {}, rows, rows[0]) == "" && SettledLabel(env, {}, rows, rows[1]) == "general"
  {
    PaddedOwn(env, origin);
    PaddedKnowsNothing(env, origin);
  }

  lemma PairSettles(env: Env, rows: seq<Row>, id: string, name: string)
    requires |rows| == 2 && rows[1].id != "" && name != ""
    requires SettledLabel(env, {}, rows, rows[0]) == "" && SettledLabel(env, {}, rows, rows[1]) == name
    requires SettledId(env, {}, rows[1]) == id
    ensures SettledLabels(env, {}, rows, id) == {name}
  {
    var r0, r1 := rows[0], rows[1];
    assert r1 in rows && rows == [r0, r1];
    forall x ensures x in SettledLabels(env, {}, rows, id) <==> x == name {
      if x in SettledLabels(env, {}, rows, id) {
        var r :| r in rows && r.id != "" && SettledId(env, {}, r) == id
                 && SettledLabel(env, {}, rows, r) != "" && SettledLabel(env, {}, rows, r) == x;
        assert r == r0 || r == r1;
      }
    }
  }

  lemma PaddedSettles(env: Env, origin: string)
    requires RawIsStripped(env) && !Stripped(Derived(origin, env.conversation))
    ensures SettledLabels(env, {}, Conversation(origin, env.conversation), Strip(Derived(origin, env.conversation))) == {"general"}
  {
    PaddedOwn(env, origin);
    PaddedLabels(env, origin);
    PairSettles(env, Conversation(origin, env.conversation), Strip(Derived(origin, env.conversation)), "general");
  }

  lemma PaddedIsOpen(env: Env, origin: string)
    requires RawIsStripped(env) && !Stripped(Derived(origin, env.conversation))
    ensures SomeLeftOpen(env, {}, Conversation(origin, env.conversation))
  {
    var rows := Conversation(origin, env.conversation);
    PaddedOwn(env, origin);
    PaddedLabels(env, origin);
    PaddedSettles(env, origin);
    assert rows[0] in rows && LeftOpen(env, {}, rows, rows[0]);
  }

  lemma UnpaddedNeedsOne(env: Env, receipts: set<string>, rows: seq<Row>, origins: set<string>)
    requires OriginsIn(origins, env.conversation, env, rows)
    requires forall o :: o in origins ==> Stripped(Derived(o, env.conversation))
    ensures OneRunIsEnough(env, receipts, rows)
  {
    forall i | 0 <= i < |rows| ensures Unpadded(env, receipts, rows[i]) {
      assert rows[i] in rows;
      OriginUnpadded(env, receipts, rows[i]);
    }
    OneRunSuffices(env, receipts, rows);
  }

  function NothingDecodes(key: string): Env { Env(key, (s: string) => None) }

  lemma ConversationFits(origins: set<string>, origin: string, key: string)
    requires origin in origins
    ensures OriginsIn(origins, key, NothingDecodes(key), Conversation(origin, key))
  {
  }

  lemma OpenNeedsTwo(origins: set<string>, key: string, env: Env, receipts: set<string>, rows: seq<Row>)
    requires OriginsIn(origins, key, env, rows) && SomeLeftOpen(env, receipts, rows)
    ensures !OneRunIsEnough(env, receipts, rows)
  {
    OneRunExactly(env, receipts, rows);
  }

  /** No table with these origins needs a second run. */
  ghost predicate OneRunEverywhere(origins: set<string>, key: string) {
    forall env, receipts, rows :: OriginsIn(origins, key, env, rows) ==> OneRunIsEnough(env, receipts, rows)
  }

  /** One run suffices for every table whose rows, moved or not, have origins
      from a set exactly when no id derived for one of them carries leading
      whitespace. */
  lemma OneRunExactlyForUnpaddedKeys(origins: set<string>, key: string)
    ensures (forall o :: o in origins ==> Stripped(Derived(o, key))) <==> OneRunEverywhere(origins, key)
  {
    if forall o :: o in origins ==> Stripped(Derived(o, key)) {
      forall env, receipts, rows | OriginsIn(origins, key, env, rows) ensures OneRunIsEnough(env, receipts, rows) {
        UnpaddedNeedsOne(env, receipts, rows, origins);
      }
    } else {
      var o :| o in origins && !Stripped(Derived(o, key));
      ConversationFits(origins, o, key);
      PaddedIsOpen(NothingDecodes(key), o);
      OpenNeedsTwo(origins, key, NothingDecodes(key), {}, Conversation(o, key));
    }
  }

  lemma OriginUnpadded(env: Env, receipts: set<string>, r: Row)
    requires RawIsStripped(env) && Stripped(Derived(r.origin, env.conversation))
    ensures Unpadded(env, receipts, r)
  {
    FromRawsStripped(env, RawSources(r), "", "");
    assert Stripped("");
  }

  lemma {:induction false} SplitAt(x: string, rest: string)
    requires ':' !in x
    ensures Split(x + ":" + rest) == [x] + Split(rest)
  {
    var s := x + ":" + rest;
    if x == "" {
      assert s[1..] == rest;
    } else {
      SplitAt(x[1..], rest);
      assert s[1..] == x[1..] + ":" + rest;
      assert x == [x[0]] + x[1..];
    }
  }

  lemma {:induction false} SplitWhole(s: string)
    requires ':' !in s
    ensures Split(s) == [s]
  {
    if s != "" {
      SplitWhole(s[1..]);
      assert s == [s[0]] + s[1..];
    }
  }

  /** agent:a:discord:channel: 7 */
  const PADDED_KEY := "agent" + ":" + ("a" + ":" + ("discord" + ":" + ("channel" + ":" + " 7")))

  lemma PaddedKeyParts()
    ensures Split(PADDED_KEY) == ["agent"] + (["a"] + (["discord"] + (["channel"] + [" 7"])))
  {
    SplitWhole(" 7");
    SplitAt("channel", " 7");
    SplitAt("discord", "channel" + ":" + " 7");
    SplitAt("a", "discord" + ":" + ("channel" + ":" + " 7"));
    SplitAt("agent", "a" + ":" + ("discord" + ":" + ("channel" + ":" + " 7")));
  }

  /** Such a key exists: the grammar lets whitespace follow the last colon. */
  lemma PaddedKeyExists()
    ensures KeyChannel(PADDED_KEY) == " 7" && !Stripped(" 7")
  {
    PaddedKeyParts();
    assert PADDED_KEY[0] == 'a' && PADDED_KEY[|PADDED_KEY| - 1] == '7';
    StripFixed(PADDED_KEY);
    LStripDrops(" 7");
  }

  lemma LStripDrops(s: string)
    requires s != "" && IsSpace(s[0])
    ensures !Stripped(s)
  {
    StripBlank(s);
  }

  // ---- what a run writes, read off the columns ----

  /** What one half of a row says of the channel. */
  function Says(env: Env, text: string, raw: string): (string, string) {
    if Blank(text) || env.raw(raw).None? then ("", "") else env.raw(raw).value
  }

  /** The reply's raw content is read when the user's leaves something open. */
  predicate ReadsReply(env: Env, r: Row) {
    !Blank(r.assistant) && (Says(env, r.user, r.userRaw).0 == "" || Says(env, r.user, r.userRaw).1 == "")
  }

  predicate PassedOver(env: Env, receipts: set<string>, r: Row) {
    || r.id == "" || r.id in receipts
    || (!Blank(r.channelId) && !Blank(r.channelLabel))
    || (!Blank(r.user) && env.raw(r.userRaw).None?)
    || (ReadsReply(env, r) && env.raw(r.assistantRaw).None?)
  }

  /** Each part comes from the user's raw content, else from the reply's,
      and an id else from the key: the row's origin or, without one, the
      conversation. A stored column receives nothing. */
  lemma FillIs(env: Env, receipts: set<string>, r: Row)
    ensures var (id, name), asked, reply := Fill(env, receipts, r), Says(env, r.user, r.userRaw), Says(env, r.assistant, r.assistantRaw);
            if PassedOver(env, receipts, r) then id == "" && name == ""
            else
              && id == (if !Blank(r.channelId) then "" else if asked.0 != "" then asked.0 else if reply.0 != "" then reply.0
                        else KeyChannel(if Blank(r.origin) then env.conversation else Strip(r.origin)))
              && name == (if !Blank(r.channelLabel) then "" else if asked.1 != "" then asked.1 else reply.1)
  {
    BlankStrip(r.channelId);
    BlankStrip(r.channelLabel);
    BlankStrip(r.origin);
    RawsAre(env, r);
  }

  lemma RawsAre(env: Env, r: Row)
    ensures var found, asked, reply := FromRaws(env, RawSources(r), "", ""), Says(env, r.user, r.userRaw), Says(env, r.assistant, r.assistantRaw);
            if (!Blank(r.user) && env.raw(r.userRaw).None?) || (ReadsReply(env, r) && env.raw(r.assistantRaw).None?) then found.None?
            else found == Some((if asked.0 != "" then asked.0 else if ReadsReply(env, r) then reply.0 else "",
                                if asked.1 != "" then asked.1 else if ReadsReply(env, r) then reply.1 else ""))
  {
    var raws, asked := RawSources(r), Says(env, r.user, r.userRaw);
    if !Blank(r.user) && !Blank(r.assistant) {
      assert raws == [r.userRaw, r.assistantRaw] && raws[1..] == [r.assistantRaw];
      LastRaw(env, r.assistantRaw, asked.0, asked.1);
    } else if !Blank(r.user) {
      LastRaw(env, r.userRaw, "", "");
    } else if !Blank(r.assistant) {
      LastRaw(env, r.assistantRaw, "", "");
    }
  }

  lemma LastRaw(env: Env, raw: string, id: string, name: string)
    ensures FromRaws(env, [raw], id, name) ==
            if id != "" && name != "" then Some((id, name))
            else if env.raw(raw).None? then None
            else Some((Or(id, env.raw(raw).value.0), Or(name, env.raw(raw).value.1)))
  {
    assert [raw][1..] == [];
  }

  /** Parts with a colon between each two. */
  function Join(parts: seq<string>): string
    requires parts != []
  {
    if |parts| == 1 then parts[0] else parts[0] + ":" + Join(parts[1..])
  }

  predicate Plain(parts: seq<string>) {
    forall k :: 0 <= k < |parts| ==> ':' !in parts[k]
  }

  lemma JoinFront(parts: seq<string>, c: char)
    requires parts != []
    ensures Join([[c] + parts[0]] + parts[1..]) == [c] + Join(parts)
  {
    var more := [[c] + parts[0]] + parts[1..];
    assert more[1..] == parts[1..];
    if |parts| > 1 {
      assert [c] + parts[0] + ":" + Join(parts[1..]) == [c] + (parts[0] + ":" + Join(parts[1..]));
    }
  }

  lemma JoinEmpty(parts: seq<string>)
    requires parts != []
    ensures Join([""] + parts) == ":" + Join(parts)
  {
    assert ([""] + parts)[1..] == parts;
    assert "" + ":" + Join(parts) == ":" + Join(parts);
  }

  lemma {:induction false} SplitPlain(s: string)
    ensures Plain(Split(s))
  {
    if s != "" {
      SplitPlain(s[1..]);
    }
  }

  lemma {:induction false} SplitJoins(s: string)
    ensures Join(Split(s)) == s
  {
    if s != "" {
      var rest := Split(s[1..]);
      SplitJoins(s[1..]);
      assert s == [s[0]] + s[1..];
      if s[0] == ':' {
        JoinEmpty(rest);
      } else {
        JoinFront(rest, s[0]);
      }
    }
  }

  lemma {:induction false} JoinSplits(parts: seq<string>)
    requires parts != [] && Plain(parts)
    ensures Split(Join(parts)) == parts
  {
    if |parts| == 1 {
      SplitWhole(parts[0]);
    } else {
      JoinSplits(parts[1..]);
      SplitAt(parts[0], Join(parts[1..]));
    }
  }

  /** agent, a name, a provider, channel or group, and the id. */
  predicate KeyParts(parts: seq<string>, id: string) {
    && |parts| == 5 && parts[0] == "agent" && parts[1] != "" && parts[2] != ""
    && (parts[3] == "channel" || parts[3] == "group") && parts[4] == id
  }

  /** The key, stripped, is such parts joined by colons, with sk before them
      or not. */
  ghost predicate KeyNames(key: string, id: string) {
    exists parts :: Plain(parts) && KeyParts(parts, id) && (Strip(key) == Join(parts) || Strip(key) == Join(["sk"] + parts))
  }

  /** A key gives an id exactly when it has the form of a stable channel
      key. */
  lemma KeyChannelExactly(key: string, id: string)
    requires id != ""
    ensures KeyChannel(key) == id <==> KeyNames(key, id)
  {
    var all := Split(Strip(key));
    SplitJoins(Strip(key));
    SplitPlain(Strip(key));
    if KeyChannel(key) == id {
      var parts := if all[0] == "sk" then all[1..] else all;
      assert all[0] == "sk" ==> all == ["sk"] + parts;
      assert Plain(parts) && KeyParts(parts, id);
    }
    if KeyNames(key, id) {
      var parts :| Plain(parts) && KeyParts(parts, id) && (Strip(key) == Join(parts) || Strip(key) == Join(["sk"] + parts));
      JoinSplits(parts);
      JoinSplits(["sk"] + parts);
      assert (["sk"] + parts)[1..] == parts;
      assert |"sk"| != |"agent"|;
    }
  }

  /** What a first pass over `n` rows proposes for one row. */
  function Proposed(env: Env, receipts: set<string>, rows: seq<Row>, n: nat, i: nat): (string, string)
    requires i < |rows|
  {
    if i < n then Fill(env, receipts, rows[i]) else ("", "")
  }

  /** The channel and label of a row after that pass: the stored column, or
      else what is proposed. */
  function Placed(env: Env, receipts: set<string>, rows: seq<Row>, n: nat, i: nat): (string, string)
    requires i < |rows|
  {
    var p, r := Proposed(env, receipts, rows, n, i), rows[i];
    (if Blank(r.channelId) then p.0 else Strip(r.channelId), if Blank(r.channelLabel) then p.1 else Strip(r.channelLabel))
  }

  /** Row `j` is in that channel and has this label. */
  predicate Carries(env: Env, receipts: set<string>, rows: seq<Row>, n: nat, j: int, id: string, name: string) {
    0 <= j < |rows| && rows[j].id != "" && name != "" && Placed(env, receipts, rows, n, j) == (id, name)
  }

  ghost predicate Carried(env: Env, receipts: set<string>, rows: seq<Row>, n: nat, id: string, name: string) {
    exists j :: Carries(env, receipts, rows, n, j, id, name)
  }

  /** Some row of the channel has the label, and none has another. */
  ghost predicate SoleLabel(env: Env, receipts: set<string>, rows: seq<Row>, n: nat, id: string, name: string) {
    && Carried(env, receipts, rows, n, id, name)
    && forall other :: Carried(env, receipts, rows, n, id, other) ==> other == name
  }

  /** A row in a channel, without a label, that a run may write. */
  predicate Asks(env: Env, receipts: set<string>, rows: seq<Row>, n: nat, i: nat)
    requires i < |rows|
  {
    && rows[i].id != "" && rows[i].id !in receipts
    && Placed(env, receipts, rows, n, i).0 != "" && Placed(env, receipts, rows, n, i).1 == ""
  }

  lemma PlacedIsEffective(env: Env, receipts: set<string>, rows: seq<Row>, n: nat, i: nat)
    requires Distinct(rows) && n <= |rows| && i < |rows|
    ensures var ups := FillMap(env, ReceiptedIn(receipts, rows), rows[..n]);
            && Get(ups, rows[i].id) == Proposed(env, receipts, rows, n, i)
            && Effective(ups, rows[i]) == Placed(env, receipts, rows, n, i)
  {
    var r, receipted := rows[i], ReceiptedIn(receipts, rows);
    InReceipted(receipts, rows, i);
    BlankStrip(r.channelId);
    BlankStrip(r.channelLabel);
    FillMapLookup(env, receipted, rows, n, i);
    assert Fill(env, receipted, r) == Fill(env, receipts, r);
  }

  lemma LabelsCarried(env: Env, receipts: set<string>, rows: seq<Row>, n: nat, id: string, name: string)
    requires Distinct(rows) && n <= |rows|
    ensures name in LabelsOf(FillMap(env, ReceiptedIn(receipts, rows), rows[..n]), rows, id) <==>
            Carried(env, receipts, rows, n, id, name)
  {
    var ups := FillMap(env, ReceiptedIn(receipts, rows), rows[..n]);
    if name in LabelsOf(ups, rows, id) {
      var r :| r in rows && r.id != "" && Effective(ups, r).0 == id && Effective(ups, r).1 != "" && Effective(ups, r).1 == name;
      var j :| 0 <= j < |rows| && rows[j] == r;
      PlacedIsEffective(env, receipts, rows, n, j);
      assert Carries(env, receipts, rows, n, j, id, name);
    }
    if j :| Carries(env, receipts, rows, n, j, id, name) {
      PlacedIsEffective(env, receipts, rows, n, j);
      assert rows[j] in rows;
    }
  }

  lemma SoleIsOnly(s: set<string>, name: string)
    ensures |s| == 1 && name in s <==> s == {name}
  {
    if |s| == 1 && name in s {
      OnlyOne(s);
      assert s == {name};
    }
  }

  lemma SoleOf(known: set<string>, env: Env, receipts: set<string>, rows: seq<Row>, n: nat, id: string, name: string)
    requires forall x :: x in known <==> Carried(env, receipts, rows, n, id, x)
    ensures SoleLabel(env, receipts, rows, n, id, name) <==> known == {name}
  {
    if SoleLabel(env, receipts, rows, n, id, name) {
      assert forall x :: x in known <==> x == name;
    }
    if known == {name} {
      assert forall x :: x in known <==> x == name;
    }
  }

  lemma SoleLabelIs(env: Env, receipts: set<string>, rows: seq<Row>, n: nat, id: string, name: string)
    requires Distinct(rows) && n <= |rows|
    ensures SoleLabel(env, receipts, rows, n, id, name) <==>
            LabelsOf(FillMap(env, ReceiptedIn(receipts, rows), rows[..n]), rows, id) == {name}
  {
    var known := LabelsOf(FillMap(env, ReceiptedIn(receipts, rows), rows[..n]), rows, id);
    forall x ensures x in known <==> Carried(env, receipts, rows, n, id, x) {
      LabelsCarried(env, receipts, rows, n, id, x);
    }
    SoleOf(known, env, receipts, rows, n, id, name);
  }

  /** The row a run that stopped after `n` rows leaves: a column with nothing
      but spaces takes, stripped, the proposed part, the label column of a row
      that asks for one the sole label of its channel. */
  lemma RunWrites(env: Env, receipts: set<string>, rows: seq<Row>, n: nat, i: nat)
    requires Distinct(rows) && n <= |rows| && i < |rows|
    ensures var r, r', p := rows[i], RunOf(env, receipts, rows, n)[i], Proposed(env, receipts, rows, n, i);
            && r'.channelId == (if SqlBlank(r.channelId) && !Blank(p.0) then Strip(p.0) else r.channelId)
            && (forall name ::
                  Asks(env, receipts, rows, n, i) && SoleLabel(env, receipts, rows, n, Placed(env, receipts, rows, n, i).0, name) ==>
                  r'.channelLabel == if SqlBlank(r.channelLabel) && !Blank(name) then Strip(name) else r.channelLabel)
            && ((forall name ::
                   !(Asks(env, receipts, rows, n, i) && SoleLabel(env, receipts, rows, n, Placed(env, receipts, rows, n, i).0, name))) ==>
                  r'.channelLabel == if SqlBlank(r.channelLabel) && !Blank(p.1) then Strip(p.1) else r.channelLabel)
  {
    var r, receipted := rows[i], ReceiptedIn(receipts, rows);
    var ups, id := FillMap(env, receipted, rows[..n]), Placed(env, receipts, rows, n, i).0;
    RunRow(env, receipts, rows, n, i);
    InReceipted(receipts, rows, i);
    PlacedIsEffective(env, receipts, rows, n, i);
    var u := FinalOf(env, receipts, rows, n, i);
    BlankStrip(u.0);
    BlankStrip(u.1);
    BlankStrip(r.channelLabel);
    var known := LabelsOf(ups, rows, id);
    if Asks(env, receipts, rows, n, i) {
      forall name ensures SoleLabel(env, receipts, rows, n, id, name) <==> known == {name} {
        SoleLabelIs(env, receipts, rows, n, id, name);
      }
      if |known| == 1 {
        SoleIsOnly(known, Only(known));
      }
    }
  }

  /** For which rows the first pass has a proposal. */
  function Offers(env: Env, receipts: set<string>, rows: seq<Row>): (r: seq<bool>)
    ensures |r| == |rows|
  {
    seq(|rows|, i requires 0 <= i < |rows| => Fill(env, receipts, rows[i]) != ("", ""))
  }

  lemma UpgradesStep(env: Env, receipts: set<string>, rows: seq<Row>, n: nat)
    requires Distinct(rows) && n < |rows|
    ensures UpgradesIn(env, receipts, rows, n + 1) == UpgradesIn(env, receipts, rows, n) + if Offers(env, receipts, rows)[n] then 1 else 0
  {
    FillMapSnoc(env, receipts, rows, n);
    PutFirstAbsent(Ids(rows[..n]), Fills(env, receipts, rows[..n]), n, rows[n].id);
    PutAbsent(FillMap(env, receipts, rows[..n]), rows[n].id, Upgrade(Fill(env, receipts, rows[n])));
  }

  lemma {:induction false} UpgradesAreOffers(env: Env, receipts: set<string>, rows: seq<Row>, n: nat)
    requires Distinct(rows) && n <= |rows|
    ensures UpgradesIn(env, receipts, rows, n) == Count(Offers(env, receipts, rows)[..n])
  {
    if n > 0 {
      UpgradesAreOffers(env, receipts, rows, n - 1);
      UpgradesStep(env, receipts, rows, n - 1);
      CountSnoc(Offers(env, receipts, rows), n - 1);
    }
  }

  /** The limit is reached before a row without receipt. */
  predicate Reached(offers: seq<bool>, ids: seq<string>, receipts: set<string>, most: nat, m: nat)
    requires m < |offers| == |ids|
  {
    Count(offers[..m]) >= most && ids[m] !in receipts
  }

  ghost predicate FirstReached(offers: seq<bool>, ids: seq<string>, receipts: set<string>, most: nat, n: nat)
    requires n <= |offers| == |ids|
  {
    && (forall m: nat :: m < n ==> !Reached(offers, ids, receipts, most, m))
    && (n < |offers| ==> Reached(offers, ids, receipts, most, n))
  }

  predicate ReceiptedOffersNothing(offers: seq<bool>, ids: seq<string>, receipts: set<string>)
    requires |offers| == |ids|
  {
    forall m :: 0 <= m < |offers| && ids[m] in receipts ==> !offers[m]
  }

  lemma {:induction false} NeverTooMany(offers: seq<bool>, ids: seq<string>, receipts: set<string>, most: nat, n: nat)
    requires n <= |offers| == |ids| && ReceiptedOffersNothing(offers, ids, receipts)
    requires forall m: nat :: m < n ==> !Reached(offers, ids, receipts, most, m)
    ensures Count(offers[..n]) <= most
  {
    if n > 0 {
      NeverTooMany(offers, ids, receipts, most, n - 1);
      CountSnoc(offers, n - 1);
      assert !Reached(offers, ids, receipts, most, n - 1);
    }
  }

  lemma OffersWithout(env: Env, receipts: set<string>, rows: seq<Row>)
    ensures ReceiptedOffersNothing(Offers(env, receipts, rows), Ids(rows), receipts)
  {
  }

  /** A limited pass ends before the first row without receipt that has
      `most` proposals ahead of it, so it makes at most that many. */
  lemma StopsExactly(env: Env, receipts: set<string>, rows: seq<Row>, most: nat, n: nat)
    requires Distinct(rows) && n <= |rows|
    ensures StopsAt(env, receipts, rows, Some(most), n) <==> FirstReached(Offers(env, receipts, rows), Ids(rows), receipts, most, n)
    ensures StopsAt(env, receipts, rows, Some(most), n) ==> Count(Offers(env, receipts, rows)[..n]) <= most
  {
    var offers, ids := Offers(env, receipts, rows), Ids(rows);
    forall m: nat | m <= n ensures UpgradesIn(env, receipts, rows, m) == Count(offers[..m]) {
      UpgradesAreOffers(env, receipts, rows, m);
    }
    OffersWithout(env, receipts, rows);
    if FirstReached(offers, ids, receipts, most, n) {
      NeverTooMany(offers, ids, receipts, most, n);
    }
    StopsEither(env, receipts, rows, most, n, offers, ids);
  }

  lemma StopsEither(env: Env, receipts: set<string>, rows: seq<Row>, most: nat, n: nat, offers: seq<bool>, ids: seq<string>)
    requires n <= |rows| == |offers| == |ids| && forall m: nat :: m < |rows| ==> ids[m] == rows[m].id
    requires forall m: nat :: m <= n ==> UpgradesIn(env, receipts, rows, m) == Count(offers[..m])
    requires FirstReached(offers, ids, receipts, most, n) ==> Count(offers[..n]) <= most
    ensures StopsAt(env, receipts, rows, Some(most), n) <==> FirstReached(offers, ids, receipts, most, n)
    ensures StopsAt(env, receipts, rows, Some(most), n) ==> Count(offers[..n]) <= most
  {
    forall m: nat | m < n
      ensures Reached(offers, ids, receipts, most, m) <==> !(UpgradesIn(env, receipts, rows, m) < most || rows[m].id in receipts)
    {
      assert UpgradesIn(env, receipts, rows, m) == Count(offers[..m]);
    }
    assert UpgradesIn(env, receipts, rows, n) == Count(offers[..n]);
  }
}
