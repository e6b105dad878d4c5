/** Building the repair artifact from delivered message groups, and why the
    loader accepts whatever is built. */
module ArtifactBuilder {
  import opened Seqs
  import opened Text
  import opened Artifact

  datatype Message = Message(
    id: string,
    guild: string,
    channel: string,
    author: string,
    authorBot: bool,
    timestamp: string,
    name: string,
    content: string,
    reference: string,
    kind: int)

  /** A user event of the archived sessions. */
  datatype Event = Event(sender: string, name: string, content: string)

  /** One trigger with the responses delivered to it. `archive` holds the
      archived events of its channel, sender and time. */
  datatype Delivery = Delivery(
    triggerId: string,
    trigger: Option<Message>,
    available: bool,
    archive: seq<Event>,
    responses: seq<Message>,
    declaredIds: seq<string>,
    categories: seq<string>)

  /** The builder's own parameters: the bot's user id, the one trigger that
      may be missing from the transcript, and the projections of message
      bodies, the id derivation and the text normalization, which stay
      abstract. */
  datatype Builder = Builder(
    identity: Identity,
    bot: string,
    deletedTrigger: string,
    project: Message -> string,
    canonicalId: (string, string) -> string,
    normalize: string -> string)

  function JoinWith(parts: seq<string>, sep: string): string {
    if parts == [] then ""
    else if |parts| == 1 then parts[0]
    else parts[0] + sep + JoinWith(parts[1..], sep)
  }

  function IdsOf(ms: seq<Message>): seq<string> {
    seq(|ms|, i requires 0 <= i < |ms| => ms[i].id)
  }

  function Chunks(b: Builder, ms: seq<Message>): seq<string> {
    seq(|ms|, i requires 0 <= i < |ms| => b.project(ms[i]))
  }

  function AssistantContent(b: Builder, ms: seq<Message>): string {
    Strip(JoinWith(Chunks(b, ms), "\n\n"))
  }

  function UserContent(b: Builder, t: Message): string {
    t.name + ": " + b.project(t)
  }

  /** `_canonical_row` for the two roles. */
  function UserRow(b: Builder, g: nat, t: Message, trigger: string): CanonicalRow {
    var content := UserContent(b, t);
    var (hash, nu, na) := b.identity.turnHash(content, "");
    CanonicalRow(b.canonicalId("user", trigger), b.identity.owner, g, g * 2000 + 1000, hash, nu, na, content, "",
                 ACTOR_PREFIX + t.author, trigger, t.channel, b.identity.owner)
  }

  function AssistantRow(b: Builder, g: nat, t: Message, responses: seq<Message>): CanonicalRow {
    var content := AssistantContent(b, responses);
    var (hash, nu, na) := b.identity.turnHash("", content);
    CanonicalRow(b.canonicalId("assistant", JoinWith(IdsOf(responses), ",")), b.identity.owner, g, g * 2000 + 2000, hash, nu, na, "", content,
                 "", "", t.channel, b.identity.owner)
  }

  function MembershipFor(b: Builder, t: Message, trigger: string, u: CanonicalRow, a: CanonicalRow): Membership {
    var w := b.identity;
    Membership(w.scope, w.platform, w.account, trigger, u.id, a.id, a.hash, -1, 1, w.owner, t.channel, w.guild,
               ACTOR_PREFIX + t.author, w.sha(UserContent(b, t)), u.hash)
  }

  // ---- the checks on one delivery ----

  /** The distinct archived events; two of them are an ambiguous match, for a
      missing trigger and for any other. */
  function Matches(d: Delivery): set<Event> {
    set e | e in d.archive
  }

  /** A trigger missing from the transcript must be the approved one and be
      corroborated by exactly one archived event with its text. */
  predicate Corroborated(b: Builder, d: Delivery)
    requires d.trigger.Some? && d.responses != []
  {
    && Strip(d.triggerId) == b.deletedTrigger && d.trigger.value.channel == d.responses[0].channel
    && |Matches(d)| == 1 && forall e :: e in d.archive ==> b.normalize(e.content) == b.normalize(d.trigger.value.content)
  }

  predicate TriggerOk(b: Builder, d: Delivery)
    requires d.responses != []
  {
    && d.trigger.Some? && d.trigger.value.id == Strip(d.triggerId)
    && (!d.available ==> Corroborated(b, d))
    && |Matches(d)| <= 1
    && var t := d.trigger.value;
       t.guild == b.identity.guild && t.channel != "" && t.author != "" && !t.authorBot && t.timestamp != ""
  }

  predicate ResponseOk(b: Builder, d: Delivery, r: Message, category: string)
    requires d.trigger.Some?
  {
    && r.guild == b.identity.guild && r.channel == d.trigger.value.channel && r.author == b.bot && r.authorBot
    && if category == "native_referenced_response" || category == "native_reference_plus_session_chain_recovery"
       then r.reference == Strip(d.triggerId)
       else "recovered_" <= category && r.reference == "" && r.kind == 0
  }

  /** Everything the loop body checks, given the ids seen before. */
  predicate DeliveryOk(b: Builder, d: Delivery, seenTriggers: set<string>, seenResponses: set<string>) {
    && Strip(d.triggerId) != "" && Strip(d.triggerId) !in seenTriggers
    && d.responses != [] && IdsOf(d.responses) == d.declaredIds
    && IdsUnseen(d.responses, seenResponses)
    && TriggerOk(b, d)
    && |d.categories| == |d.responses|
    && ResponsesOk(b, d)
    && AssistantContent(b, d.responses) != ""
  }

  /** What the first `n` deliveries put into the artifact. */
  datatype Built = Built(rows: seq<CanonicalRow>, sources: seq<Membership>, transport: map<string, string>)

  ghost predicate BuiltFrom(b: Builder, ds: seq<Delivery>, out: Built) {
    && |out.rows| == 2 * |ds| && |out.sources| == |ds|
    && PairsBuilt(b, ds, out) && TriggersApart(ds) && Transports(b, ds, out.transport)
  }

  predicate PairsBuilt(b: Builder, ds: seq<Delivery>, out: Built)
    requires |out.rows| == 2 * |ds| && |out.sources| == |ds|
  {
    forall k :: 0 <= k < |ds| ==> PairBuilt(b, ds[k], k, out)
  }

  predicate TriggersApart(ds: seq<Delivery>) {
    forall i, j :: 0 <= i < j < |ds| ==> Strip(ds[i].triggerId) != Strip(ds[j].triggerId)
  }

  predicate Transports(b: Builder, ds: seq<Delivery>, transport: map<string, string>) {
    forall d :: d in ds ==>
      d.trigger.Some? && Strip(d.triggerId) in transport && transport[Strip(d.triggerId)] == b.project(d.trigger.value)
  }

  predicate PairBuilt(b: Builder, d: Delivery, k: nat, out: Built)
    requires 2 * k + 1 < |out.rows| && k < |out.sources|
  {
    && d.trigger.Some? && Strip(d.triggerId) != "" && AssistantContent(b, d.responses) != ""
    && out.rows[2 * k] == UserRow(b, k, d.trigger.value, Strip(d.triggerId))
    && out.rows[2 * k + 1] == AssistantRow(b, k, d.trigger.value, d.responses)
    && out.sources[k] == MembershipFor(b, d.trigger.value, Strip(d.triggerId), out.rows[2 * k], out.rows[2 * k + 1])
  }

  function TriggersOf(ds: seq<Delivery>): set<string> {
    set d | d in ds :: Strip(d.triggerId)
  }

  function ResponsesOf(ds: seq<Delivery>): set<string> {
    set d, m | d in ds && m in d.responses :: m.id
  }

  /** Every delivery is good evidence given those before it. */
  predicate DeliveriesOk(b: Builder, ds: seq<Delivery>) {
    OkUpTo(b, ds, |ds|)
  }

  predicate OkUpTo(b: Builder, ds: seq<Delivery>, n: nat)
    requires n <= |ds|
  {
    forall k: nat :: k < n ==> OkAt(b, ds, k)
  }

  predicate OkAfter(b: Builder, done: seq<Delivery>, d: Delivery) {
    DeliveryOk(b, d, TriggersOf(done), ResponsesOf(done))
  }

  predicate OkAt(b: Builder, ds: seq<Delivery>, k: nat)
    requires k < |ds|
  {
    OkAfter(b, ds[..k], ds[k])
  }

  lemma OkSnoc(b: Builder, ds: seq<Delivery>, k: nat)
    requires k < |ds| && OkUpTo(b, ds, k)
    ensures OkUpTo(b, ds, k + 1) <==> OkAt(b, ds, k)
    ensures DeliveriesOk(b, ds) ==> OkAt(b, ds, k)
  {
  }

  lemma SeenSnoc(ds: seq<Delivery>, d: Delivery)
    ensures TriggersOf(ds + [d]) == TriggersOf(ds) + {Strip(d.triggerId)}
    ensures ResponsesOf(ds + [d]) == ResponsesOf(ds) + set m | m in d.responses :: m.id
  {
    var all := ds + [d];
    assert forall x :: x in all <==> x in ds || x == d;
    var ids := set m | m in d.responses :: m.id;
    forall x ensures x in ResponsesOf(all) <==> x in ResponsesOf(ds) + ids {
      if x in ResponsesOf(ds) {
        var e, m :| e in ds && m in e.responses && m.id == x;
        assert e in all;
      }
      if x in ids {
        var m :| m in d.responses && m.id == x;
        assert d in all && m in d.responses;
      }
    }
  }

  /** Where the loop stands after the deliveries `done`. */
  ghost predicate Progress(b: Builder, done: seq<Delivery>, out: Built, seenTriggers: set<string>, seenResponses: set<string>) {
    BuiltFrom(b, done, out) && seenTriggers == TriggersOf(done) && seenResponses == ResponsesOf(done)
  }

  method CheckTrigger(b: Builder, d: Delivery) returns (ok: bool)
    requires d.responses != []
    ensures ok <==> TriggerOk(b, d)
  {
    if d.trigger.None? || d.trigger.value.id != Strip(d.triggerId) {
      return false;
    }
    var t, unique := d.trigger.value, Matches(d);
    if !d.available {
      if Strip(d.triggerId) != b.deletedTrigger || t.channel != d.responses[0].channel {
        return false;
      }
      if |unique| != 1 || exists e :: e in d.archive && b.normalize(e.content) != b.normalize(t.content) {
        return false;
      }
    }
    if t.guild != b.identity.guild || t.channel == "" || t.author == "" || t.authorBot || t.timestamp == "" {
      return false;
    }
    return |unique| <= 1;
  }

  method CheckResponse(b: Builder, d: Delivery, r: Message, category: string) returns (ok: bool)
    requires d.trigger.Some?
    ensures ok <==> ResponseOk(b, d, r, category)
  {
    if r.guild != b.identity.guild || r.channel != d.trigger.value.channel || r.author != b.bot || !r.authorBot {
      return false;
    }
    if category == "native_referenced_response" || category == "native_reference_plus_session_chain_recovery" {
      return r.reference == Strip(d.triggerId);
    }
    if "recovered_" <= category {
      return r.reference == "" && r.kind == 0;
    }
    return false;
  }

  predicate IdsUnseen(ms: seq<Message>, seen: set<string>) {
    forall i :: 0 <= i < |ms| ==> ms[i].id != "" && ms[i].id !in seen
  }

  method CheckIds(ms: seq<Message>, seen: set<string>) returns (ok: bool)
    ensures ok <==> IdsUnseen(ms, seen)
  {
    for i := 0 to |ms|
      invariant forall k :: 0 <= k < i ==> ms[k].id != "" && ms[k].id !in seen
    {
      if ms[i].id == "" || ms[i].id in seen {
        return false;
      }
    }
    return true;
  }

  predicate ResponsesOk(b: Builder, d: Delivery)
    requires d.trigger.Some? && |d.categories| == |d.responses|
  {
    forall i :: 0 <= i < |d.responses| ==> ResponseOk(b, d, d.responses[i], d.categories[i])
  }

  method CheckResponses(b: Builder, d: Delivery) returns (ok: bool)
    requires d.trigger.Some? && |d.categories| == |d.responses|
    ensures ok <==> ResponsesOk(b, d)
  {
    for i := 0 to |d.responses|
      invariant forall k :: 0 <= k < i ==> ResponseOk(b, d, d.responses[k], d.categories[k])
    {
      var responseOk := CheckResponse(b, d, d.responses[i], d.categories[i]);
      if !responseOk {
        return false;
      }
    }
    return true;
  }

  /** The checks of one round in their order. */
  method CheckDelivery(b: Builder, d: Delivery, seenTriggers: set<string>, seenResponses: set<string>) returns (ok: bool)
    ensures ok <==> DeliveryOk(b, d, seenTriggers, seenResponses)
  {
    var trigger := Strip(d.triggerId);
    if trigger == "" || trigger in seenTriggers {
      return false;
    }
    if d.responses == [] || IdsOf(d.responses) != d.declaredIds {
      return false;
    }
    var unseen := CheckIds(d.responses, seenResponses);
    if !unseen {
      return false;
    }
    var triggerOk := CheckTrigger(b, d);
    if !triggerOk || |d.categories| != |d.responses| {
      return false;
    }
    var responsesOk := CheckResponses(b, d);
    return responsesOk && AssistantContent(b, d.responses) != "";
  }

  /** One round of the group loop: the checks, then the pair and its
      membership. */
  method BuildGroup(b: Builder, done: seq<Delivery>, out: Built, d: Delivery, seenTriggers: set<string>, seenResponses: set<string>)
    returns (r: Option<Built>, triggers: set<string>, responses: set<string>)
    requires Progress(b, done, out, seenTriggers, seenResponses)
    ensures r.Some? <==> OkAfter(b, done, d)
    ensures r.Some? ==> Progress(b, done + [d], r.value, triggers, responses)
  {
    r, triggers, responses := None, seenTriggers, seenResponses;
    var ok := CheckDelivery(b, d, seenTriggers, seenResponses);
    if !ok {
      return;
    }
    var t, trigger := d.trigger.value, Strip(d.triggerId);
    var u := UserRow(b, |done|, t, trigger);
    var a := AssistantRow(b, |done|, t, d.responses);
    var s := MembershipFor(b, t, trigger, u, a);
    BuiltSnoc(b, done, d, out, u, a, s);
    SeenSnoc(done, d);
    r := Some(Built(out.rows + [u, a], out.sources + [s], out.transport[trigger := b.project(t)]));
    triggers := triggers + {trigger};
    responses := responses + set m | m in d.responses :: m.id;
  }

  /** The round for delivery `k`. */
  method BuildNext(b: Builder, ds: seq<Delivery>, k: nat, out: Built, seenTriggers: set<string>, seenResponses: set<string>)
    returns (r: Option<Built>, triggers: set<string>, responses: set<string>)
    requires k < |ds| && OkUpTo(b, ds, k) && Progress(b, ds[..k], out, seenTriggers, seenResponses)
    ensures r.None? ==> !DeliveriesOk(b, ds)
    ensures r.Some? ==> OkUpTo(b, ds, k + 1) && Progress(b, ds[..k + 1], r.value, triggers, responses)
  {
    r, triggers, responses := BuildGroup(b, ds[..k], out, ds[k], seenTriggers, seenResponses);
    OkSnoc(b, ds, k);
    assert ds[..k + 1] == ds[..k] + [ds[k]];
  }

  /** The group loop; None is any of its evidence errors. */
  method BuildGroups(b: Builder, ds: seq<Delivery>) returns (r: Option<Built>)
    ensures r.Some? <==> DeliveriesOk(b, ds)
    ensures r.Some? ==> BuiltFrom(b, ds, r.value)
  {
    var out := Built([], [], map[]);
    var seenTriggers: set<string>, seenResponses: set<string> := {}, {};
    for k := 0 to |ds|
      invariant OkUpTo(b, ds, k)
      invariant Progress(b, ds[..k], out, seenTriggers, seenResponses)
    {
      var next, triggers, responses := BuildNext(b, ds, k, out, seenTriggers, seenResponses);
      if next.None? {
        return None;
      }
      out, seenTriggers, seenResponses := next.value, triggers, responses;
    }
    assert ds[..|ds|] == ds;
    return Some(out);
  }

  lemma PairsSnoc(b: Builder, ds: seq<Delivery>, d: Delivery, out: Built, more: Built)
    requires |out.rows| == 2 * |ds| && |out.sources| == |ds| && PairsBuilt(b, ds, out)
    requires |more.rows| == |out.rows| + 2 && |more.sources| == |ds| + 1
    requires out.rows <= more.rows && out.sources <= more.sources && PairBuilt(b, d, |ds|, more)
    ensures PairsBuilt(b, ds + [d], more)
  {
    forall k | 0 <= k < |ds| ensures PairBuilt(b, (ds + [d])[k], k, more) {
      assert PairBuilt(b, ds[k], k, out);
    }
  }

  lemma ApartSnoc(ds: seq<Delivery>, d: Delivery)
    requires TriggersApart(ds) && Strip(d.triggerId) !in TriggersOf(ds)
    ensures TriggersApart(ds + [d])
  {
    assert forall i :: 0 <= i < |ds| ==> ds[i] in ds;
  }

  lemma TransportsSnoc(b: Builder, ds: seq<Delivery>, d: Delivery, transport: map<string, string>)
    requires Transports(b, ds, transport) && d.trigger.Some? && Strip(d.triggerId) !in TriggersOf(ds)
    ensures Transports(b, ds + [d], transport[Strip(d.triggerId) := b.project(d.trigger.value)])
  {
    forall x | x in ds ensures Strip(x.triggerId) != Strip(d.triggerId) {
      assert Strip(x.triggerId) in TriggersOf(ds);
    }
  }

  lemma BuiltSnoc(b: Builder, ds: seq<Delivery>, d: Delivery, out: Built, u: CanonicalRow, a: CanonicalRow, s: Membership)
    requires BuiltFrom(b, ds, out)
    requires d.trigger.Some? && Strip(d.triggerId) != "" && AssistantContent(b, d.responses) != ""
    requires Strip(d.triggerId) !in TriggersOf(ds)
    requires u == UserRow(b, |ds|, d.trigger.value, Strip(d.triggerId)) && a == AssistantRow(b, |ds|, d.trigger.value, d.responses)
    requires s == MembershipFor(b, d.trigger.value, Strip(d.triggerId), u, a)
    ensures BuiltFrom(b, ds + [d], Built(out.rows + [u, a], out.sources + [s], out.transport[Strip(d.triggerId) := b.project(d.trigger.value)]))
  {
    var more := Built(out.rows + [u, a], out.sources + [s], out.transport[Strip(d.triggerId) := b.project(d.trigger.value)]);
    PairsSnoc(b, ds, d, out, more);
    ApartSnoc(ds, d);
    TransportsSnoc(b, ds, d, out.transport);
  }

  // ---- the old history ----

  datatype OldRow = OldRow(conversation: string, id: string, source: string, user: string, assistant: string, sender: string, group: Option<int>)

  function OldGroup(r: OldRow): int {
    if r.group.Some? then r.group.value else -1
  }

  function UserBySource(rows: seq<CanonicalRow>, source: string): Option<CanonicalRow> {
    if rows == [] then None
    else if IsUser(rows[0]) && rows[0].sourceMessage == source then Some(rows[0])
    else UserBySource(rows[1..], source)
  }

  function AssistantsWith(rows: seq<CanonicalRow>, text: string): seq<CanonicalRow> {
    if rows == [] then []
    else (if IsAssistant(rows[0]) && rows[0].normalizedAssistant == text then [rows[0]] else []) + AssistantsWith(rows[1..], text)
  }

  /** The new row, if any, an old row is identified with. A known source id
      decides alone; only otherwise may a unique assistant text. */
  function Replacement(b: Builder, out: Built, r: OldRow): Option<CanonicalRow> {
    var known := UserBySource(out.rows, r.source);
    if r.source != "" && known.Some? then
      var body := r.user == known.value.user || (r.source in out.transport && r.user == out.transport[r.source]);
      if body && r.sender == known.value.sender then known else None
    else if !Blank(r.assistant) then
      var found := AssistantsWith(out.rows, b.normalize(r.assistant));
      if |found| == 1 then Some(found[0]) else None
    else None
  }

  /** The dictionary from old ids to replacements: of rows sharing an id the
      last decides. */
  function ReplacementById(b: Builder, out: Built, olds: seq<OldRow>, id: string): Option<CanonicalRow> {
    if olds == [] then None
    else if olds[|olds| - 1].id == id then Replacement(b, out, olds[|olds| - 1])
    else ReplacementById(b, out, olds[..|olds| - 1], id)
  }

  function CandidateGroups(b: Builder, out: Built, olds: seq<OldRow>, g: int): set<int> {
    set r | r in olds && OldGroup(r) == g && ReplacementById(b, out, olds, r.id).Some? ::
      ReplacementById(b, out, olds, r.id).value.group
  }

  lemma {:induction false} ReplacementsAreRows(b: Builder, out: Built, olds: seq<OldRow>, id: string)
    ensures ReplacementById(b, out, olds, id).Some? ==> ReplacementById(b, out, olds, id).value in out.rows
    decreases |olds|
  {
    if olds != [] {
      var r := olds[|olds| - 1];
      UserBySourceIn(out.rows, r.source);
      AssistantsIn(out.rows, b.normalize(r.assistant));
      ReplacementsAreRows(b, out, olds[..|olds| - 1], id);
    }
  }

  lemma {:induction false} UserBySourceIn(rows: seq<CanonicalRow>, source: string)
    ensures UserBySource(rows, source).Some? ==> UserBySource(rows, source).value in rows
  {
    if rows != [] {
      UserBySourceIn(rows[1..], source);
      assert rows == [rows[0]] + rows[1..];
    }
  }

  lemma {:induction false} AssistantsIn(rows: seq<CanonicalRow>, text: string)
    ensures forall r :: r in AssistantsWith(rows, text) ==> r in rows
  {
    if rows != [] {
      AssistantsIn(rows[1..], text);
      assert rows == [rows[0]] + rows[1..];
    }
  }

  const MISSING_GROUP := QUARANTINED + "missing_old_group_identity"

  const ONE_GROUP := "exactly_one_external_group"

  const NO_GROUP := QUARANTINED + "no_external_group"

  const CONFLICTING_GROUPS := QUARANTINED + "conflicting_external_groups"

  /** The classification of one old group. */
  ghost predicate MapsGroup(b: Builder, out: Built, olds: seq<OldRow>, m: GroupMapping) {
    var candidates := CandidateGroups(b, out, olds, m.oldGroup);
    && (m.target.Some? <==> m.oldGroup >= 0 && |candidates| == 1)
    && (m.target.Some? ==> m.target.value in candidates)
    && m.classification ==
         if m.oldGroup < 0 then MISSING_GROUP
         else if |candidates| == 1 then ONE_GROUP
         else if candidates == {} then NO_GROUP
         else CONFLICTING_GROUPS
  }

  predicate GroupsListed(maps: seq<GroupMapping>, gs: set<int>) {
    && (forall i, j :: 0 <= i < j < |maps| ==> maps[i].oldGroup != maps[j].oldGroup)
    && (forall m :: m in maps ==> m.oldGroup in gs)
    && (forall g :: g in gs ==> exists m :: m in maps && m.oldGroup == g)
  }

  lemma ListOneMore(maps: seq<GroupMapping>, gs: set<int>, m: GroupMapping)
    requires GroupsListed(maps, gs) && m.oldGroup !in gs
    ensures GroupsListed(maps + [m], gs + {m.oldGroup})
  {
    var all := maps + [m];
    assert forall x :: x in all <==> x in maps || x == m;
    forall i | 0 <= i < |maps| ensures maps[i].oldGroup != m.oldGroup {
      assert maps[i] in maps;
    }
    forall g | g in gs + {m.oldGroup} ensures exists x :: x in all && x.oldGroup == g {
      if g == m.oldGroup {
        assert m in all;
      } else {
        var x :| x in maps && x.oldGroup == g;
        assert x in all;
      }
    }
  }

  function OldGroups(rows: seq<OldRow>): set<int> { set r | r in rows :: OldGroup(r) }

  method MapOldGroups(b: Builder, out: Built, olds: seq<OldRow>) returns (maps: seq<GroupMapping>)
    ensures forall m :: m in maps ==> MapsGroup(b, out, olds, m)
    ensures MappingsOk(out.rows, maps)
    ensures GroupsListed(maps, OldGroups(olds))
    ensures SourcesDiffer(out.rows) ==> forall m :: m in maps ==> MapsByVouching(b, out, olds, m)
  {
    var todo := OldGroups(olds);
    var listed: set<int> := {};
    maps := [];
    while todo != {}
      invariant todo + listed == OldGroups(olds) && todo !! listed
      invariant forall m :: m in maps ==> MapsGroup(b, out, olds, m)
      invariant forall i :: 0 <= i < |maps| ==> MappingOk(out.rows, maps[i])
      invariant GroupsListed(maps, listed)
    {
      var g :| g in todo;
      var m := MapGroup(b, out, olds, g);
      ListOneMore(maps, listed, m);
      maps := maps + [m];
      todo := todo - {g};
      listed := listed + {g};
    }
    AllMapsExact(b, out, olds, maps);
  }

  method MapGroup(b: Builder, out: Built, olds: seq<OldRow>, g: int) returns (m: GroupMapping)
    ensures m.oldGroup == g && MapsGroup(b, out, olds, m) && MappingOk(out.rows, m)
  {
    var candidates := CandidateGroups(b, out, olds, g);
    CandidatesAreGroups(b, out, olds, g);
    Classifications();
    if g < 0 {
      m := GroupMapping(g, None, MISSING_GROUP);
    } else if |candidates| == 1 {
      var c :| c in candidates;
      m := GroupMapping(g, Some(c), ONE_GROUP);
    } else if candidates == {} {
      m := GroupMapping(g, None, NO_GROUP);
    } else {
      m := GroupMapping(g, None, CONFLICTING_GROUPS);
    }
  }

  lemma CandidatesAreGroups(b: Builder, out: Built, olds: seq<OldRow>, g: int)
    ensures CandidateGroups(b, out, olds, g) <= GroupNumbers(out.rows)
  {
    forall c | c in CandidateGroups(b, out, olds, g) ensures c in GroupNumbers(out.rows) {
      var r :| r in olds && OldGroup(r) == g && ReplacementById(b, out, olds, r.id).Some? && ReplacementById(b, out, olds, r.id).value.group == c;
      ReplacementsAreRows(b, out, olds, r.id);
    }
  }

  /** Only the mapped classification lacks the quarantine prefix. */
  lemma Classifications()
    ensures QUARANTINED <= MISSING_GROUP && QUARANTINED <= NO_GROUP && QUARANTINED <= CONFLICTING_GROUPS
    ensures !(QUARANTINED <= ONE_GROUP)
  {
    assert ONE_GROUP[0] != QUARANTINED[0];
  }

  // ---- which old rows vouch for a new group ----

  /** A built assistant row with the normalized text of an old reply. */
  predicate Repeats(b: Builder, a: CanonicalRow, r: OldRow) {
    a.assistant != "" && a.normalizedAssistant == b.normalize(r.assistant)
  }

  /** By its source: that of the user row of group `g`, with the same sender
      and with the row's content or its transport form as body. */
  predicate VouchesBySource(out: Built, r: OldRow, g: int) {
    exists u :: u in out.rows && u.user != "" && r.source != "" && u.sourceMessage == r.source && u.group == g && u.sender == r.sender
      && (r.user == u.user || (r.source in out.transport && r.user == out.transport[r.source]))
  }

  /** By its reply, when no user row has its source: the one built assistant
      row with that text is in group `g`. */
  predicate VouchesByReply(b: Builder, out: Built, r: OldRow, g: int) {
    && (r.source == "" || forall u :: u in out.rows && u.user != "" ==> u.sourceMessage != r.source)
    && Strip(r.assistant) != ""
    && exists i :: 0 <= i < |out.rows| && Repeats(b, out.rows[i], r) && out.rows[i].group == g
         && forall j :: 0 <= j < |out.rows| && j != i ==> !Repeats(b, out.rows[j], r)
  }

  predicate Vouches(b: Builder, out: Built, r: OldRow, g: int) {
    VouchesBySource(out, r, g) || VouchesByReply(b, out, r, g)
  }

  /** The last old row with this id. */
  predicate SpeaksFor(olds: seq<OldRow>, j: int, id: string) {
    0 <= j < |olds| && olds[j].id == id && forall k :: j < k < |olds| ==> olds[k].id != id
  }

  /** Some row of the old group vouches for `g`; of rows sharing an id the last
      one speaks. */
  ghost predicate GroupVouches(b: Builder, out: Built, olds: seq<OldRow>, from: int, g: int) {
    exists r, j :: r in olds && OldGroup(r) == from && SpeaksFor(olds, j, r.id) && Vouches(b, out, olds[j], g)
  }

  /** An old group of non-negative number goes to the one group its rows vouch
      for; otherwise the reason says why not. */
  ghost predicate MapsByVouching(b: Builder, out: Built, olds: seq<OldRow>, m: GroupMapping) {
    && (forall g :: m.target == Some(g) <==>
          m.oldGroup >= 0 && GroupVouches(b, out, olds, m.oldGroup, g)
          && forall h :: GroupVouches(b, out, olds, m.oldGroup, h) ==> h == g)
    && (m.classification == MISSING_GROUP <==> m.oldGroup < 0)
    && (m.classification == NO_GROUP <==>
          m.oldGroup >= 0 && forall h :: !GroupVouches(b, out, olds, m.oldGroup, h))
    && (m.classification == CONFLICTING_GROUPS <==>
          m.oldGroup >= 0 && exists g, h :: g != h && GroupVouches(b, out, olds, m.oldGroup, g) && GroupVouches(b, out, olds, m.oldGroup, h))
    && (m.classification == ONE_GROUP <==> m.target.Some?)
  }

  lemma {:induction false} UserBySourceFinds(rows: seq<CanonicalRow>, source: string)
    ensures UserBySource(rows, source).Some? ==>
              var u := UserBySource(rows, source).value; u in rows && u.user != "" && u.sourceMessage == source
    ensures UserBySource(rows, source).None? <==> forall u :: u in rows && u.user != "" ==> u.sourceMessage != source
  {
    if rows != [] {
      UserBySourceFinds(rows[1..], source);
      assert rows == [rows[0]] + rows[1..];
    }
  }

  predicate SourcesDiffer(rows: seq<CanonicalRow>) {
    forall i, j :: 0 <= i < j < |rows| && rows[i].user != "" && rows[j].user != "" ==> rows[i].sourceMessage != rows[j].sourceMessage
  }

  lemma OneUserPerSource(rows: seq<CanonicalRow>, u: CanonicalRow, v: CanonicalRow)
    requires SourcesDiffer(rows) && u in rows && v in rows
    ensures u.user != "" && v.user != "" && u.sourceMessage == v.sourceMessage ==> u == v
  {
    var i :| 0 <= i < |rows| && rows[i] == u;
    var j :| 0 <= j < |rows| && rows[j] == v;
    assert i < j || j < i || i == j;
  }

  predicate OnlyRepeat(b: Builder, rows: seq<CanonicalRow>, r: OldRow, i: int) {
    0 <= i < |rows| && Repeats(b, rows[i], r) && forall j :: 0 <= j < |rows| && j != i ==> !Repeats(b, rows[j], r)
  }

  lemma {:induction false} NoRepeats(b: Builder, rows: seq<CanonicalRow>, r: OldRow)
    ensures AssistantsWith(rows, b.normalize(r.assistant)) == [] <==> forall a :: a in rows ==> !Repeats(b, a, r)
  {
    if rows != [] {
      NoRepeats(b, rows[1..], r);
      assert rows == [rows[0]] + rows[1..] && rows[0] in rows;
    }
  }

  lemma {:induction false} OneRepeat(b: Builder, rows: seq<CanonicalRow>, r: OldRow, a: CanonicalRow)
    ensures AssistantsWith(rows, b.normalize(r.assistant)) == [a] <==> exists i :: OnlyRepeat(b, rows, r, i) && rows[i] == a
  {
    if rows != [] {
      var head, rest := rows[0], rows[1..];
      assert rows == [head] + rest;
      OneRepeat(b, rest, r, a);
      NoRepeats(b, rest, r);
      OnlyRepeatSplit(b, head, rest, r, a);
      ConsIsOne(head, AssistantsWith(rest, b.normalize(r.assistant)), a);
      assert [] + AssistantsWith(rest, b.normalize(r.assistant)) == AssistantsWith(rest, b.normalize(r.assistant));
    }
  }

  lemma ConsIsOne<T>(head: T, rest: seq<T>, a: T)
    ensures [head] + rest == [a] <==> head == a && rest == []
  {
    assert |[head] + rest| == 1 + |rest| && ([head] + rest)[0] == head;
  }

  lemma OnlyRepeatSplit(b: Builder, head: CanonicalRow, rest: seq<CanonicalRow>, r: OldRow, a: CanonicalRow)
    ensures (exists i :: OnlyRepeat(b, [head] + rest, r, i) && ([head] + rest)[i] == a) <==>
            if Repeats(b, head, r) then head == a && forall x :: x in rest ==> !Repeats(b, x, r)
            else exists i :: OnlyRepeat(b, rest, r, i) && rest[i] == a
  {
    var rows := [head] + rest;
    assert rows[0] == head;
    forall j | 0 <= j < |rest| ensures rest[j] == rows[j + 1] {}
    if i :| OnlyRepeat(b, rows, r, i) && rows[i] == a {
      if Repeats(b, head, r) {
        assert i == 0;
        forall x | x in rest ensures !Repeats(b, x, r) {
          var j :| 0 <= j < |rest| && rest[j] == x;
          assert rows[j + 1] == x;
        }
      } else {
        assert OnlyRepeat(b, rest, r, i - 1);
      }
    }
    if Repeats(b, head, r) && head == a && forall x :: x in rest ==> !Repeats(b, x, r) {
      assert OnlyRepeat(b, rows, r, 0);
    }
    if !Repeats(b, head, r) {
      if i :| OnlyRepeat(b, rest, r, i) && rest[i] == a {
        assert OnlyRepeat(b, rows, r, i + 1);
      }
    }
  }

  lemma SourceDecides(b: Builder, out: Built, r: OldRow, g: int)
    requires SourcesDiffer(out.rows) && r.source != "" && UserBySource(out.rows, r.source).Some?
    ensures Replacement(b, out, r).Some? && Replacement(b, out, r).value.group == g <==> Vouches(b, out, r, g)
  {
    UserBySourceFinds(out.rows, r.source);
    var known := UserBySource(out.rows, r.source).value;
    forall u | u in out.rows && u.user != "" && u.sourceMessage == r.source ensures u == known {
      OneUserPerSource(out.rows, u, known);
    }
  }

  lemma ReplyDecides(b: Builder, out: Built, r: OldRow, g: int)
    requires r.source == "" || UserBySource(out.rows, r.source).None?
    ensures Replacement(b, out, r).Some? && Replacement(b, out, r).value.group == g <==> Vouches(b, out, r, g)
  {
    UserBySourceFinds(out.rows, r.source);
    StripBlank(r.assistant);
    var found := AssistantsWith(out.rows, b.normalize(r.assistant));
    if |found| == 1 {
      assert found == [found[0]];
      OneRepeat(b, out.rows, r, found[0]);
    }
    forall i | OnlyRepeat(b, out.rows, r, i) ensures found == [out.rows[i]] {
      OneRepeat(b, out.rows, r, out.rows[i]);
    }
    assert VouchesByReply(b, out, r, g) <==>
           Strip(r.assistant) != "" && exists i :: OnlyRepeat(b, out.rows, r, i) && out.rows[i].group == g;
  }

  lemma ReplacementVouches(b: Builder, out: Built, r: OldRow, g: int)
    requires SourcesDiffer(out.rows)
    ensures Replacement(b, out, r).Some? && Replacement(b, out, r).value.group == g <==> Vouches(b, out, r, g)
  {
    if r.source != "" && UserBySource(out.rows, r.source).Some? {
      SourceDecides(b, out, r, g);
    } else {
      ReplyDecides(b, out, r, g);
    }
  }

  lemma {:induction false} LastDecides(b: Builder, out: Built, olds: seq<OldRow>, id: string)
    ensures forall j :: SpeaksFor(olds, j, id) ==> ReplacementById(b, out, olds, id) == Replacement(b, out, olds[j])
    ensures (exists r :: r in olds && r.id == id) ==> exists j :: SpeaksFor(olds, j, id)
    decreases |olds|
  {
    if olds != [] {
      var front, r := olds[..|olds| - 1], olds[|olds| - 1];
      assert olds == front + [r];
      LastDecides(b, out, front, id);
      if r.id == id {
        assert SpeaksFor(olds, |olds| - 1, id);
      } else {
        forall j | SpeaksFor(olds, j, id) ensures SpeaksFor(front, j, id) {}
        forall j | SpeaksFor(front, j, id) ensures SpeaksFor(olds, j, id) {}
      }
    }
  }

  lemma CandidatesVouched(b: Builder, out: Built, olds: seq<OldRow>, from: int, g: int)
    requires SourcesDiffer(out.rows)
    ensures g in CandidateGroups(b, out, olds, from) <==> GroupVouches(b, out, olds, from, g)
  {
    if g in CandidateGroups(b, out, olds, from) {
      var r :| r in olds && OldGroup(r) == from && ReplacementById(b, out, olds, r.id).Some?
               && ReplacementById(b, out, olds, r.id).value.group == g;
      LastDecides(b, out, olds, r.id);
      var j :| SpeaksFor(olds, j, r.id);
      ReplacementVouches(b, out, olds[j], g);
    }
    if GroupVouches(b, out, olds, from, g) {
      var r, j :| r in olds && OldGroup(r) == from && SpeaksFor(olds, j, r.id) && Vouches(b, out, olds[j], g);
      LastDecides(b, out, olds, r.id);
      ReplacementVouches(b, out, olds[j], g);
    }
  }

  /** One, none or several, told by a set of which they are the members. */
  lemma SizeTells(s: set<int>)
    ensures |s| == 1 <==> (s != {} && forall x, y :: x in s && y in s ==> x == y)
  {
    if s != {} {
      SetHasMember(s);
      var x: int :| x in s;
      assert s == {x} + (s - {x});
      if forall y, z :: y in s && z in s ==> y == z {
        assert s == {x};
      }
      if |s| == 1 {
        assert s - {x} == {};
      }
    }
  }

  /** The mapping of an old group read row by row. */
  lemma MapsExactly(b: Builder, out: Built, olds: seq<OldRow>, m: GroupMapping)
    requires SourcesDiffer(out.rows) && MapsGroup(b, out, olds, m)
    ensures MapsByVouching(b, out, olds, m)
  {
    var candidates := CandidateGroups(b, out, olds, m.oldGroup);
    forall g ensures g in candidates <==> GroupVouches(b, out, olds, m.oldGroup, g) {
      CandidatesVouched(b, out, olds, m.oldGroup, g);
    }
    SizeTells(candidates);
    FourNames();
  }

  lemma AllMapsExact(b: Builder, out: Built, olds: seq<OldRow>, maps: seq<GroupMapping>)
    requires forall m :: m in maps ==> MapsGroup(b, out, olds, m)
    ensures SourcesDiffer(out.rows) ==> forall m :: m in maps ==> MapsByVouching(b, out, olds, m)
  {
    if SourcesDiffer(out.rows) {
      forall m | m in maps ensures MapsByVouching(b, out, olds, m) {
        MapsExactly(b, out, olds, m);
      }
    }
  }

  /** The four classifications differ, already in length. */
  lemma FourNames()
    ensures |MISSING_GROUP| == 38 && |NO_GROUP| == 29 && |CONFLICTING_GROUPS| == 39 && |ONE_GROUP| == 26
  {
    assert |QUARANTINED| == 12;
  }

  lemma BuiltSourcesDiffer(b: Builder, ds: seq<Delivery>, out: Built)
    requires BuiltFrom(b, ds, out)
    ensures SourcesDiffer(out.rows)
  {
    forall i, j | 0 <= i < j < |out.rows| && out.rows[i].user != "" && out.rows[j].user != ""
      ensures out.rows[i].sourceMessage != out.rows[j].sourceMessage
    {
      BuiltRow(b, ds, out, i);
      BuiltRow(b, ds, out, j);
    }
  }

  // ---- the whole build ----

  datatype BuildError = EvidenceRejected | CountMismatch | IdCollision | SortKeyCollision | CoverageMismatch

  datatype Repair = Repair(rows: seq<CanonicalRow>, sources: seq<Membership>, maps: seq<GroupMapping>)

  datatype Outcome = Done(artifact: Repair) | Failed(error: BuildError)

  function SortKeys(rows: seq<CanonicalRow>): set<int> { set r | r in rows :: r.sortKey }

  function UserSources(rows: seq<CanonicalRow>): set<string> { set r | r in rows && IsUser(r) :: r.sourceMessage }

  /** Two rows built from the deliveries share an id. */
  ghost predicate IdsCollide(b: Builder, ds: seq<Delivery>) {
    exists out :: BuiltFrom(b, ds, out) && |RowIds(out.rows)| != |out.rows|
  }

  lemma SameRowsBuilt(b: Builder, ds: seq<Delivery>, out: Built, other: Built)
    requires BuiltFrom(b, ds, out) && BuiltFrom(b, ds, other)
    ensures out.rows == other.rows
  {
    forall i | 0 <= i < |out.rows| ensures out.rows[i] == other.rows[i] {
      var k := i / 2;
      assert PairBuilt(b, ds[k], k, out) && PairBuilt(b, ds[k], k, other);
      assert i == 2 * k || i == 2 * k + 1;
    }
  }

  lemma OnlyOneBuild(b: Builder, ds: seq<Delivery>, out: Built)
    requires BuiltFrom(b, ds, out) && |RowIds(out.rows)| == |out.rows|
    ensures !IdsCollide(b, ds)
  {
    if IdsCollide(b, ds) {
      var other :| BuiltFrom(b, ds, other) && |RowIds(other.rows)| != |other.rows|;
      SameRowsBuilt(b, ds, out, other);
    }
  }

  /** `build_artifact` from the ordered deliveries and the owner's old rows.
      It fails on bad evidence or on colliding ids; its other consistency
      checks never fire, and what it builds the loader accepts. */
  method BuildArtifact(b: Builder, ds: seq<Delivery>, oldInput: seq<OldRow>) returns (r: Outcome)
    ensures r == Failed(EvidenceRejected) <==> !DeliveriesOk(b, ds)
    ensures r.Failed? ==> r.error == EvidenceRejected || r.error == IdCollision
    ensures r == Failed(IdCollision) <==> DeliveriesOk(b, ds) && IdsCollide(b, ds)
    ensures r == Failed(IdCollision) ==> InjectiveIds(b) ==> !PlainIds(ds)
    ensures r.Done? ==> ArtifactOk(b.identity, r.artifact.rows, r.artifact.sources, r.artifact.maps)
    ensures r.Done? ==> GroupsListed(r.artifact.maps, OldGroups(OfOwner(b, oldInput)))
    ensures r.Done? ==> exists out ::
              && BuiltFrom(b, ds, out) && r.artifact.rows == out.rows && r.artifact.sources == out.sources
              && (forall m :: m in r.artifact.maps ==>
                    MapsGroup(b, out, OfOwner(b, oldInput), m) && MapsByVouching(b, out, OfOwner(b, oldInput), m))
  {
    var built := BuildGroups(b, ds);
    if built.None? {
      return Failed(EvidenceRejected);
    }
    var out := built.value;
    if |out.rows| != 2 * |ds| || |out.sources| != |ds| {
      return Failed(CountMismatch);
    }
    if |RowIds(out.rows)| != |out.rows| {
      if InjectiveIds(b) && PlainIds(ds) {
        PlainIdsNeverCollide(b, ds, out);
      }
      return Failed(IdCollision);
    }
    OnlyOneBuild(b, ds, out);
    BuiltKeysDistinct(b, ds, out);
    if |SortKeys(out.rows)| != |out.rows| {
      return Failed(SortKeyCollision);
    }
    if |UserSources(out.rows)| != |ds| {
      return Failed(CoverageMismatch);
    }
    BuiltIsAccepted(b, ds, out);
    var maps := MapOldGroups(b, out, OfOwner(b, oldInput));
    BuiltSourcesDiffer(b, ds, out);
    return Done(Repair(out.rows, out.sources, maps));
  }

  function OfOwner(b: Builder, rows: seq<OldRow>): seq<OldRow> {
    Filter(rows, (x: OldRow) => x.conversation == b.identity.owner)
  }

  // ---- ids do not collide ----

  ghost predicate InjectiveIds(b: Builder) {
    forall x: (string, string), y: (string, string) :: b.canonicalId(x.0, x.1) == b.canonicalId(y.0, y.1) ==> x == y
  }

  /** Response ids do not contain the separator the builder joins them with. */
  predicate PlainIds(ds: seq<Delivery>) {
    forall d, m :: d in ds && m in d.responses ==> ',' !in m.id
  }

  function UpToComma(s: string): string {
    if s == "" || s[0] == ',' then "" else [s[0]] + UpToComma(s[1..])
  }

  lemma {:induction false} FirstOfJoin(x: string, rest: string)
    requires ',' !in x
    requires rest == "" || rest[0] == ','
    ensures UpToComma(x + rest) == x
  {
    if x == "" {
      assert x + rest == rest;
    } else {
      FirstOfJoin(x[1..], rest);
      assert (x + rest)[1..] == x[1..] + rest;
    }
  }

  lemma JoinStarts(parts: seq<string>) returns (rest: string)
    requires parts != []
    ensures JoinWith(parts, ",") == parts[0] + rest && (rest == "" || rest[0] == ',')
  {
    if |parts| == 1 {
      rest := "";
    } else {
      rest := "," + JoinWith(parts[1..], ",");
      assert parts[0] + "," + JoinWith(parts[1..], ",") == parts[0] + rest;
    }
  }

  /** Different deliveries have different assistant keys: the first response
      of the later one was unseen. */
  lemma AssistantKeysDiffer(b: Builder, ds: seq<Delivery>, i: nat, j: nat)
    requires DeliveriesOk(b, ds) && PlainIds(ds) && i < j < |ds|
    ensures JoinWith(IdsOf(ds[i].responses), ",") != JoinWith(IdsOf(ds[j].responses), ",")
  {
    var x, y := ds[i].responses, ds[j].responses;
    assert OkAt(b, ds, i) && OkAt(b, ds, j);
    assert ds[..j][i] in ds[..j] && x[0] in x && y[0] in y;
    assert x[0].id in ResponsesOf(ds[..j]);
    assert ds[i] in ds && ds[j] in ds;
    var xs := JoinStarts(IdsOf(x));
    var ys := JoinStarts(IdsOf(y));
    FirstOfJoin(x[0].id, xs);
    FirstOfJoin(y[0].id, ys);
  }

  lemma RowIdsDiffer(b: Builder, ds: seq<Delivery>, out: Built, i: nat, j: nat)
    requires DeliveriesOk(b, ds) && BuiltFrom(b, ds, out) && InjectiveIds(b) && PlainIds(ds)
    requires i < j < |out.rows|
    ensures out.rows[i].id != out.rows[j].id
  {
    var x := RowKey(b, ds, out, i);
    var y := RowKey(b, ds, out, j);
    if i / 2 < j / 2 {
      AssistantKeysDiffer(b, ds, i / 2, j / 2);
      assert Strip(ds[i / 2].triggerId) != Strip(ds[j / 2].triggerId);
    }
    assert x != y;
  }

  lemma RowKey(b: Builder, ds: seq<Delivery>, out: Built, i: nat) returns (key: (string, string))
    requires BuiltFrom(b, ds, out) && i < |out.rows|
    ensures out.rows[i].id == b.canonicalId(key.0, key.1)
    ensures key == if i % 2 == 0 then ("user", Strip(ds[i / 2].triggerId)) else ("assistant", JoinWith(IdsOf(ds[i / 2].responses), ","))
  {
    var k := i / 2;
    assert PairBuilt(b, ds[k], k, out);
    assert i == 2 * k || i == 2 * k + 1;
    key := if i % 2 == 0 then ("user", Strip(ds[k].triggerId)) else ("assistant", JoinWith(IdsOf(ds[k].responses), ","));
  }

  /** With injective id derivation and plain response ids the id-collision
      check cannot fire either. */
  lemma PlainIdsNeverCollide(b: Builder, ds: seq<Delivery>, out: Built)
    requires DeliveriesOk(b, ds) && BuiltFrom(b, ds, out) && InjectiveIds(b) && PlainIds(ds)
    ensures |RowIds(out.rows)| == |out.rows|
  {
    CountDistinct(Ids(out.rows));
    IdSets(out.rows);
    forall i, j | 0 <= i < j < |out.rows| ensures Ids(out.rows)[i] != Ids(out.rows)[j] {
      RowIdsDiffer(b, ds, out, i, j);
    }
  }

  // ---- distinctness by counting ----

  function Keys(rows: seq<CanonicalRow>): seq<int> {
    seq(|rows|, i requires 0 <= i < |rows| => rows[i].sortKey)
  }

  function Triggers(ds: seq<Delivery>): seq<string> {
    seq(|ds|, i requires 0 <= i < |ds| => Strip(ds[i].triggerId))
  }

  /** Row `i` belongs to delivery `i / 2`; its key determines `i`. */
  lemma BuiltRow(b: Builder, ds: seq<Delivery>, out: Built, i: nat)
    requires BuiltFrom(b, ds, out) && i < |out.rows|
    ensures out.rows[i].group == i / 2 && out.rows[i].sortKey == 1000 * (i + 1)
    ensures IsUser(out.rows[i]) <==> i % 2 == 0
    ensures IsUser(out.rows[i]) ==> out.rows[i].sourceMessage == Strip(ds[i / 2].triggerId)
  {
    var k := i / 2;
    assert PairBuilt(b, ds[k], k, out);
    assert i == 2 * k || i == 2 * k + 1;
  }

  lemma BuiltKeysDistinct(b: Builder, ds: seq<Delivery>, out: Built)
    requires BuiltFrom(b, ds, out)
    ensures |SortKeys(out.rows)| == |out.rows|
    ensures |UserSources(out.rows)| == |ds|
  {
    forall i | 0 <= i < |out.rows| ensures Keys(out.rows)[i] == 1000 * (i + 1) {
      BuiltRow(b, ds, out, i);
    }
    CountDistinct(Keys(out.rows));
    forall k ensures k in SortKeys(out.rows) <==> k in Elements(Keys(out.rows)) {
      if k in SortKeys(out.rows) {
        var r :| r in out.rows && r.sortKey == k;
        var i :| 0 <= i < |out.rows| && out.rows[i] == r;
        assert Keys(out.rows)[i] == k;
      }
      if k in Elements(Keys(out.rows)) {
        var i :| 0 <= i < |out.rows| && Keys(out.rows)[i] == k;
        assert out.rows[i] in out.rows;
      }
    }
    assert SortKeys(out.rows) == Elements(Keys(out.rows));
    CoverageHolds(b, ds, out);
  }

  lemma CoverageHolds(b: Builder, ds: seq<Delivery>, out: Built)
    requires BuiltFrom(b, ds, out)
    ensures |UserSources(out.rows)| == |ds|
  {
    CountDistinct(Triggers(ds));
    assert UserSources(out.rows) == Elements(Triggers(ds)) by {
      forall x | x in UserSources(out.rows) ensures x in Elements(Triggers(ds)) {
        SourceIsTrigger(b, ds, out, x);
      }
      forall x | x in Elements(Triggers(ds)) ensures x in UserSources(out.rows) {
        TriggerIsSource(b, ds, out, x);
      }
    }
  }

  lemma SourceIsTrigger(b: Builder, ds: seq<Delivery>, out: Built, x: string)
    requires BuiltFrom(b, ds, out) && x in UserSources(out.rows)
    ensures x in Elements(Triggers(ds))
  {
    var r :| r in out.rows && IsUser(r) && r.sourceMessage == x;
    var i :| 0 <= i < |out.rows| && out.rows[i] == r;
    BuiltRow(b, ds, out, i);
    assert Triggers(ds)[i / 2] == x;
  }

  lemma TriggerIsSource(b: Builder, ds: seq<Delivery>, out: Built, x: string)
    requires BuiltFrom(b, ds, out) && x in Elements(Triggers(ds))
    ensures x in UserSources(out.rows)
  {
    var k :| 0 <= k < |ds| && Triggers(ds)[k] == x;
    BuiltRow(b, ds, out, 2 * k);
    assert out.rows[2 * k] in out.rows;
  }

  // ---- the loader accepts it ----

  lemma RowAccepted(b: Builder, ds: seq<Delivery>, out: Built, i: nat)
    requires BuiltFrom(b, ds, out) && i < |out.rows|
    ensures RowOk(b.identity, out.rows[i])
  {
    BuiltRow(b, ds, out, i);
    assert PairBuilt(b, ds[i / 2], i / 2, out);
    assert i == 2 * (i / 2) || i == 2 * (i / 2) + 1;
  }

  lemma RowsAccepted(b: Builder, ds: seq<Delivery>, out: Built)
    requires BuiltFrom(b, ds, out) && |RowIds(out.rows)| == |out.rows|
    ensures RowsOk(b.identity, out.rows)
  {
    CountDistinct(Ids(out.rows));
    IdSets(out.rows);
    forall i | 0 <= i < |out.rows| ensures RowOk(b.identity, out.rows[i]) {
      RowAccepted(b, ds, out, i);
    }
    forall i, j | 0 <= i < j < |out.rows| ensures RowsApart(out.rows[i], out.rows[j]) {
      BuiltRow(b, ds, out, i);
      BuiltRow(b, ds, out, j);
      assert Ids(out.rows)[i] != Ids(out.rows)[j];
    }
  }

  lemma MembersSnoc(rows: seq<CanonicalRow>, g: int, n: nat)
    requires n < |rows|
    ensures Members(rows[..n + 1], g) == Members(rows[..n], g) + if rows[n].group == g then [rows[n]] else []
  {
    assert rows[..n + 1][..n] == rows[..n] && rows[..n + 1][n] == rows[n];
  }

  predicate InPairs(rows: seq<CanonicalRow>) {
    forall i :: 0 <= i < |rows| ==> rows[i].group == i / 2
  }

  lemma InGroupExactly(rows: seq<CanonicalRow>, g: nat, i: nat)
    requires InPairs(rows) && i < |rows|
    ensures rows[i].group == g <==> i == 2 * g || i == 2 * g + 1
  {
    assert rows[i].group == i / 2;
  }

  lemma {:induction false} MembersBefore(rows: seq<CanonicalRow>, g: nat, n: nat)
    requires InPairs(rows) && n <= 2 * g && n <= |rows|
    ensures Members(rows[..n], g) == []
    decreases n
  {
    if n > 0 {
      MembersBefore(rows, g, n - 1);
      MembersSnoc(rows, g, n - 1);
      InGroupExactly(rows, g, n - 1);
    }
  }

  lemma {:induction false} MembersUpto(rows: seq<CanonicalRow>, g: nat, n: nat)
    requires InPairs(rows) && 2 * g + 2 <= n <= |rows|
    ensures Members(rows[..n], g) == [rows[2 * g], rows[2 * g + 1]]
    decreases n
  {
    MembersSnoc(rows, g, n - 1);
    InGroupExactly(rows, g, n - 1);
    if n == 2 * g + 2 {
      MembersBefore(rows, g, 2 * g);
      MembersSnoc(rows, g, 2 * g);
      InGroupExactly(rows, g, 2 * g);
    } else {
      MembersUpto(rows, g, n - 1);
    }
  }

  lemma BuiltInPairs(b: Builder, ds: seq<Delivery>, out: Built)
    requires BuiltFrom(b, ds, out)
    ensures InPairs(out.rows)
  {
    forall i | 0 <= i < |out.rows| ensures out.rows[i].group == i / 2 {
      BuiltRow(b, ds, out, i);
    }
  }

  lemma GroupAccepted(b: Builder, ds: seq<Delivery>, out: Built, g: nat)
    requires BuiltFrom(b, ds, out) && g < |ds|
    ensures PairedGroup(Members(out.rows, g))
  {
    BuiltInPairs(b, ds, out);
    MembersUpto(out.rows, g, |out.rows|);
    assert out.rows[..|out.rows|] == out.rows;
    BuiltRow(b, ds, out, 2 * g);
    BuiltRow(b, ds, out, 2 * g + 1);
    RowAccepted(b, ds, out, 2 * g + 1);
    assert PairBuilt(b, ds[g], g, out);
  }

  lemma GroupsAccepted(b: Builder, ds: seq<Delivery>, out: Built)
    requires BuiltFrom(b, ds, out)
    ensures GroupsOk(out.rows)
  {
    forall g | g in GroupNumbers(out.rows) ensures PairedGroup(Members(out.rows, g)) {
      var r :| r in out.rows && r.group == g;
      var i :| 0 <= i < |out.rows| && out.rows[i] == r;
      BuiltRow(b, ds, out, i);
      GroupAccepted(b, ds, out, g);
    }
  }

  lemma SourceAccepted(b: Builder, ds: seq<Delivery>, out: Built, k: nat)
    requires BuiltFrom(b, ds, out) && k < |ds| && RowsOk(b.identity, out.rows)
    ensures Fences(b.identity, out.sources[k], out.rows[2 * k], out.rows[2 * k + 1])
  {
    assert PairBuilt(b, ds[k], k, out);
    assert RowsApart(out.rows[2 * k], out.rows[2 * k + 1]);
    StripBlank(JoinWith(Chunks(b, ds[k].responses), "\n\n"));
    var content := out.rows[2 * k + 1].assistant;
    assert !IsSpace(content[0]);
  }

  lemma SourcesApartBuilt(b: Builder, ds: seq<Delivery>, out: Built, i: nat, j: nat)
    requires BuiltFrom(b, ds, out) && RowsOk(b.identity, out.rows) && i < j < |ds|
    ensures SourcesApart(out.sources[i], out.sources[j])
  {
    SourceAccepted(b, ds, out, i);
    SourceAccepted(b, ds, out, j);
    assert RowsApart(out.rows[2 * i], out.rows[2 * j]);
  }

  lemma SourceOfUser(b: Builder, ds: seq<Delivery>, out: Built, i: nat)
    requires BuiltFrom(b, ds, out) && RowsOk(b.identity, out.rows) && i < |out.rows| && IsUser(out.rows[i])
    ensures out.rows[i].id in SourceIds(out.sources)
  {
    BuiltRow(b, ds, out, i);
    SourceAccepted(b, ds, out, i / 2);
    assert out.sources[i / 2] in out.sources;
  }

  lemma UserOfSource(b: Builder, ds: seq<Delivery>, out: Built, k: nat)
    requires BuiltFrom(b, ds, out) && RowsOk(b.identity, out.rows) && k < |ds|
    ensures out.sources[k].canonicalId in UserIds(out.rows)
  {
    SourceAccepted(b, ds, out, k);
    assert out.rows[2 * k] in out.rows;
  }

  lemma SourceIdsBuilt(b: Builder, ds: seq<Delivery>, out: Built)
    requires BuiltFrom(b, ds, out) && RowsOk(b.identity, out.rows)
    ensures SourceIds(out.sources) == UserIds(out.rows)
  {
    forall x | x in SourceIds(out.sources) ensures x in UserIds(out.rows) {
      var s :| s in out.sources && s.canonicalId == x;
      var k :| 0 <= k < |out.sources| && out.sources[k] == s;
      UserOfSource(b, ds, out, k);
    }
    forall x | x in UserIds(out.rows) ensures x in SourceIds(out.sources) {
      var r :| r in out.rows && IsUser(r) && r.id == x;
      var i :| 0 <= i < |out.rows| && out.rows[i] == r;
      SourceOfUser(b, ds, out, i);
    }
  }

  lemma SourcesAccepted(b: Builder, ds: seq<Delivery>, out: Built)
    requires BuiltFrom(b, ds, out) && RowsOk(b.identity, out.rows)
    ensures SourcesOk(b.identity, out.rows, out.sources)
  {
    forall k | 0 <= k < |out.sources| ensures Fenced(b.identity, out.rows, out.sources[k]) {
      SourceAccepted(b, ds, out, k);
    }
    forall i, j | 0 <= i < j < |out.sources| ensures SourcesApart(out.sources[i], out.sources[j]) {
      SourcesApartBuilt(b, ds, out, i, j);
    }
    SourceIdsBuilt(b, ds, out);
  }

  /** Everything the group loop produces with distinct ids passes the
      loader's row, group and source checks. */
  lemma BuiltIsAccepted(b: Builder, ds: seq<Delivery>, out: Built)
    requires BuiltFrom(b, ds, out) && |RowIds(out.rows)| == |out.rows|
    ensures RowsOk(b.identity, out.rows) && GroupsOk(out.rows) && SourcesOk(b.identity, out.rows, out.sources)
  {
    RowsAccepted(b, ds, out);
    GroupsAccepted(b, ds, out);
    SourcesAccepted(b, ds, out);
  }

  // ---- good evidence and what is built from it, field by field ----

  /** A non-blank trigger id that no earlier delivery has, and response ids
      that are as declared, not empty and in no earlier delivery. */
  predicate IdsAreGood(ds: seq<Delivery>, k: nat)
    requires k < |ds|
  {
    var d := ds[k];
    && Strip(d.triggerId) != "" && (forall j :: 0 <= j < k ==> Strip(ds[j].triggerId) != Strip(d.triggerId))
    && |d.responses| > 0 && |d.declaredIds| == |d.responses|
    && (forall i :: 0 <= i < |d.responses| ==> d.responses[i].id == d.declaredIds[i] && d.responses[i].id != "")
    && forall j, x, y :: 0 <= j < k && x in ds[j].responses && y in d.responses ==> x.id != y.id
  }

  /** The trigger message has this id and comes from a member of the guild;
      its archived events agree. A deleted one is the approved trigger, in the
      channel of the first response, and one archived event has its text. */
  predicate TriggerIsGood(b: Builder, d: Delivery) {
    && d.trigger.Some? && |d.responses| > 0
    && var t := d.trigger.value;
       && t.id == Strip(d.triggerId) && t.guild == b.identity.guild && t.channel != "" && t.author != "" && !t.authorBot
       && t.timestamp != "" && (forall x, y :: x in d.archive && y in d.archive ==> x == y)
       && (d.available
           || (t.id == b.deletedTrigger && t.channel == d.responses[0].channel
               && exists e :: e in d.archive && b.normalize(e.content) == b.normalize(t.content)))
  }

  /** A response is the bot's, in the trigger's channel, and refers to the
      trigger if it is a native one; a recovered one is plain and refers to
      nothing. */
  predicate ResponseIsGood(b: Builder, d: Delivery, i: nat)
    requires d.trigger.Some? && i < |d.responses| && i < |d.categories|
  {
    var r, native := d.responses[i], {"native_referenced_response", "native_reference_plus_session_chain_recovery"};
    && r.guild == b.identity.guild && r.channel == d.trigger.value.channel && r.author == b.bot && r.authorBot
    && (d.categories[i] in native ==> r.reference == Strip(d.triggerId))
    && (d.categories[i] !in native ==> "recovered_" <= d.categories[i] && r.reference == "" && r.kind == 0)
  }

  predicate IsGood(b: Builder, ds: seq<Delivery>, k: nat)
    requires k < |ds|
  {
    var d := ds[k];
    && IdsAreGood(ds, k) && TriggerIsGood(b, d) && |d.categories| == |d.responses|
    && (forall i :: 0 <= i < |d.responses| ==> ResponseIsGood(b, d, i))
    && exists i :: 0 <= i < |d.responses| && !Blank(b.project(d.responses[i]))
  }

  lemma IdsAgree(ds: seq<Delivery>, k: nat)
    requires k < |ds|
    ensures var d := ds[k];
            IdsAreGood(ds, k) <==>
              && Strip(d.triggerId) != "" && Strip(d.triggerId) !in TriggersOf(ds[..k])
              && d.responses != [] && IdsOf(d.responses) == d.declaredIds && IdsUnseen(d.responses, ResponsesOf(ds[..k]))
  {
    var d := ds[k];
    TriggerSeen(ds, k, Strip(d.triggerId));
    forall i | 0 <= i < |d.responses| ensures d.responses[i].id in ResponsesOf(ds[..k]) <==> ResponseBefore(ds, k, d.responses[i].id) {
      ResponseSeen(ds, k, d.responses[i].id);
    }
    assert IdsOf(d.responses) == d.declaredIds <==>
           |d.declaredIds| == |d.responses| && forall i :: 0 <= i < |d.responses| ==> d.responses[i].id == d.declaredIds[i];
    UnseenByPair(ds, k);
  }

  predicate ResponseBefore(ds: seq<Delivery>, k: nat, id: string)
    requires k < |ds|
  {
    exists j, x :: 0 <= j < k && x in ds[j].responses && x.id == id
  }

  lemma UnseenByPair(ds: seq<Delivery>, k: nat)
    requires k < |ds|
    ensures (forall i :: 0 <= i < |ds[k].responses| ==> !ResponseBefore(ds, k, ds[k].responses[i].id)) <==>
            (forall j, x, y :: 0 <= j < k && x in ds[j].responses && y in ds[k].responses ==> x.id != y.id)
  {
    var rs := ds[k].responses;
    if forall i :: 0 <= i < |rs| ==> !ResponseBefore(ds, k, rs[i].id) {
      forall j, x, y | 0 <= j < k && x in ds[j].responses && y in rs ensures x.id != y.id {
        var i :| 0 <= i < |rs| && rs[i] == y;
        assert !ResponseBefore(ds, k, rs[i].id);
      }
    }
    if forall j, x, y :: 0 <= j < k && x in ds[j].responses && y in rs ==> x.id != y.id {
      forall i | 0 <= i < |rs| ensures !ResponseBefore(ds, k, rs[i].id) {
        assert rs[i] in rs;
      }
    }
  }

  lemma TriggerSeen(ds: seq<Delivery>, k: nat, trigger: string)
    requires k < |ds|
    ensures trigger in TriggersOf(ds[..k]) <==> exists j :: 0 <= j < k && Strip(ds[j].triggerId) == trigger
  {
    if trigger in TriggersOf(ds[..k]) {
      var d :| d in ds[..k] && Strip(d.triggerId) == trigger;
      var j :| 0 <= j < k && ds[..k][j] == d;
      assert Strip(ds[j].triggerId) == trigger;
    }
    if j :| 0 <= j < k && Strip(ds[j].triggerId) == trigger {
      assert ds[..k][j] in ds[..k];
    }
  }

  lemma ResponseSeen(ds: seq<Delivery>, k: nat, id: string)
    requires k < |ds|
    ensures id in ResponsesOf(ds[..k]) <==> ResponseBefore(ds, k, id)
  {
    if id in ResponsesOf(ds[..k]) {
      var d, m :| d in ds[..k] && m in d.responses && m.id == id;
      var j :| 0 <= j < k && ds[..k][j] == d;
      assert m in ds[j].responses;
    }
    if j, x :| 0 <= j < k && x in ds[j].responses && x.id == id {
      assert ds[..k][j] in ds[..k];
    }
  }

  lemma OneEvent(d: Delivery)
    ensures |Matches(d)| <= 1 <==> forall x, y :: x in d.archive && y in d.archive ==> x == y
    ensures |Matches(d)| == 0 <==> d.archive == []
  {
    var s := Matches(d);
    if d.archive != [] {
      var x := d.archive[0];
      assert x in s && s == {x} + (s - {x});
      if forall y, z :: y in d.archive && z in d.archive ==> y == z {
        assert s == {x};
      }
      if |s| <= 1 {
        assert |s - {x}| == 0 && s - {x} == {};
        forall y | y in d.archive ensures y == x {
          assert y in s;
        }
      }
    }
  }

  lemma TriggerAgrees(b: Builder, d: Delivery)
    requires d.responses != []
    ensures TriggerOk(b, d) <==> TriggerIsGood(b, d)
  {
    OneEvent(d);
    if d.archive != [] {
      assert d.archive[0] in d.archive;
    }
  }

  lemma {:induction false} BlankJoin(parts: seq<string>)
    ensures Blank(JoinWith(parts, "\n\n")) <==> forall i :: 0 <= i < |parts| ==> Blank(parts[i])
  {
    if |parts| > 1 {
      var rest := JoinWith(parts[1..], "\n\n");
      BlankJoin(parts[1..]);
      BlankConcat(parts[0], "\n\n");
      BlankConcat(parts[0] + "\n\n", rest);
      assert forall i :: 1 <= i < |parts| ==> parts[i] == parts[1..][i - 1];
    }
  }

  lemma BlankConcat(x: string, y: string)
    ensures Blank(x + y) <==> Blank(x) && Blank(y)
  {
    var s := x + y;
    assert forall i :: 0 <= i < |x| ==> s[i] == x[i];
    assert forall i :: 0 <= i < |y| ==> s[|x| + i] == y[i];
  }

  lemma ContentAgrees(b: Builder, ms: seq<Message>)
    ensures AssistantContent(b, ms) != "" <==> exists i :: 0 <= i < |ms| && !Blank(b.project(ms[i]))
  {
    var chunks := Chunks(b, ms);
    StripBlank(JoinWith(chunks, "\n\n"));
    BlankJoin(chunks);
    assert forall i :: 0 <= i < |ms| ==> chunks[i] == b.project(ms[i]);
  }

  /** The build goes through exactly when every delivery is good. */
  lemma EvidenceExactly(b: Builder, ds: seq<Delivery>)
    ensures DeliveriesOk(b, ds) <==> forall k :: 0 <= k < |ds| ==> IsGood(b, ds, k)
  {
    forall k: nat | k < |ds| ensures OkAt(b, ds, k) <==> IsGood(b, ds, k) {
      GoodAt(b, ds, k);
    }
  }

  lemma GoodAt(b: Builder, ds: seq<Delivery>, k: nat)
    requires k < |ds|
    ensures OkAt(b, ds, k) <==> IsGood(b, ds, k)
  {
    var d := ds[k];
    IdsAgree(ds, k);
    ContentAgrees(b, d.responses);
    if d.responses != [] {
      TriggerAgrees(b, d);
    }
    if d.trigger.Some? && |d.categories| == |d.responses| {
      forall i | 0 <= i < |d.responses| ensures ResponseOk(b, d, d.responses[i], d.categories[i]) <==> ResponseIsGood(b, d, i) {
        ResponseAgrees(b, d, i);
      }
    }
  }

  lemma ResponseAgrees(b: Builder, d: Delivery, i: nat)
    requires d.trigger.Some? && i < |d.responses| && i < |d.categories|
    ensures ResponseOk(b, d, d.responses[i], d.categories[i]) <==> ResponseIsGood(b, d, i)
  {
  }

  /** The texts of a list, with the separator between each two. */
  lemma {:induction false} JoinLaws(xs: seq<string>, ys: seq<string>, sep: string)
    requires xs != [] && ys != []
    ensures JoinWith([xs[0]], sep) == xs[0]
    ensures JoinWith(xs + ys, sep) == JoinWith(xs, sep) + sep + JoinWith(ys, sep)
  {
    var rest := JoinWith(ys, sep);
    assert (xs + ys)[1..] == xs[1..] + ys && (xs + ys)[0] == xs[0];
    if |xs| == 1 {
      assert xs[1..] + ys == ys;
    } else {
      JoinLaws(xs[1..], ys, sep);
      assert xs[0] + sep + (JoinWith(xs[1..], sep) + sep + rest) == (xs[0] + sep + JoinWith(xs[1..], sep)) + sep + rest;
    }
  }

  /** What the k-th delivery puts into the artifact. */
  lemma BuiltExactly(b: Builder, ds: seq<Delivery>, out: Built, k: nat)
    requires BuiltFrom(b, ds, out) && k < |ds|
    ensures var w, d, u, a := b.identity, ds[k], out.rows[2 * k], out.rows[2 * k + 1];
            var t, trigger := d.trigger.value, Strip(d.triggerId);
            var said, replied := t.name + ": " + b.project(t), Strip(JoinWith(Chunks(b, d.responses), "\n\n"));
            && u == CanonicalRow(
                      id := b.canonicalId("user", trigger), conversation := w.owner, group := k, sortKey := 2000 * k + 1000,
                      hash := w.turnHash(said, "").0, normalizedUser := w.turnHash(said, "").1,
                      normalizedAssistant := w.turnHash(said, "").2, user := said, assistant := "",
                      sender := "actor:discord:" + t.author, sourceMessage := trigger, channel := t.channel, audience := w.owner)
            && a == CanonicalRow(
                      id := b.canonicalId("assistant", JoinWith(IdsOf(d.responses), ",")), conversation := w.owner, group := k,
                      sortKey := 2000 * k + 2000, hash := w.turnHash("", replied).0, normalizedUser := w.turnHash("", replied).1,
                      normalizedAssistant := w.turnHash("", replied).2, user := "", assistant := replied, sender := "",
                      sourceMessage := "", channel := t.channel, audience := w.owner)
            && out.sources[k] == Membership(
                      scope := w.scope, platform := w.platform, account := w.account, message := trigger, canonicalId := u.id,
                      assistantId := a.id, assistantHash := a.hash, group := -1, pairVersion := 1, audience := w.owner,
                      channel := t.channel, guild := w.guild, sourceActor := "actor:discord:" + t.author,
                      bodySha := w.sha(said), canonicalHash := u.hash)
            && trigger in out.transport && out.transport[trigger] == b.project(t)
  {
    assert PairBuilt(b, ds[k], k, out);
    assert ds[k] in ds;
  }
}
