/** Cursor pagination over a channel's messages: backward from a captured
    high-water mark, then forward from it to look for drift. The server is any
    function of the call number and the cursor. */
module Pagination {
  import opened Seqs

  const PAGE: nat := 100

  /** A returned object; its id is None unless it is a string of digits. */
  datatype Item = Item(id: Option<nat>, body: string)

  datatype Response = Malformed | Page(items: seq<Item>)

  datatype Error = MalformedPage | InvalidIds | RepeatedPage | CursorDidNotAdvance

  datatype Result<T> = Ok(value: T) | Err(error: Error)

  function IdsOf(items: seq<Item>): set<nat> {
    set x | x in items && x.id.Some? :: x.id.value
  }

  predicate AllIds(items: seq<Item>) {
    forall x :: x in items ==> x.id.Some?
  }

  function MinId(items: seq<Item>): nat
    requires items != [] && AllIds(items)
  {
    assert items[0] in items;
    if |items| == 1 then items[0].id.value
    else
      assert forall x :: x in items[1..] ==> x in items;
      var m := MinId(items[1..]);
      if items[0].id.value < m then items[0].id.value else m
  }

  lemma {:induction false} MinIdIsLeast(items: seq<Item>)
    requires items != [] && AllIds(items)
    ensures MinId(items) in IdsOf(items)
    ensures forall n :: n in IdsOf(items) ==> MinId(items) <= n
  {
    assert items[0] in items;
    if |items| > 1 {
      var t := items[1..];
      assert items == [items[0]] + t;
      MinIdIsLeast(t);
      var x :| x in t && x.id.Some? && x.id.value == MinId(t);
      assert x in items;
      forall n | n in IdsOf(items) ensures MinId(items) <= n {
        var y :| y in items && y.id.Some? && y.id.value == n;
        assert y == items[0] || (y in t && n in IdsOf(t));
      }
    } else {
      assert items == [items[0]];
    }
  }

  // ---- backward ----

  /** The crawl from a cursor, given the ids seen so far. */
  function Crawl(server: (nat, nat) -> Response, call: nat, before: nat, seen: set<nat>): Result<seq<Item>>
    decreases before
  {
    var page := server(call, before);
    if page.Malformed? then Err(MalformedPage)
    else if page.items == [] then Ok([])
    else if !AllIds(page.items) then Err(InvalidIds)
    else if seen * IdsOf(page.items) != {} then Err(RepeatedPage)
    else
      var next := MinId(page.items);
      if next >= before then Err(CursorDidNotAdvance)
      else if |page.items| < PAGE then Ok(page.items)
      else
        match Crawl(server, call + 1, next, seen + IdsOf(page.items))
        case Err(e) => Err(e)
        case Ok(rest) => Ok(page.items + rest)
  }

  /** `_channel_messages`. It ends on every server: each page either stops the
      loop or moves the cursor down. */
  method ChannelMessages(server: (nat, nat) -> Response, highWater: Option<nat>) returns (r: Result<seq<Item>>)
    ensures r == if highWater.None? then Ok([]) else Crawl(server, 0, highWater.value + 1, {})
  {
    if highWater.None? {
      return Ok([]);
    }
    var before: nat := highWater.value + 1;
    var rows: seq<Item> := [];
    var seen: set<nat> := {};
    var call: nat := 0;
    ghost var whole := Crawl(server, 0, before, {});
    assert whole.Ok? ==> rows + whole.value == whole.value;
    while true
      invariant match Crawl(server, call, before, seen)
                case Err(e) => whole == Err(e)
                case Ok(rest) => whole == Ok(rows + rest)
      decreases before
    {
      var page := server(call, before);
      if page.Malformed? {
        return Err(MalformedPage);
      }
      if page.items == [] {
        assert rows + [] == rows;
        return Ok(rows);
      }
      if !AllIds(page.items) {
        return Err(InvalidIds);
      }
      var ids := IdsOf(page.items);
      if seen * ids != {} {
        return Err(RepeatedPage);
      }
      var next := MinId(page.items);
      if next >= before {
        return Err(CursorDidNotAdvance);
      }
      if |page.items| < PAGE {
        return Ok(rows + page.items);
      }
      ghost var rest := Crawl(server, call + 1, next, seen + ids);
      assert rest.Ok? ==> rows + (page.items + rest.value) == (rows + page.items) + rest.value;
      seen, rows := seen + ids, rows + page.items;
      before, call := next, call + 1;
    }
  }

  /** The newest messages below the cursor, at most a page of them, in any
      order. */
  ghost predicate IsLatestPage(items: seq<Item>, content: set<nat>, before: nat) {
    && AllIds(items) && |items| <= PAGE
    && (forall i, j :: 0 <= i < j < |items| ==> items[i].id != items[j].id)
    && (forall n :: n in IdsOf(items) ==> n in content && n < before)
    && (forall n :: n in content && n < before && n !in IdsOf(items) ==>
          |items| == PAGE && forall m :: m in IdsOf(items) ==> n < m)
  }

  /** An honest server: at every call the channel holds `base` up to the mark,
      and whatever has been appended above it since. */
  ghost predicate HonestBackward(server: (nat, nat) -> Response, content: nat -> set<nat>, base: set<nat>, highWater: nat) {
    && (forall n :: n in base ==> n <= highWater)
    && (forall k, n :: n <= highWater ==> (n in content(k) <==> n in base))
    && (forall k, before :: server(k, before).Page? && IsLatestPage(server(k, before).items, content(k), before))
  }

  predicate EachOnce(items: seq<Item>) {
    && AllIds(items)
    && forall i, j :: 0 <= i < j < |items| ==> items[i].id != items[j].id
  }

  lemma EachOnceConcat(a: seq<Item>, b: seq<Item>)
    requires EachOnce(a) && EachOnce(b) && IdsOf(a) !! IdsOf(b)
    ensures EachOnce(a + b) && IdsOf(a + b) == IdsOf(a) + IdsOf(b)
  {
    forall i, j | 0 <= i < j < |a + b| ensures (a + b)[i].id != (a + b)[j].id {
      if i < |a| <= j {
        assert a[i] in a && b[j - |a|] in b;
        assert a[i].id.value in IdsOf(a) && b[j - |a|].id.value in IdsOf(b);
      }
    }
  }

  lemma {:induction false} CrawlIsExact(server: (nat, nat) -> Response, content: nat -> set<nat>, base: set<nat>, highWater: nat,
                                        call: nat, before: nat, seen: set<nat>)
    requires HonestBackward(server, content, base, highWater)
    requires before <= highWater + 1 && forall n :: n in seen ==> n >= before
    ensures Crawl(server, call, before, seen).Ok?
    ensures var items := Crawl(server, call, before, seen).value;
            EachOnce(items) && IdsOf(items) == set n | n in base && n < before
    decreases before
  {
    var page := server(call, before).items;
    var below := set n | n in base && n < before;
    assert IsLatestPage(page, content(call), before);
    if page == [] {
      assert below == {} by {
        forall n | n in below ensures n in IdsOf(page) {
          assert n in content(call);
        }
      }
    } else {
      MinIdIsLeast(page);
      var next := MinId(page);
      forall n | n in below && n !in IdsOf(page) ensures |page| == PAGE && n < next {
        assert n in content(call);
      }
      assert IdsOf(page) <= below;
      if |page| == PAGE {
        var rest := Crawl(server, call + 1, next, seen + IdsOf(page));
        CrawlIsExact(server, content, base, highWater, call + 1, next, seen + IdsOf(page));
        EachOnceConcat(page, rest.value);
      }
    }
  }

  /** Against an honest server the crawl returns every message up to the mark
      and no other, each once, whatever is posted above the mark meanwhile. */
  lemma BackwardIsExact(server: (nat, nat) -> Response, content: nat -> set<nat>, base: set<nat>, highWater: nat)
    requires HonestBackward(server, content, base, highWater)
    ensures Crawl(server, 0, highWater + 1, {}).Ok?
    ensures EachOnce(Crawl(server, 0, highWater + 1, {}).value)
    ensures IdsOf(Crawl(server, 0, highWater + 1, {}).value) == base
  {
    CrawlIsExact(server, content, base, highWater, 0, highWater + 1, {});
    assert base == set n | n in base && n < highWater + 1;
  }

  // ---- forward ----

  /** The items newer than the cursor; a missing id counts as 0. */
  function Newer(items: seq<Item>, after: nat): seq<Item> {
    if items == [] then []
    else (if NumberOr0(items[0]) > after then [items[0]] else []) + Newer(items[1..], after)
  }

  function NumberOr0(x: Item): nat {
    if x.id.Some? then x.id.value else 0
  }

  function MaxNumber(items: seq<Item>): nat
    requires items != []
  {
    if |items| == 1 then NumberOr0(items[0])
    else if NumberOr0(items[0]) > MaxNumber(items[1..]) then NumberOr0(items[0]) else MaxNumber(items[1..])
  }

  lemma {:induction false} NewerMembers(items: seq<Item>, after: nat)
    ensures forall x :: x in Newer(items, after) <==> x in items && NumberOr0(x) > after
  {
    if items != [] {
      NewerMembers(items[1..], after);
      assert items == [items[0]] + items[1..];
    }
  }

  lemma {:induction false} MaxNumberIsMost(items: seq<Item>)
    requires items != []
    ensures exists x :: x in items && NumberOr0(x) == MaxNumber(items)
    ensures forall x :: x in items ==> NumberOr0(x) <= MaxNumber(items)
  {
    var h := items[0];
    assert h in items;
    if |items| > 1 {
      var t := items[1..];
      assert items == [h] + t;
      MaxNumberIsMost(t);
      var x :| x in t && NumberOr0(x) == MaxNumber(t);
      assert x in items;
    }
  }

  /** What the loop returns when it ends within `pages` requests; None when it
      is still asking then. */
  ghost function Drift(server: (nat, nat) -> Response, pages: nat, call: nat, after: nat): Option<Result<seq<Item>>>
    decreases pages
  {
    var page := server(call, after);
    if pages == 0 then None
    else if page.Malformed? then Some(Err(MalformedPage))
    else if page.items == [] then Some(Ok([]))
    else
      var newRows := Newer(page.items, after);
      if newRows == [] then Some(Err(CursorDidNotAdvance))
      else if |page.items| < PAGE then Some(Ok(newRows))
      else
        match Drift(server, pages - 1, call + 1, MaxNumber(newRows))
        case None => None
        case Some(Err(e)) => Some(Err(e))
        case Some(Ok(rest)) => Some(Ok(newRows + rest))
  }

  /** The loop ends on this server. */
  ghost predicate Ends(server: (nat, nat) -> Response, call: nat, after: nat) {
    exists pages: nat :: Drift(server, pages, call, after).Some?
  }

  /** It ends with this result. */
  ghost predicate EndsWith(server: (nat, nat) -> Response, call: nat, after: nat, r: Result<seq<Item>>) {
    exists pages: nat :: Drift(server, pages, call, after) == Some(r)
  }

  /** What the loop returns if the rest of it returns `rest`. */
  function Joined(output: seq<Item>, rest: Result<seq<Item>>): Result<seq<Item>> {
    if rest.Err? then rest else Ok(output + rest.value)
  }

  lemma JoinedOnce(output: seq<Item>, newRows: seq<Item>, rest: Result<seq<Item>>)
    ensures Joined(output, Joined(newRows, rest)) == Joined(output + newRows, rest)
  {
    if rest.Ok? {
      assert output + (newRows + rest.value) == (output + newRows) + rest.value;
    }
  }

  lemma JoinedEmpty(output: seq<Item>, r: Result<seq<Item>>)
    ensures Joined([], r) == r && Joined(output, Ok([])) == Ok(output)
  {
    assert output + [] == output && (r.Ok? ==> [] + r.value == r.value);
  }

  lemma DriftUnfold(server: (nat, nat) -> Response, pages: nat, call: nat, after: nat)
    requires Drift(server, pages, call, after).Some?
    requires server(call, after).Page? && |server(call, after).items| >= PAGE && Newer(server(call, after).items, after) != []
    ensures var newRows := Newer(server(call, after).items, after);
            && pages > 0 && Drift(server, pages - 1, call + 1, MaxNumber(newRows)).Some?
            && Drift(server, pages, call, after).value == Joined(newRows, Drift(server, pages - 1, call + 1, MaxNumber(newRows)).value)
  {
  }

  /** `_messages_after`, on every server on which it ends. */
  method MessagesAfter(server: (nat, nat) -> Response, highWater: Option<nat>) returns (r: Result<seq<Item>>)
    requires Ends(server, 0, if highWater.Some? then highWater.value else 0)
    ensures EndsWith(server, 0, if highWater.Some? then highWater.value else 0, r)
  {
    var output: seq<Item> := [];
    var after: nat := if highWater.Some? then highWater.value else 0;
    var call: nat := 0;
    ghost var pages: nat :| Drift(server, pages, 0, after).Some?;
    ghost var left := pages;
    ghost var whole := Drift(server, pages, 0, after).value;
    JoinedEmpty([], whole);
    while true
      invariant Drift(server, left, call, after).Some? && whole == Joined(output, Drift(server, left, call, after).value)
      decreases left
    {
      var page := server(call, after);
      if page.Malformed? {
        return Err(MalformedPage);
      }
      if page.items == [] {
        JoinedEmpty(output, whole);
        return Ok(output);
      }
      var newRows := Newer(page.items, after);
      if newRows == [] {
        return Err(CursorDidNotAdvance);
      }
      if |page.items| < PAGE {
        return Ok(output + newRows);
      }
      DriftUnfold(server, left, call, after);
      JoinedOnce(output, newRows, Drift(server, left - 1, call + 1, MaxNumber(newRows)).value);
      output := output + newRows;
      after, call, left := MaxNumber(newRows), call + 1, left - 1;
    }
  }

  /** The number of requests allowed does not change the answer. */
  lemma {:induction false} MorePages(server: (nat, nat) -> Response, pages: nat, more: nat, call: nat, after: nat)
    requires Drift(server, pages, call, after).Some? && pages <= more
    ensures Drift(server, more, call, after) == Drift(server, pages, call, after)
    decreases pages
  {
    var page := server(call, after);
    if page.Page? && page.items != [] && Newer(page.items, after) != [] && |page.items| >= PAGE {
      MorePages(server, pages - 1, more - 1, call + 1, MaxNumber(Newer(page.items, after)));
    }
  }

  lemma NextCursor(items: seq<Item>, after: nat, bound: nat)
    requires Newer(items, after) != [] && forall x :: x in items ==> NumberOr0(x) <= bound
    ensures after < MaxNumber(Newer(items, after)) <= bound
  {
    NewerMembers(items, after);
    MaxNumberIsMost(Newer(items, after));
  }

  ghost predicate IdsBounded(server: (nat, nat) -> Response, bound: nat) {
    forall k, a, x :: server(k, a).Page? && x in server(k, a).items ==> NumberOr0(x) <= bound
  }

  lemma {:induction false} EndsWithin(server: (nat, nat) -> Response, bound: nat, call: nat, after: nat)
    requires IdsBounded(server, bound)
    ensures Drift(server, if after <= bound then bound - after + 1 else 1, call, after).Some?
    decreases bound - after
  {
    var page := server(call, after);
    if page.Page? && page.items != [] && Newer(page.items, after) != [] && |page.items| >= PAGE {
      NextCursor(page.items, after, bound);
      var next := MaxNumber(Newer(page.items, after));
      EndsWithin(server, bound, call + 1, next);
      MorePages(server, bound - next + 1, bound - after, call + 1, next);
    }
  }

  /** The cursor climbs, so the loop ends on every server whose ids are
      bounded, honest or not. */
  lemma BoundedEnds(server: (nat, nat) -> Response, bound: nat, call: nat, after: nat)
    requires IdsBounded(server, bound)
    ensures Ends(server, call, after)
  {
    EndsWithin(server, bound, call, after);
  }

  ghost predicate AlwaysFull(server: (nat, nat) -> Response) {
    forall k, a :: server(k, a).Page? && |server(k, a).items| >= PAGE && Newer(server(k, a).items, a) != []
  }

  lemma {:induction false} StillAsking(server: (nat, nat) -> Response, pages: nat, call: nat, after: nat)
    requires AlwaysFull(server)
    ensures Drift(server, pages, call, after) == None
    decreases pages
  {
    if pages > 0 {
      StillAsking(server, pages - 1, call + 1, MaxNumber(Newer(server(call, after).items, after)));
    }
  }

  /** And it never ends on a server that always has a full page of newer
      messages. */
  lemma AlwaysFullNeverEnds(server: (nat, nat) -> Response, call: nat, after: nat)
    requires AlwaysFull(server)
    ensures !Ends(server, call, after)
  {
    forall pages: nat ensures Drift(server, pages, call, after) == None {
      StillAsking(server, pages, call, after);
    }
  }

  /** The oldest messages above the cursor, at most a page of them. */
  ghost predicate IsNextPage(items: seq<Item>, content: set<nat>, after: nat) {
    && EachOnce(items) && |items| <= PAGE
    && (forall n :: n in IdsOf(items) ==> n in content && n > after)
    && (forall n :: n in content && n > after && n !in IdsOf(items) ==>
          |items| == PAGE && forall m :: m in IdsOf(items) ==> m < n)
  }

  /** An honest server of a channel that may grow while it is read: later
      messages have larger ids. */
  ghost predicate HonestForward(server: (nat, nat) -> Response, content: nat -> set<nat>) {
    && (forall k, a :: server(k, a).Page? && IsNextPage(server(k, a).items, content(k), a))
    && (forall k: nat :: Grown(content(k), content(k + 1)))
  }

  predicate Grown(before: set<nat>, after: set<nat>) {
    before <= after && forall m, n :: m in before && n in after - before ==> m < n
  }

  lemma GrownTwice(a: set<nat>, b: set<nat>, c: set<nat>)
    requires Grown(a, b) && Grown(b, c)
    ensures Grown(a, c)
  {
    forall m, n | m in a && n in c - a ensures m < n {
      assert n in b - a || n in c - b;
    }
  }

  lemma {:induction false} GrownSince(server: (nat, nat) -> Response, content: nat -> set<nat>, i: nat, j: nat)
    requires HonestForward(server, content) && i <= j
    ensures Grown(content(i), content(j))
    decreases j
  {
    if i < j {
      GrownSince(server, content, i, j - 1);
      assert Grown(content(j - 1), content(j - 1 + 1));
      GrownTwice(content(i), content(j - 1), content(j));
    }
  }

  function Above(content: set<nat>, after: nat): set<nat> {
    set n | n in content && n > after
  }

  lemma {:induction false} NewerAll(items: seq<Item>, after: nat)
    requires forall x :: x in items ==> NumberOr0(x) > after
    ensures Newer(items, after) == items
  {
    if items != [] {
      assert items == [items[0]] + items[1..] && items[0] in items;
      NewerAll(items[1..], after);
    }
  }

  /** A page of an honest server is new as a whole. */
  lemma PageIsNew(page: seq<Item>, content: set<nat>, after: nat)
    requires IsNextPage(page, content, after)
    ensures Newer(page, after) == page
  {
    forall x | x in page ensures NumberOr0(x) > after {
      assert x.id.value in IdsOf(page);
    }
    NewerAll(page, after);
  }

  lemma LastOfPage(page: seq<Item>) returns (next: nat)
    requires AllIds(page) && page != []
    ensures next == MaxNumber(page) && next in IdsOf(page) && forall n :: n in IdsOf(page) ==> n <= next
  {
    MaxNumberIsMost(page);
    next := MaxNumber(page);
    var x :| x in page && NumberOr0(x) == next;
    assert x.id.value in IdsOf(page);
    forall n | n in IdsOf(page) ensures n <= next {
      var y :| y in page && y.id.Some? && y.id.value == n;
    }
  }

  /** A short page is all there is; a full one leaves what lies beyond its last
      id, however much the channel has grown by then. */
  lemma PageCovers(page: seq<Item>, now: set<nat>, later: set<nat>, after: nat, next: nat)
    requires IsNextPage(page, now, after) && Grown(now, later)
    requires next in IdsOf(page) && forall n :: n in IdsOf(page) ==> n <= next
    ensures |page| < PAGE ==> IdsOf(page) == Above(now, after)
    ensures |page| == PAGE ==> IdsOf(page) + Above(later, next) == Above(later, after) && IdsOf(page) !! Above(later, next)
  {
    forall n | n in Above(now, after) && n !in IdsOf(page) ensures |page| == PAGE && n > next {
    }
    if |page| == PAGE {
      forall n | n in Above(later, after) && n !in IdsOf(page) ensures n > next {
        assert n in now || n in later - now;
      }
    }
  }

  lemma OnePage(server: (nat, nat) -> Response, pages: nat, content: nat -> set<nat>, call: nat, after: nat)
    requires HonestForward(server, content) && Drift(server, pages, call, after).Some?
    requires |server(call, after).items| < PAGE
    ensures Drift(server, pages, call, after).value == Ok(server(call, after).items)
    ensures EachOnce(server(call, after).items) && IdsOf(server(call, after).items) == Above(content(call), after)
  {
    var page := server(call, after).items;
    assert IsNextPage(page, content(call), after);
    PageIsNew(page, content(call), after);
    if page == [] {
      assert IdsOf(page) == {} && Above(content(call), after) == {};
    } else {
      var next := LastOfPage(page);
      PageCovers(page, content(call), content(call), after, next);
    }
  }

  lemma FullPage(server: (nat, nat) -> Response, pages: nat, content: nat -> set<nat>, call: nat, after: nat) returns (next: nat)
    requires HonestForward(server, content) && Drift(server, pages, call, after).Some?
    requires |server(call, after).items| == PAGE
    ensures var page := server(call, after).items;
            && next in IdsOf(page) && (forall n :: n in IdsOf(page) ==> n <= next)
            && pages > 0 && Drift(server, pages - 1, call + 1, next).Some?
            && var rest := Drift(server, pages - 1, call + 1, next).value;
               rest.Ok? ==> Drift(server, pages, call, after).value == Ok(page + rest.value)
  {
    var page := server(call, after).items;
    assert IsNextPage(page, content(call), after);
    PageIsNew(page, content(call), after);
    next := LastOfPage(page);
  }

  /** On an honest server, if the loop ends it returns every message above the
      mark that the channel held at the last request, each once, although the
      channel may have grown during the others. */
  lemma {:induction false} DriftFindsAll(server: (nat, nat) -> Response, pages: nat, content: nat -> set<nat>, call: nat, after: nat)
    returns (last: nat)
    requires HonestForward(server, content) && Drift(server, pages, call, after).Some?
    ensures call <= last < call + pages
    ensures var r := Drift(server, pages, call, after).value;
            r.Ok? && EachOnce(r.value) && IdsOf(r.value) == Above(content(last), after)
    decreases pages
  {
    var page := server(call, after).items;
    assert IsNextPage(page, content(call), after);
    last := call;
    if |page| < PAGE {
      OnePage(server, pages, content, call, after);
    } else {
      var next := FullPage(server, pages, content, call, after);
      last := DriftFindsAll(server, pages - 1, content, call + 1, next);
      GrownSince(server, content, call, last);
      PagesJoin(page, Drift(server, pages - 1, call + 1, next).value.value, content(call), content(last), after, next);
    }
  }

  lemma PagesJoin(page: seq<Item>, rest: seq<Item>, now: set<nat>, later: set<nat>, after: nat, next: nat)
    requires IsNextPage(page, now, after) && |page| == PAGE && Grown(now, later)
    requires next in IdsOf(page) && forall n :: n in IdsOf(page) ==> n <= next
    requires EachOnce(rest) && IdsOf(rest) == Above(later, next)
    ensures EachOnce(page + rest) && IdsOf(page + rest) == Above(later, after)
  {
    PageCovers(page, now, later, after, next);
    EachOnceConcat(page, rest);
  }

  // ---- either loop, request by request ----

  /** Request `k` has cursor `cursors[k]` and gets this page. */
  function PageAt(server: (nat, nat) -> Response, cursors: seq<nat>, k: nat): Response
    requires k < |cursors|
  {
    server(k, cursors[k])
  }

  predicate HasId(page: Response, n: nat) {
    page.Page? && exists x :: x in page.items && x.id == Some(n)
  }

  predicate SeenBefore(server: (nat, nat) -> Response, cursors: seq<nat>, k: nat, n: nat)
    requires k <= |cursors|
  {
    exists j: nat :: j < k && HasId(PageAt(server, cursors, j), n)
  }

  /** The id of an earlier page comes again. */
  ghost predicate Repeats(server: (nat, nat) -> Response, cursors: seq<nat>, k: nat)
    requires k < |cursors|
  {
    exists n: nat :: HasId(PageAt(server, cursors, k), n) && SeenBefore(server, cursors, k, n)
  }

  ghost predicate AllHaveIds(page: Response) {
    page.Page? && forall x :: x in page.items ==> exists n: nat :: x.id == Some(n)
  }

  predicate IsLeastId(page: Response, n: nat) {
    HasId(page, n) && forall m: nat :: m < n ==> !HasId(page, m)
  }

  /** A full page of new ids, and the next request is for what lies below its
      least id, which is below the cursor. */
  ghost predicate GoesOnBelow(server: (nat, nat) -> Response, cursors: seq<nat>, k: nat)
    requires k + 1 < |cursors|
  {
    var page := PageAt(server, cursors, k);
    && AllHaveIds(page) && |page.items| >= 100 && !Repeats(server, cursors, k)
    && IsLeastId(page, cursors[k + 1]) && cursors[k + 1] < cursors[k]
  }

  function Collected(server: (nat, nat) -> Response, cursors: seq<nat>, k: nat): seq<Item>
    requires k <= |cursors|
  {
    if k == 0 then []
    else
      var page := PageAt(server, cursors, k - 1);
      Collected(server, cursors, k - 1) + if page.Page? then page.items else []
  }

  ghost predicate GoesBackward(server: (nat, nat) -> Response, cursors: seq<nat>) {
    cursors != [] && forall k: nat :: k + 1 < |cursors| ==> GoesOnBelow(server, cursors, k)
  }

  /** What the last request settles: the errors in their order, or the items of
      all pages. */
  ghost predicate EndsBackward(server: (nat, nat) -> Response, cursors: seq<nat>, r: Result<seq<Item>>)
    requires cursors != []
  {
    var last := |cursors| - 1;
    var page := PageAt(server, cursors, last);
    if page.Malformed? then r == Err(MalformedPage)
    else if page.items == [] then r == Ok(Collected(server, cursors, last))
    else if !AllHaveIds(page) then r == Err(InvalidIds)
    else if Repeats(server, cursors, last) then r == Err(RepeatedPage)
    else if forall n: nat :: n < cursors[last] ==> !HasId(page, n) then r == Err(CursorDidNotAdvance)
    else |page.items| < 100 && r == Ok(Collected(server, cursors, last + 1))
  }

  lemma IdsAreHad(page: Response)
    requires page.Page?
    ensures AllHaveIds(page) <==> AllIds(page.items)
    ensures forall n: nat :: HasId(page, n) <==> n in IdsOf(page.items)
  {
  }

  lemma LeastIsMin(page: Response, before: nat)
    requires page.Page? && page.items != [] && AllIds(page.items)
    ensures IsLeastId(page, MinId(page.items))
    ensures MinId(page.items) >= before <==> forall n: nat :: n < before ==> !HasId(page, n)
  {
    IdsAreHad(page);
    MinIdIsLeast(page.items);
  }

  /** `seen` holds the ids of the first `k` pages. */
  ghost predicate Remembers(server: (nat, nat) -> Response, cursors: seq<nat>, k: nat, seen: set<nat>)
    requires k <= |cursors|
  {
    forall n: nat :: n in seen <==> SeenBefore(server, cursors, k, n)
  }

  lemma RepeatsIs(server: (nat, nat) -> Response, cursors: seq<nat>, k: nat, seen: set<nat>)
    requires k < |cursors| && Remembers(server, cursors, k, seen) && PageAt(server, cursors, k).Page?
    ensures Repeats(server, cursors, k) <==> seen * IdsOf(PageAt(server, cursors, k).items) != {}
  {
    var page := PageAt(server, cursors, k);
    IdsAreHad(page);
    if seen * IdsOf(page.items) != {} {
      var n: nat :| n in seen * IdsOf(page.items);
      assert HasId(page, n) && SeenBefore(server, cursors, k, n);
    }
    if Repeats(server, cursors, k) {
      var n: nat :| HasId(page, n) && SeenBefore(server, cursors, k, n);
      assert n in seen * IdsOf(page.items);
    }
  }

  lemma RemembersMore(server: (nat, nat) -> Response, cursors: seq<nat>, k: nat, seen: set<nat>, next: nat)
    requires k + 1 == |cursors| && Remembers(server, cursors, k, seen) && PageAt(server, cursors, k).Page?
    ensures Remembers(server, cursors + [next], k + 1, seen + IdsOf(PageAt(server, cursors, k).items))
  {
    var page, more := PageAt(server, cursors, k), cursors + [next];
    IdsAreHad(page);
    assert forall j: nat :: j <= k ==> PageAt(server, more, j) == PageAt(server, cursors, j);
    forall n: nat ensures SeenBefore(server, more, k + 1, n) <==> SeenBefore(server, cursors, k, n) || HasId(page, n) {
      if j: nat :| j < k && HasId(PageAt(server, cursors, j), n) {
        assert HasId(PageAt(server, more, j), n);
      }
      if HasId(page, n) {
        assert HasId(PageAt(server, more, k), n);
      }
      if j: nat :| j < k + 1 && HasId(PageAt(server, more, j), n) {
        assert HasId(PageAt(server, cursors, j), n);
      }
    }
  }

  lemma {:induction false} CollectedPrefix(server: (nat, nat) -> Response, cursors: seq<nat>, more: seq<nat>, k: nat)
    requires k <= |cursors| && cursors <= more
    ensures Collected(server, more, k) == Collected(server, cursors, k)
  {
    if k > 0 {
      CollectedPrefix(server, cursors, more, k - 1);
    }
  }

  lemma SameSeen(server: (nat, nat) -> Response, cursors: seq<nat>, next: nat, k: nat, n: nat)
    requires k <= |cursors|
    ensures SeenBefore(server, cursors + [next], k, n) <==> SeenBefore(server, cursors, k, n)
  {
    var more := cursors + [next];
    if j: nat :| j < k && HasId(PageAt(server, cursors, j), n) {
      assert HasId(PageAt(server, more, j), n);
    }
    if j: nat :| j < k && HasId(PageAt(server, more, j), n) {
      assert HasId(PageAt(server, cursors, j), n);
    }
  }

  lemma SameRepeats(server: (nat, nat) -> Response, cursors: seq<nat>, next: nat, k: nat)
    requires k < |cursors|
    ensures Repeats(server, cursors + [next], k) <==> Repeats(server, cursors, k)
  {
    var more := cursors + [next];
    assert PageAt(server, more, k) == PageAt(server, cursors, k);
    forall n: nat ensures SeenBefore(server, more, k, n) <==> SeenBefore(server, cursors, k, n) {
      SameSeen(server, cursors, next, k, n);
    }
  }

  lemma SameBelow(server: (nat, nat) -> Response, cursors: seq<nat>, next: nat, k: nat)
    requires k + 1 < |cursors| && GoesOnBelow(server, cursors, k)
    ensures GoesOnBelow(server, cursors + [next], k)
  {
    assert PageAt(server, cursors + [next], k) == PageAt(server, cursors, k);
    SameRepeats(server, cursors, next, k);
  }

  lemma GoesOnceMore(server: (nat, nat) -> Response, cursors: seq<nat>, seen: set<nat>)
    requires GoesBackward(server, cursors) && Remembers(server, cursors, |cursors| - 1, seen)
    requires var last := |cursors| - 1;
             var page := PageAt(server, cursors, last);
             && page.Page? && page.items != [] && AllIds(page.items) && |page.items| >= PAGE
             && seen * IdsOf(page.items) == {} && MinId(page.items) < cursors[last]
    ensures GoesBackward(server, cursors + [MinId(PageAt(server, cursors, |cursors| - 1).items)])
  {
    var last := |cursors| - 1;
    var page := PageAt(server, cursors, last);
    var next := MinId(page.items);
    var more := cursors + [next];
    IdsAreHad(page);
    LeastIsMin(page, cursors[last]);
    RepeatsIs(server, cursors, last, seen);
    forall k: nat | k + 1 < |more| ensures GoesOnBelow(server, more, k) {
      if k < last {
        SameBelow(server, cursors, next, k);
      } else {
        LastGoesBelow(server, cursors, next);
      }
    }
  }

  lemma LastGoesBelow(server: (nat, nat) -> Response, cursors: seq<nat>, next: nat)
    requires cursors != []
    requires var last := |cursors| - 1;
             var page := PageAt(server, cursors, last);
             && AllHaveIds(page) && |page.items| >= 100 && !Repeats(server, cursors, last)
             && IsLeastId(page, next) && next < cursors[last]
    ensures GoesOnBelow(server, cursors + [next], |cursors| - 1)
  {
    var last := |cursors| - 1;
    assert PageAt(server, cursors + [next], last) == PageAt(server, cursors, last);
    SameRepeats(server, cursors, next, last);
  }

  lemma LastPageDecides(server: (nat, nat) -> Response, cursors: seq<nat>, seen: set<nat>)
    requires cursors != [] && Remembers(server, cursors, |cursors| - 1, seen)
    requires var last := |cursors| - 1;
             var page := PageAt(server, cursors, last);
             !(page.Page? && page.items != [] && AllIds(page.items) && |page.items| >= PAGE
               && seen * IdsOf(page.items) == {} && MinId(page.items) < cursors[last])
    ensures var last := |cursors| - 1;
            EndsBackward(server, cursors, Joined(Collected(server, cursors, last), Crawl(server, last, cursors[last], seen)))
  {
    var last := |cursors| - 1;
    var page, output := PageAt(server, cursors, last), Collected(server, cursors, last);
    if page.Page? {
      IdsAreHad(page);
      RepeatsIs(server, cursors, last, seen);
      if page.items == [] {
        JoinedEmpty(output, Ok([]));
      } else if AllIds(page.items) {
        LeastIsMin(page, cursors[last]);
      }
    }
  }

  lemma {:induction false} CrawlTraced(server: (nat, nat) -> Response, cursors: seq<nat>, seen: set<nat>) returns (all: seq<nat>)
    requires GoesBackward(server, cursors) && Remembers(server, cursors, |cursors| - 1, seen)
    ensures cursors <= all && GoesBackward(server, all)
    ensures var last := |cursors| - 1;
            EndsBackward(server, all, Joined(Collected(server, cursors, last), Crawl(server, last, cursors[last], seen)))
    decreases cursors[|cursors| - 1]
  {
    var last := |cursors| - 1;
    var page := PageAt(server, cursors, last);
    if page.Page? && page.items != [] && AllIds(page.items) && |page.items| >= PAGE
       && seen * IdsOf(page.items) == {} && MinId(page.items) < cursors[last] {
      var next := MinId(page.items);
      var more := cursors + [next];
      GoesOnceMore(server, cursors, seen);
      RemembersMore(server, cursors, last, seen, next);
      all := CrawlTraced(server, more, seen + IdsOf(page.items));
      CollectedPrefix(server, cursors, more, last + 1);
      JoinedOnce(Collected(server, cursors, last), page.items, Crawl(server, last + 1, next, seen + IdsOf(page.items)));
    } else {
      all := cursors;
      LastPageDecides(server, cursors, seen);
    }
  }

  /** The backward crawl on any server: full pages of new ids, each request
      below the least id before it, until a request ends it. */
  lemma BackwardTraced(server: (nat, nat) -> Response, highWater: nat) returns (cursors: seq<nat>)
    ensures GoesBackward(server, cursors) && cursors[0] == highWater + 1
    ensures EndsBackward(server, cursors, Crawl(server, 0, highWater + 1, {}))
  {
    cursors := CrawlTraced(server, [highWater + 1], {});
    JoinedEmpty([], Crawl(server, 0, highWater + 1, {}));
  }

  // ---- forward ----

  /** A full page with something newer, and the next request is for what lies
      above the largest id of it. */
  ghost predicate GoesOnAbove(server: (nat, nat) -> Response, cursors: seq<nat>, k: nat)
    requires k + 1 < |cursors|
  {
    var page := PageAt(server, cursors, k);
    && page.Page? && |page.items| >= 100 && cursors[k + 1] > cursors[k]
    && HasId(page, cursors[k + 1]) && forall n: nat :: n > cursors[k + 1] ==> !HasId(page, n)
  }

  ghost predicate GoesForward(server: (nat, nat) -> Response, cursors: seq<nat>) {
    cursors != [] && forall k: nat :: k + 1 < |cursors| ==> GoesOnAbove(server, cursors, k)
  }

  /** The items of the first `k` pages that are newer than the cursor they were
      asked for with. */
  function NewOf(server: (nat, nat) -> Response, cursors: seq<nat>, k: nat): seq<Item>
    requires k <= |cursors|
  {
    if k == 0 then []
    else
      var page, after := PageAt(server, cursors, k - 1), cursors[k - 1];
      NewOf(server, cursors, k - 1) + if page.Page? then Filter(page.items, (x: Item) => x.id.Some? && x.id.value > after) else []
  }

  ghost predicate EndsForward(server: (nat, nat) -> Response, cursors: seq<nat>, r: Result<seq<Item>>)
    requires cursors != []
  {
    var last := |cursors| - 1;
    var page := PageAt(server, cursors, last);
    if page.Malformed? then r == Err(MalformedPage)
    else if page.items == [] then r == Ok(NewOf(server, cursors, last))
    else if forall n: nat :: n > cursors[last] ==> !HasId(page, n) then r == Err(CursorDidNotAdvance)
    else |page.items| < 100 && r == Ok(NewOf(server, cursors, last + 1))
  }

  lemma {:induction false} NewerIsFilter(items: seq<Item>, after: nat)
    ensures Newer(items, after) == Filter(items, (x: Item) => x.id.Some? && x.id.value > after)
  {
    if items != [] {
      NewerIsFilter(items[1..], after);
    }
  }

  lemma NewerHasIds(page: Response, after: nat)
    requires page.Page?
    ensures Newer(page.items, after) == [] <==> forall n: nat :: n > after ==> !HasId(page, n)
    ensures Newer(page.items, after) != [] ==>
              var next := MaxNumber(Newer(page.items, after));
              next > after && HasId(page, next) && forall n: nat :: n > next ==> !HasId(page, n)
  {
    var newer := Newer(page.items, after);
    NewerMembers(page.items, after);
    forall n: nat | n > after && HasId(page, n) ensures newer != [] {
      var x :| x in page.items && x.id == Some(n);
      assert x in newer;
    }
    if newer != [] {
      MaxNumberIsMost(newer);
      var x :| x in newer && NumberOr0(x) == MaxNumber(newer);
      assert HasId(page, MaxNumber(newer));
      forall n: nat | HasId(page, n) ensures n <= MaxNumber(newer) {
        var y :| y in page.items && y.id == Some(n);
        assert n > after ==> y in newer;
      }
    }
  }

  lemma {:induction false} NewOfPrefix(server: (nat, nat) -> Response, cursors: seq<nat>, more: seq<nat>, k: nat)
    requires k <= |cursors| && cursors <= more
    ensures NewOf(server, more, k) == NewOf(server, cursors, k)
  {
    if k > 0 {
      NewOfPrefix(server, cursors, more, k - 1);
    }
  }

  lemma NewOfSnoc(server: (nat, nat) -> Response, cursors: seq<nat>, next: nat)
    requires cursors != [] && PageAt(server, cursors, |cursors| - 1).Page?
    ensures var last := |cursors| - 1;
            NewOf(server, cursors + [next], last + 1) == NewOf(server, cursors, last) + Newer(PageAt(server, cursors, last).items, cursors[last])
  {
    var last := |cursors| - 1;
    NewOfPrefix(server, cursors, cursors + [next], last + 1);
    NewerIsFilter(PageAt(server, cursors, last).items, cursors[last]);
  }

  lemma ForwardOnceMore(server: (nat, nat) -> Response, cursors: seq<nat>, next: nat)
    requires GoesForward(server, cursors)
    requires var last := |cursors| - 1;
             var page := PageAt(server, cursors, last);
             && page.Page? && |page.items| >= 100 && next > cursors[last]
             && HasId(page, next) && forall n: nat :: n > next ==> !HasId(page, n)
    ensures GoesForward(server, cursors + [next])
  {
    var last, more := |cursors| - 1, cursors + [next];
    forall k: nat | k + 1 < |more| ensures GoesOnAbove(server, more, k) {
      assert PageAt(server, more, k) == PageAt(server, cursors, k);
      assert k < last ==> GoesOnAbove(server, cursors, k);
    }
  }

  lemma LastRequestDecides(server: (nat, nat) -> Response, pages: nat, cursors: seq<nat>)
    requires cursors != [] && Drift(server, pages, |cursors| - 1, cursors[|cursors| - 1]).Some?
    requires var last := |cursors| - 1;
             var page := PageAt(server, cursors, last);
             !(page.Page? && |page.items| >= PAGE && Newer(page.items, cursors[last]) != [])
    ensures var last := |cursors| - 1;
            EndsForward(server, cursors, Joined(NewOf(server, cursors, last), Drift(server, pages, last, cursors[last]).value))
  {
    var last := |cursors| - 1;
    var page, output := PageAt(server, cursors, last), NewOf(server, cursors, last);
    if page.Page? {
      NewerHasIds(page, cursors[last]);
      NewerIsFilter(page.items, cursors[last]);
      if page.items == [] {
        JoinedEmpty(output, Ok([]));
      }
    }
  }

  lemma {:induction false} DriftTraced(server: (nat, nat) -> Response, pages: nat, cursors: seq<nat>) returns (all: seq<nat>)
    requires GoesForward(server, cursors) && Drift(server, pages, |cursors| - 1, cursors[|cursors| - 1]).Some?
    ensures cursors <= all && GoesForward(server, all)
    ensures var last := |cursors| - 1;
            EndsForward(server, all, Joined(NewOf(server, cursors, last), Drift(server, pages, last, cursors[last]).value))
    decreases pages
  {
    var last := |cursors| - 1;
    var page := PageAt(server, cursors, last);
    if page.Page? && |page.items| >= PAGE && Newer(page.items, cursors[last]) != [] {
      var newRows := Newer(page.items, cursors[last]);
      var more := cursors + [MaxNumber(newRows)];
      NewerHasIds(page, cursors[last]);
      DriftUnfold(server, pages, last, cursors[last]);
      ForwardOnceMore(server, cursors, MaxNumber(newRows));
      all := DriftTraced(server, pages - 1, more);
      NewOfSnoc(server, cursors, MaxNumber(newRows));
      JoinedOnce(NewOf(server, cursors, last), newRows, Drift(server, pages - 1, last + 1, MaxNumber(newRows)).value);
    } else {
      all := cursors;
      LastRequestDecides(server, pages, cursors);
    }
  }

  /** The forward loop on any server on which it ends: full pages, each
      request above the largest id before it, and the newer items of every
      page, until a request ends it. */
  lemma ForwardTraced(server: (nat, nat) -> Response, after: nat, r: Result<seq<Item>>) returns (cursors: seq<nat>)
    requires EndsWith(server, 0, after, r)
    ensures GoesForward(server, cursors) && cursors[0] == after && EndsForward(server, cursors, r)
  {
    var pages: nat :| Drift(server, pages, 0, after) == Some(r);
    cursors := DriftTraced(server, pages, [after]);
    JoinedEmpty([], r);
  }
}
