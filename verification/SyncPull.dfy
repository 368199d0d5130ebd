/**
 * Paged pulling: the adapter's filter-sort-take page, the Worker's fetch-one-more page, and the client's loop
 * that applies page after page and moves the cursor.
 */
module SyncPull {
  import opened Text
  import opened Protocol
  import opened Storage
  import opened SyncServer
  import opened Conflicts

  // ---------------------------------------------------------------- the sorted listing

  ghost predicate Sorted(xs: seq<ObjectChange>) {
    forall i, j :: 0 <= i < j < |xs| ==> xs[i].serverSeq < xs[j].serverSeq
  }

  /** No two objects share a server sequence. */
  ghost predicate SeqsDistinct(objects: map<string, ObjectChange>) {
    forall a, b :: a in objects && b in objects && a != b ==> objects[a].serverSeq != objects[b].serverSeq
  }

  /** `xs` lists, by ascending sequence, exactly the objects changed after `after`. */
  ghost predicate IsListing(objects: map<string, ObjectChange>, after: nat, xs: seq<ObjectChange>) {
    && Sorted(xs)
    && (forall c :: c in xs ==> c.serverSeq > after && exists id :: id in objects && objects[id] == c)
    && (forall id :: id in objects && objects[id].serverSeq > after ==> objects[id] in xs)
  }

  lemma FirstIsLeast(xs: seq<ObjectChange>, c: ObjectChange)
    requires Sorted(xs) && c in xs
    ensures xs[0].serverSeq <= c.serverSeq && (c.serverSeq <= xs[0].serverSeq ==> c == xs[0])
  {}

  lemma {:induction false} SortedIsUnique(xs: seq<ObjectChange>, ys: seq<ObjectChange>)
    requires Sorted(xs) && Sorted(ys)
    requires forall c :: c in xs <==> c in ys
    ensures xs == ys
    decreases |xs|
  {
    if xs != [] {
      assert xs[0] in xs;
    }
    if ys != [] {
      assert ys[0] in ys;
    }
    if xs != [] && ys != [] {
      FirstIsLeast(ys, xs[0]);
      FirstIsLeast(xs, ys[0]);
      forall c ensures c in xs[1..] <==> c in ys[1..] {
        TailMembers(xs, c);
        TailMembers(ys, c);
      }
      SortedIsUnique(xs[1..], ys[1..]);
      assert xs == [xs[0]] + xs[1..] && ys == [ys[0]] + ys[1..];
    }
  }

  lemma TailMembers(xs: seq<ObjectChange>, c: ObjectChange)
    requires Sorted(xs) && xs != []
    ensures c in xs[1..] <==> c in xs && c != xs[0]
  {
    assert xs == [xs[0]] + xs[1..];
  }

  lemma ListingIsUnique(objects: map<string, ObjectChange>, after: nat, xs: seq<ObjectChange>, ys: seq<ObjectChange>)
    requires IsListing(objects, after, xs) && IsListing(objects, after, ys)
    ensures xs == ys
  {
    SortedIsUnique(xs, ys);
  }

  function Insert(xs: seq<ObjectChange>, c: ObjectChange): seq<ObjectChange> {
    if xs == [] then [c]
    else if c.serverSeq <= xs[0].serverSeq then [c] + xs
    else [xs[0]] + Insert(xs[1..], c)
  }

  lemma {:induction false} InsertMembers(xs: seq<ObjectChange>, c: ObjectChange)
    ensures forall d :: d in Insert(xs, c) <==> d in xs || d == c
  {
    if xs != [] && c.serverSeq > xs[0].serverSeq {
      InsertMembers(xs[1..], c);
      assert xs == [xs[0]] + xs[1..];
    }
  }

  lemma {:induction false} InsertStaysSorted(xs: seq<ObjectChange>, c: ObjectChange)
    requires Sorted(xs) && forall d :: d in xs ==> d.serverSeq != c.serverSeq
    ensures Sorted(Insert(xs, c))
  {
    if xs != [] && c.serverSeq > xs[0].serverSeq {
      assert forall d :: d in xs[1..] ==> d in xs;
      InsertStaysSorted(xs[1..], c);
      InsertMembers(xs[1..], c);
      var tail := Insert(xs[1..], c);
      forall j | 0 <= j < |tail| ensures xs[0].serverSeq < tail[j].serverSeq {
        assert tail[j] in tail;
        if tail[j] != c {
          var k :| 0 <= k < |xs[1..]| && xs[1..][k] == tail[j];
          assert xs[k + 1] == tail[j];
        }
      }
    } else if xs != [] {
      assert xs[0] in xs;
    }
  }

  /** Filter by sequence and sort: the adapter's collected, sorted values. */
  method SortedChanges(objects: map<string, ObjectChange>, after: nat) returns (xs: seq<ObjectChange>)
    requires SeqsDistinct(objects)
    ensures IsListing(objects, after, xs)
  {
    xs := [];
    var keys := objects.Keys;
    while keys != {}
      invariant keys <= objects.Keys
      invariant Sorted(xs)
      invariant forall c :: c in xs ==>
                  c.serverSeq > after && exists id :: id in objects && id !in keys && objects[id] == c
      invariant forall id :: id in objects && id !in keys && objects[id].serverSeq > after ==> objects[id] in xs
      decreases keys
    {
      var id :| id in keys;
      if objects[id].serverSeq > after {
        InsertMembers(xs, objects[id]);
        InsertStaysSorted(xs, objects[id]);
        xs := Insert(xs, objects[id]);
      }
      keys := keys - {id};
    }
  }

  // ---------------------------------------------------------------- pages

  datatype Page = Page(changes: seq<ObjectChange>, nextCursor: nat, hasMore: bool)

  function Take(xs: seq<ObjectChange>, n: nat): seq<ObjectChange> {
    if |xs| <= n then xs else xs[..n]
  }

  function LastSeq(xs: seq<ObjectChange>, after: nat): nat {
    if xs == [] then after else xs[|xs| - 1].serverSeq
  }

  function PageOf(listing: seq<ObjectChange>, after: nat, limit: nat): Page {
    Page(Take(listing, limit), LastSeq(Take(listing, limit), after), |listing| > limit)
  }

  ghost predicate IsPage(objects: map<string, ObjectChange>, after: nat, limit: nat, page: Page) {
    exists xs :: IsListing(objects, after, xs) && page == PageOf(xs, after, limit)
  }

  const DEFAULT_LIMIT: nat := 50
  const MAX_LIMIT: nat := 500
  const MAX_CURSOR: nat := 9_007_199_254_740_991

  method PullChanges(adapter: Adapter, after: nat, limit: Option<nat>) returns (outcome: Outcome<Page>)
    requires SeqsDistinct(adapter.objects)
    modifies adapter
    ensures adapter.View() == Next(old(adapter.View()), PullEvent)
    ensures outcome.Err? <==> old(adapter.failNext).Some?
    ensures outcome.Ok? ==>
              IsPage(adapter.objects, after, if limit.Some? then limit.value else DEFAULT_LIMIT, outcome.value)
  {
    if adapter.failNext.Some? {
      outcome := Err(adapter.failNext.value);
      adapter.failNext := None;
      return;
    }
    var matching := SortedChanges(adapter.objects, after);
    var lim := if limit.Some? then limit.value else DEFAULT_LIMIT;
    var hasMore := |matching| > lim;
    var changes := Take(matching, lim);
    outcome := Ok(Page(changes, LastSeq(changes, after), hasMore));
    assert outcome.value == PageOf(matching, after, lim);
  }

  // ---------------------------------------------------------------- the Worker's page

  /** `split_once('=')`, with an empty value when there is no `=`. */
  function KeyValue(pair: string): (string, string) {
    if pair == "" then ("", "")
    else if pair[0] == '=' then ("", pair[1..])
    else var (k, v) := KeyValue(pair[1..]); ([pair[0]] + k, v)
  }

  function Digits(s: string, acc: nat): Option<nat>
    decreases |s|
  {
    if s == "" then Some(acc)
    else if '0' <= s[0] <= '9' then Digits(s[1..], 10 * acc + (s[0] as int - '0' as int))
    else None
  }

  /** Rust's unsigned parse: an optional plus sign, at least one digit, no overflow past `max`. */
  function ParseUnsigned(s: string, max: nat): Option<nat> {
    var digits := if s != "" && s[0] == '+' then s[1..] else s;
    var r := if digits == "" then None else Digits(digits, 0);
    if r.Some? && r.value > max then None else r
  }

  const U32_MAX: nat := 0xFFFF_FFFF
  const U64_MAX: nat := 0xFFFF_FFFF_FFFF_FFFF

  function Clamp(limit: nat): (r: nat)
    ensures 1 <= r <= MAX_LIMIT
  {
    if limit == 0 then DEFAULT_LIMIT else if limit < MAX_LIMIT then limit else MAX_LIMIT
  }

  predicate IsCursorKey(k: string) {
    k == "after" || k == "since" || k == "cursor"
  }

  /** Cursor and limit after reading one query pair; `None` if its value does not parse. */
  function ReadPair(pair: string, after: nat, limit: nat): Option<(nat, nat)> {
    var (k, v) := KeyValue(pair);
    if IsCursorKey(k) then
      var n := ParseUnsigned(v, U64_MAX);
      if n.Some? then Some((n.value, limit)) else None
    else if k == "limit" then
      var n := ParseUnsigned(v, U32_MAX);
      if n.Some? then Some((after, Clamp(n.value))) else None
    else Some((after, limit))
  }

  /** Later pairs override earlier ones; one bad value refuses the whole query. */
  function ReadPairs(pairs: seq<string>, after: nat, limit: nat): Option<(nat, nat)>
    decreases |pairs|
  {
    if pairs == [] then Some((after, limit))
    else
      var r := ReadPair(pairs[0], after, limit);
      if r.None? then None else ReadPairs(pairs[1..], r.value.0, r.value.1)
  }

  function ReadQuery(query: Option<string>): Option<(nat, nat)> {
    var r := if query.Some? then ReadPairs(Split(query.value, '&'), 0, DEFAULT_LIMIT) else Some((0, DEFAULT_LIMIT));
    if r.Some? && r.value.0 > MAX_CURSOR then None else r
  }

  lemma {:induction false} LimitStaysClamped(pairs: seq<string>, after: nat, limit: nat)
    requires 1 <= limit <= MAX_LIMIT
    ensures var r := ReadPairs(pairs, after, limit); r.Some? ==> 1 <= r.value.1 <= MAX_LIMIT
    decreases |pairs|
  {
    if pairs != [] {
      var r := ReadPair(pairs[0], after, limit);
      if r.Some? {
        LimitStaysClamped(pairs[1..], r.value.0, r.value.1);
      }
    }
  }

  /** `SELECT ... WHERE server_seq > after ORDER BY server_seq LIMIT n`. */
  method SelectChanges(objects: map<string, ObjectChange>, after: nat, n: nat) returns (rows: seq<ObjectChange>)
    requires SeqsDistinct(objects)
    ensures exists xs :: IsListing(objects, after, xs) && rows == Take(xs, n)
  {
    var all := SortedChanges(objects, after);
    rows := Take(all, n);
  }

  /**
   * The Worker's pull: a query it accepts asks for a limit in 1..500, and fetching one row more than the limit
   * gives the very page the adapter computes by filtering, sorting and taking everything.
   */
  method WorkerPull(query: Option<string>, objects: map<string, ObjectChange>) returns (r: Option<Page>)
    requires SeqsDistinct(objects)
    ensures r.Some? <==> ReadQuery(query).Some?
    ensures r.Some? ==> var (after, limit) := ReadQuery(query).value;
                        && 1 <= limit <= MAX_LIMIT && after <= MAX_CURSOR
                        && IsPage(objects, after, limit, r.value)
  {
    var after: nat, limit: nat := 0, DEFAULT_LIMIT;
    if query.Some? {
      var pairs := Split(query.value, '&');
      var i := 0;
      LimitStaysClamped(pairs, 0, DEFAULT_LIMIT);
      while i < |pairs|
        invariant 0 <= i <= |pairs|
        invariant ReadPairs(pairs, 0, DEFAULT_LIMIT) == ReadPairs(pairs[i..], after, limit)
      {
        var (k, v) := KeyValue(pairs[i]);
        assert pairs[i..][1..] == pairs[i + 1..];
        if IsCursorKey(k) {
          var n := ParseUnsigned(v, U64_MAX);
          if n.None? {
            return None;
          }
          after := n.value;
        } else if k == "limit" {
          var n := ParseUnsigned(v, U32_MAX);
          if n.None? {
            return None;
          }
          limit := Clamp(n.value);
        }
        i := i + 1;
      }
    }
    if after > MAX_CURSOR {
      return None;
    }
    var rows := SelectChanges(objects, after, limit + 1);
    ghost var xs :| IsListing(objects, after, xs) && rows == Take(xs, limit + 1);
    var hasMore := |rows| > limit;
    var changes := Take(rows, limit);
    r := Some(Page(changes, LastSeq(changes, after), hasMore));
    OneMoreRowSuffices(xs, limit);
    assert r.value == PageOf(xs, after, limit);
  }

  lemma OneMoreRowSuffices(xs: seq<ObjectChange>, limit: nat)
    ensures Take(Take(xs, limit + 1), limit) == Take(xs, limit)
    ensures |Take(xs, limit + 1)| > limit <==> |xs| > limit
  {}

  lemma PagesAgree(objects: map<string, ObjectChange>, after: nat, limit: nat, a: Page, b: Page)
    requires IsPage(objects, after, limit, a) && IsPage(objects, after, limit, b)
    ensures a == b
  {
    var xs :| IsListing(objects, after, xs) && a == PageOf(xs, after, limit);
    var ys :| IsListing(objects, after, ys) && b == PageOf(ys, after, limit);
    ListingIsUnique(objects, after, xs, ys);
  }

  // ---------------------------------------------------------------- applying changes

  /** What every reachable server keeps: sequences are distinct, positive and at most the counter. */
  ghost predicate SeqsFit(server: Server) {
    && SeqsDistinct(server.objects)
    && forall id :: id in server.objects ==>
         server.objects[id].objectId == id && 1 <= server.objects[id].serverSeq <= server.counter
  }

  lemma ExplainedSeqsFit(server: Server, log: seq<Entry>)
    requires Explains(server, log)
    ensures SeqsFit(server)
  {
    forall id | id in server.objects
      ensures server.objects[id].objectId == id && 1 <= server.objects[id].serverSeq <= server.counter
    {
      assert ObjectFits(server.objects, log, id);
    }
    forall a, b | a in server.objects && b in server.objects && a != b
      ensures server.objects[a].serverSeq != server.objects[b].serverSeq
    {
      assert ObjectFits(server.objects, log, a) && ObjectFits(server.objects, log, b);
    }
  }

  function StoredFrom(c: ObjectChange, now: string): StoredObject {
    StoredObject(c.objectId, c.objectKind, c.revision, c.serverSeq, c.isDeleted, c.envelope, now)
  }

  /** One change applied: store the object, then advance the cursor; changes at or below it are ignored. */
  function Applied(s: Store, c: ObjectChange, now: string): Store {
    if c.serverSeq <= s.cursor then s else PutObject(s, StoredFrom(c, now)).(cursor := c.serverSeq)
  }

  method ApplyChange(st: MemoryStorage, c: ObjectChange, now: string)
    requires st.Valid()
    modifies st
    ensures st.Valid() && st.View() == Applied(old(st.View()), c, now)
  {
    if c.serverSeq > st.cursor {
      st.Put(StoredFrom(c, now));
      st.SetCursor(c.serverSeq);
    }
  }

  /** The pages fetched and not yet applied come from the server. */
  ghost predicate InboxKnown(server: Server, cursor: nat, inbox: seq<ObjectChange>) {
    forall c :: c in inbox ==>
      && cursor < c.serverSeq <= server.counter
      && c.objectId in server.objects && c.serverSeq <= server.objects[c.objectId].serverSeq
  }

  /** What the server still holds in the range of the page is in it. */
  ghost predicate InboxCovers(server: Server, cursor: nat, inbox: seq<ObjectChange>) {
    forall id :: id in server.objects && cursor < server.objects[id].serverSeq <= LastSeq(inbox, cursor)
      ==> server.objects[id] in inbox
  }

  ghost predicate InboxFits(server: Server, cursor: nat, inbox: seq<ObjectChange>) {
    Sorted(inbox) && InboxKnown(server, cursor, inbox) && InboxCovers(server, cursor, inbox)
  }

  /** What a server event leaves of an earlier state: objects stay, and a changed one is beyond the old counter. */
  ghost predicate Grown(a: Server, b: Server) {
    && a.counter <= b.counter
    && (forall id :: id in a.objects ==> id in b.objects && a.objects[id].serverSeq <= b.objects[id].serverSeq)
    && (forall id :: id in b.objects && b.objects[id].serverSeq <= a.counter ==>
          id in a.objects && a.objects[id] == b.objects[id])
  }

  /** An accepted push writes one object, with the next sequence. */
  lemma NextSeqFits(a: Server, b: Server, c: ObjectChange)
    requires SeqsFit(a) && b.counter == a.counter + 1 == c.serverSeq && b.objects == a.objects[c.objectId := c]
    ensures SeqsDistinct(b.objects)
    ensures Grown(a, b)
  {
    forall x, y | x in b.objects && y in b.objects && x != y ensures b.objects[x].serverSeq != b.objects[y].serverSeq {
      assert x != c.objectId ==> b.objects[x] == a.objects[x];
      assert y != c.objectId ==> b.objects[y] == a.objects[y];
    }
  }

  lemma ServerEventKeepsSeqs(server: Server, e: Event)
    requires SeqsFit(server)
    ensures SeqsFit(Next(server, e)) && Grown(server, Next(server, e))
  {
    if e.PushEvent? && IsFresh(server, e.req) {
      var server' := Next(server, e);
      NextSeqFits(server, server', server'.objects[e.req.objectId]);
    } else {
      assert Next(server, e).objects == server.objects && Next(server, e).counter == server.counter;
    }
  }

  lemma GrowthKeepsInbox(a: Server, b: Server, cursor: nat, inbox: seq<ObjectChange>)
    requires Grown(a, b) && InboxFits(a, cursor, inbox) && LastSeq(inbox, cursor) <= a.counter
    ensures InboxFits(b, cursor, inbox)
  {
    assert InboxKnown(b, cursor, inbox);
  }

  lemma FetchedCovers(server: Server, cursor: nat, listing: seq<ObjectChange>, limit: nat)
    requires IsListing(server.objects, cursor, listing)
    ensures InboxCovers(server, cursor, Take(listing, limit))
  {
    var page := Take(listing, limit);
    forall id | id in server.objects && cursor < server.objects[id].serverSeq <= LastSeq(page, cursor)
      ensures server.objects[id] in page
    {
      assert server.objects[id] in listing;
      var i :| 0 <= i < |listing| && listing[i] == server.objects[id];
      SmallSeqsComeEarly(listing, |page|, i);
      assert page[i] == listing[i];
    }
  }

  lemma FetchedKnown(server: Server, cursor: nat, listing: seq<ObjectChange>, limit: nat)
    requires SeqsFit(server) && IsListing(server.objects, cursor, listing)
    ensures InboxKnown(server, cursor, Take(listing, limit))
  {
    forall c | c in Take(listing, limit)
      ensures cursor < c.serverSeq <= server.counter && c.objectId in server.objects && server.objects[c.objectId] == c
    {
      assert c in listing;
    }
  }

  lemma FetchedPageFits(server: Server, cursor: nat, listing: seq<ObjectChange>, limit: nat)
    requires SeqsFit(server) && IsListing(server.objects, cursor, listing)
    ensures InboxFits(server, cursor, Take(listing, limit))
  {
    FetchedCovers(server, cursor, listing, limit);
    FetchedKnown(server, cursor, listing, limit);
    assert Sorted(Take(listing, limit));
  }

  lemma SmallSeqsComeEarly(listing: seq<ObjectChange>, n: nat, i: nat)
    requires Sorted(listing) && 0 < n <= |listing| && i < |listing|
    requires listing[i].serverSeq <= listing[n - 1].serverSeq
    ensures i < n
  {}

  lemma ApplyKeepsCover(server: Server, cursor: nat, c: ObjectChange, rest: seq<ObjectChange>)
    requires InboxCovers(server, cursor, [c] + rest) && cursor <= c.serverSeq
    ensures InboxCovers(server, c.serverSeq, rest)
  {
    forall id | id in server.objects && c.serverSeq < server.objects[id].serverSeq <= LastSeq(rest, c.serverSeq)
      ensures server.objects[id] in rest
    {
      assert server.objects[id] in [c] + rest;
    }
  }

  lemma ApplyKeepsSorted(c: ObjectChange, rest: seq<ObjectChange>)
    requires Sorted([c] + rest)
    ensures Sorted(rest) && forall i :: 0 <= i < |rest| ==> c.serverSeq < rest[i].serverSeq
  {
    var all := [c] + rest;
    forall i | 0 <= i < |rest| ensures c.serverSeq < rest[i].serverSeq {
      assert all[0].serverSeq < all[i + 1].serverSeq;
    }
    forall i, j | 0 <= i < j < |rest| ensures rest[i].serverSeq < rest[j].serverSeq {
      assert all[i + 1].serverSeq < all[j + 1].serverSeq;
    }
  }

  lemma ApplyKeepsKnown(server: Server, cursor: nat, c: ObjectChange, rest: seq<ObjectChange>)
    requires InboxKnown(server, cursor, [c] + rest) && forall i :: 0 <= i < |rest| ==> c.serverSeq < rest[i].serverSeq
    ensures InboxKnown(server, c.serverSeq, rest) && cursor < c.serverSeq
  {
    assert c in [c] + rest;
    forall d | d in rest
      ensures c.serverSeq < d.serverSeq <= server.counter
              && d.objectId in server.objects && d.serverSeq <= server.objects[d.objectId].serverSeq
    {
      assert d in [c] + rest;
    }
  }

  lemma ApplyKeepsInbox(server: Server, cursor: nat, inbox: seq<ObjectChange>)
    requires InboxFits(server, cursor, inbox) && inbox != []
    ensures InboxFits(server, inbox[0].serverSeq, inbox[1..])
  {
    var c, rest := inbox[0], inbox[1..];
    assert inbox == [c] + rest;
    ApplyKeepsSorted(c, rest);
    ApplyKeepsKnown(server, cursor, c, rest);
    ApplyKeepsCover(server, cursor, c, rest);
  }

  // ---------------------------------------------------------------- a full pull on a quiet server

  /** What is fetched is what the server holds. */
  ghost predicate InboxCurrent(server: Server, inbox: seq<ObjectChange>) {
    forall c :: c in inbox ==> c.objectId in server.objects && server.objects[c.objectId] == c
  }

  /** Object `id` after a pull that moved the cursor: the server's version if it lies in between, else as before. */
  ghost predicate PulledOne(server: Server, s: Store, s': Store, id: string, now: string) {
    if id in server.objects && s.cursor < server.objects[id].serverSeq <= s'.cursor then
      id in s'.objects && s'.objects[id] == StoredFrom(server.objects[id], now)
    else
      (id in s'.objects <==> id in s.objects) && (id in s.objects ==> s'.objects[id] == s.objects[id])
  }

  ghost predicate SameBesides(s: Store, s': Store) {
    s'.mutations == s.mutations && s'.bases == s.bases && s'.conflicts == s.conflicts
  }

  /** The whole effect of pulling: exactly the versions between the two cursors are stored, nothing else changes. */
  ghost predicate PulledTo(server: Server, s: Store, s': Store, now: string) {
    && s.cursor <= s'.cursor && SameBesides(s, s')
    && forall id :: PulledOne(server, s, s', id, now)
  }

  /** Nothing on the server lies beyond the cursor. */
  ghost predicate CaughtUp(server: Server, cursor: nat) {
    forall id :: id in server.objects ==> server.objects[id].serverSeq <= cursor
  }

  lemma NothingPulled(server: Server, s: Store, now: string)
    ensures PulledTo(server, s, s, now)
  {}

  lemma PulledFurther(server: Server, s: Store, s1: Store, s2: Store, now: string)
    requires PulledTo(server, s, s1, now) && PulledTo(server, s1, s2, now)
    ensures PulledTo(server, s, s2, now)
  {
    forall id ensures PulledOne(server, s, s2, id, now) {
      assert PulledOne(server, s, s1, id, now) && PulledOne(server, s1, s2, id, now);
    }
  }

  /** Between the cursor and the first change of the page there is only that change. */
  lemma FirstIsNext(server: Server, cursor: nat, inbox: seq<ObjectChange>, id: string)
    requires InboxFits(server, cursor, inbox) && inbox != [] && id in server.objects
    requires cursor < server.objects[id].serverSeq <= inbox[0].serverSeq
    ensures server.objects[id] == inbox[0]
  {
    assert inbox[|inbox| - 1].serverSeq >= inbox[0].serverSeq;
    assert server.objects[id] in inbox;
    FirstIsLeast(inbox, server.objects[id]);
  }

  lemma ApplyPulls(server: Server, s: Store, inbox: seq<ObjectChange>, now: string)
    requires SeqsFit(server) && InboxFits(server, s.cursor, inbox) && InboxCurrent(server, inbox) && inbox != []
    ensures PulledTo(server, s, Applied(s, inbox[0], now), now)
    ensures Applied(s, inbox[0], now).cursor == inbox[0].serverSeq > s.cursor
  {
    var c := inbox[0];
    assert c in inbox;
    var s' := Applied(s, c, now);
    forall id ensures PulledOne(server, s, s', id, now) {
      if id in server.objects && s.cursor < server.objects[id].serverSeq <= s'.cursor {
        FirstIsNext(server, s.cursor, inbox, id);
      }
    }
  }

  lemma RestIsCurrent(server: Server, inbox: seq<ObjectChange>)
    requires InboxCurrent(server, inbox) && inbox != []
    ensures InboxCurrent(server, inbox[1..])
  {
    assert forall c :: c in inbox[1..] ==> c in inbox;
  }

  /** Applies one fetched page, change by change. */
  method ApplyPage(ghost server: Server, st: MemoryStorage, changes: seq<ObjectChange>, current: nat, now: string)
    returns (current': nat)
    requires st.Valid() && SeqsFit(server) && current == st.cursor
    requires InboxFits(server, st.cursor, changes) && InboxCurrent(server, changes)
    modifies st
    ensures st.Valid() && PulledTo(server, old(st.View()), st.View(), now)
    ensures current' == st.cursor == LastSeq(changes, old(st.cursor))
  {
    current' := current;
    var i := 0;
    NothingPulled(server, st.View(), now);
    while i < |changes|
      invariant 0 <= i <= |changes|
      invariant st.Valid() && PulledTo(server, old(st.View()), st.View(), now)
      invariant current' == st.cursor == LastSeq(changes[..i], current)
      invariant InboxFits(server, st.cursor, changes[i..]) && InboxCurrent(server, changes[i..])
    {
      ghost var s := st.View();
      assert changes[i] in changes[i..];
      ApplyPulls(server, s, changes[i..], now);
      ApplyKeepsInbox(server, st.cursor, changes[i..]);
      RestIsCurrent(server, changes[i..]);
      assert changes[i..][1..] == changes[i + 1..];
      if changes[i].serverSeq <= current' && current' > 0 {
        assert false;
      }
      ApplyChange(st, changes[i], now);
      PulledFurther(server, old(st.View()), s, st.View(), now);
      current' := changes[i].serverSeq;
      i := i + 1;
    }
    assert changes[..i] == changes;
  }

  lemma PageFits(server: Server, cursor: nat, limit: nat, page: Page)
    requires SeqsFit(server) && IsPage(server.objects, cursor, limit, page)
    ensures InboxFits(server, cursor, page.changes) && InboxCurrent(server, page.changes)
    ensures page.changes != [] ==> cursor < LastSeq(page.changes, cursor) <= server.counter
    ensures page.changes == [] && limit >= 1 ==> CaughtUp(server, cursor)
    ensures !page.hasMore ==> CaughtUp(server, LastSeq(page.changes, cursor))
  {
    var xs :| IsListing(server.objects, cursor, xs) && page == PageOf(xs, cursor, limit);
    FetchedPageFits(server, cursor, xs, limit);
    FetchedIsCurrent(server, cursor, xs, limit);
    if page.changes != [] {
      assert page.changes[|page.changes| - 1] in page.changes;
    }
    if !page.hasMore {
      WholeListingCatchesUp(server, cursor, xs);
    }
  }

  lemma FetchedIsCurrent(server: Server, cursor: nat, xs: seq<ObjectChange>, limit: nat)
    requires SeqsFit(server) && IsListing(server.objects, cursor, xs)
    ensures InboxCurrent(server, Take(xs, limit))
  {
    forall c | c in Take(xs, limit) ensures c.objectId in server.objects && server.objects[c.objectId] == c {
      assert c in xs;
    }
  }

  lemma WholeListingCatchesUp(server: Server, cursor: nat, xs: seq<ObjectChange>)
    requires IsListing(server.objects, cursor, xs)
    ensures CaughtUp(server, LastSeq(xs, cursor))
  {
    forall id | id in server.objects ensures server.objects[id].serverSeq <= LastSeq(xs, cursor) {
      if server.objects[id].serverSeq > cursor {
        assert server.objects[id] in xs;
        var i :| 0 <= i < |xs| && xs[i] == server.objects[id];
        assert xs[i].serverSeq <= xs[|xs| - 1].serverSeq;
      } else if xs != [] {
        assert xs[|xs| - 1] in xs;
      }
    }
  }

  /** Fetches one page after `current` and applies it; `last` if the loop stops after it. */
  method PullPage(adapter: Adapter, st: MemoryStorage, current: nat, limit: Option<nat>, now: string)
    returns (outcome: Outcome<bool>)
    requires st.Valid() && SeqsFit(adapter.View()) && current == st.cursor
    modifies adapter, st
    ensures st.Valid() && PulledTo(adapter.View(), old(st.View()), st.View(), now)
    ensures adapter.View() == Next(old(adapter.View()), PullEvent)
    ensures outcome.Err? ==> old(adapter.failNext).Some?
    ensures outcome.Ok? && !outcome.value ==> old(st.cursor) < st.cursor <= adapter.counter
    ensures outcome.Ok? && outcome.value && (limit.Some? ==> limit.value >= 1) ==> CaughtUp(adapter.View(), st.cursor)
  {
    var resp := PullChanges(adapter, current, limit);
    NothingPulled(adapter.View(), st.View(), now);
    if resp.Err? {
      return Err(resp.error);
    }
    var page := resp.value;
    PageFits(adapter.View(), st.cursor, if limit.Some? then limit.value else DEFAULT_LIMIT, page);
    if page.changes == [] {
      return Ok(true);
    }
    var _ := ApplyPage(adapter.View(), st, page.changes, current, now);
    outcome := Ok(!page.hasMore);
  }

  /**
   * The pull loop on a quiet server: it terminates, and its effect is exactly to store the server's versions
   * between the old and the new cursor; with no page bound and a limit of at least one nothing is left beyond it.
   */
  method PullRemoteChanges(adapter: Adapter, st: MemoryStorage, limit: Option<nat>, maxPages: Option<nat>, now: string)
    returns (outcome: Outcome<nat>)
    requires st.Valid() && SeqsFit(adapter.View())
    modifies adapter, st
    ensures st.Valid() && PulledTo(adapter.View(), old(st.View()), st.View(), now)
    ensures adapter.objects == old(adapter.objects) && adapter.counter == old(adapter.counter)
            && adapter.processed == old(adapter.processed)
    ensures outcome.Ok? ==> outcome.value == st.cursor
    ensures outcome.Err? ==> old(adapter.failNext).Some?
    ensures outcome.Ok? && maxPages.None? && (limit.Some? ==> limit.value >= 1) ==> CaughtUp(adapter.View(), st.cursor)
  {
    var pages := 0;
    NothingPulled(adapter.View(), st.View(), now);
    while true
      invariant st.Valid() && SeqsFit(adapter.View()) && PulledTo(adapter.View(), old(st.View()), st.View(), now)
      invariant adapter.objects == old(adapter.objects) && adapter.counter == old(adapter.counter)
      invariant adapter.processed == old(adapter.processed)
      invariant old(adapter.failNext).None? ==> adapter.failNext.None?
      decreases adapter.counter - st.cursor
    {
      if maxPages.Some? && pages >= maxPages.value {
        return Ok(st.cursor);
      }
      ghost var server, s := adapter.View(), st.View();
      var last := PullPage(adapter, st, st.cursor, limit, now);
      SamePull(server, adapter.View(), old(st.View()), s, now);
      PulledFurther(adapter.View(), old(st.View()), s, st.View(), now);
      if last.Err? {
        return Err(last.error);
      }
      pages := pages + 1;
      if last.value {
        return Ok(st.cursor);
      }
    }
  }

  /** What a pull did depends on the server's objects only. */
  lemma SamePull(a: Server, b: Server, s: Store, s': Store, now: string)
    requires a.objects == b.objects && PulledTo(a, s, s', now)
    ensures PulledTo(b, s, s', now)
  {
    forall id ensures PulledOne(b, s, s', id, now) {
      assert PulledOne(a, s, s', id, now);
    }
  }

  /** From an empty replica the pull ends with exactly the server's objects, each at its current version. */
  lemma EmptyReplicaMirrors(server: Server, s: Store, s': Store, id: string, now: string)
    requires SeqsFit(server) && s.objects == map[] && s.cursor == 0
    requires PulledTo(server, s, s', now) && CaughtUp(server, s'.cursor)
    ensures id in s'.objects <==> id in server.objects
    ensures id in server.objects ==> s'.objects[id] == StoredFrom(server.objects[id], now)
  {
    assert PulledOne(server, s, s', id, now);
  }
}
