/**
 * Crashes between the writes of one client operation: a first part of its `Writes` has been made. For every part of
 * every step the exact condition is proved under which the replica is still safe.
 */
module Interruptions {
  import opened Text
  import opened Protocol
  import opened Storage
  import opened SyncServer
  import opened Conflicts
  import opened SyncPull
  import opened CursorSafety
  import opened Writes

  // ---------------------------------------------------------------- a step stopped between its writes

  /** The step stopped after `n` writes; what was fetched is gone with the process. */
  function Torn(x: Site, h: Happening, n: nat): Site {
    Site(if h.PushQueued? && n > 0 then Happen(x, h).server else x.server,
         WrittenAll(x.store, Part(WritesOf(x, h), n)), [])
  }

  function RefusalTo(server: Server, m: PendingMutation): ConflictResponse {
    ConflictFor(server, RequestOf(m))
  }

  /**
   * An answered push. Acknowledging: once the mutation is removed, as if it had completed. Last-write-wins for the
   * local edit: with the queue emptied and the retry not yet queued, the head is relied on and must be the server's.
   */
  predicate TornPushHarmless(server: Server, s: Store, m: PendingMutation, a: Attempt, n: nat) {
    && (n >= 3 ==> ReplayHarmless(server, s, m))
    && (IsRefused(server, m) && SettlesItself(m, RefusalTo(server, m), a)
        && LocalSide(s, ClashOf(m, RefusalTo(server, m), a)) && n == 3 + |Queued(s.mutations, m.objectId)| ==>
          Covered(server, s, m.objectId) ==> m.envelope == server.objects[m.objectId].envelope)
  }

  /**
   * A decision. With the queue emptied and the old head still there, that head must be the server's; with the chosen
   * head and no retry queued, the chosen one must.
   */
  predicate TornDecisionHarmless(server: Server, s: Store, c: ConflictRecord, strategy: Strategy, n: nat)
    requires strategy.Merge? ==> strategy.sealed.Some?
  {
    var o, d := c.objectId, |Queued(s.mutations, c.objectId)|;
    Covered(server, s, o) ==>
      && (n == d ==> Current(server, s, o))
      && (n > d && TakesRemote(strategy) ==> c.remoteRevision == server.objects[o].revision)
      && (n == d + 1 && !TakesRemote(strategy) ==> SameContent(ChosenHead(c, strategy, ""), server.objects[o]))
  }

  /** Exactly when a step stopped after `n` writes leaves the replica safe. */
  predicate TornHarmless(x: Site, h: Happening, n: nat) {
    match h
    case LocalEdit(e) => n + 1 == |EditWrites(x.store, e)| ==> NothingRelied(x.server, x.store, e.id)
    case PushQueued(pos, fate, a) =>
      pos < |x.store.mutations| && fate.Delivered? ==> TornPushHarmless(x.server, x.store, x.store.mutations[pos], a, n)
    case Decide(k, strategy, _, _) =>
      StrategyError(x.store, k, strategy).None? ==>
          TornDecisionHarmless(x.server, x.store, x.store.conflicts[k], strategy, n)
    case Purge(_) => n > 0 ==> Harmless(x, h)
    case _ => true
  }

  // ---------------------------------------------------------------- what writes leave alone

  /** A write after which nothing relied on for `id` differs. */
  predicate Spares(w: Write, id: string) {
    match w
    case WriteHead(head) => head.objectId != id
    case RemoveHead(other) => other != id
    case Queue(m) => m.objectId != id
    case Drop(_) => false
    case MoveCursor(_) => false
    case _ => true
  }

  lemma WriteSpares(s: Store, w: Write, id: string)
    requires Spares(w, id)
    ensures Untouched(s, Written(s, w), id)
  {
    match w
    case Queue(m) => QueuedAfterAppend(s.mutations, m, id);
    case SetStatus(k, status, retries) => QueuedAfterStatus(s.mutations, k, status, retries, id);
    case _ =>
  }

  lemma {:induction false} WritesSpare(s: Store, ws: seq<Write>, id: string)
    requires forall w :: w in ws ==> Spares(w, id)
    ensures Untouched(s, WrittenAll(s, ws), id)
    decreases |ws|
  {
    if ws != [] {
      assert ws[0] in ws;
      WriteSpares(s, ws[0], id);
      WritesSpare(Written(s, ws[0]), ws[1..], id);
    }
  }

  /** Without a removal, what has something queued keeps something queued. */
  lemma {:induction false} StaysQueued(s: Store, ws: seq<Write>, id: string)
    requires HasQueued(s.mutations, id) && forall w :: w in ws ==> !w.Drop?
    ensures HasQueued(WrittenAll(s, ws).mutations, id)
    decreases |ws|
  {
    if ws != [] {
      assert ws[0] in ws;
      match ws[0] {
        case Queue(m) => QueuedAfterAppend(s.mutations, m, id);
        case SetStatus(k, status, retries) => QueuedAfterStatus(s.mutations, k, status, retries, id);
        case _ =>
      }
      StaysQueued(Written(s, ws[0]), ws[1..], id);
    }
  }

  lemma {:induction false} QueuedIsMember(ms: seq<PendingMutation>, id: string)
    ensures HasQueued(ms, id) <==> exists m :: m in ms && m.objectId == id
  {
    if ms != [] {
      QueuedIsMember(ms[1..], id);
      assert ms == [ms[0]] + ms[1..];
      if m :| m in ms && m.objectId == id {
        assert m == ms[0] || m in ms[1..];
      }
    }
  }

  lemma {:induction false} DropsPart(q: seq<PendingMutation>, n: nat)
    requires n <= |q|
    ensures Part(Drops(q), n) == Drops(q[..n])
    decreases |q|
  {
    if n > 0 {
      DropsPart(q[1..], n - 1);
      assert q[..n][1..] == q[1..][..n - 1];
    }
  }

  /** In the middle of the removal loop the rest of the object's mutations are still queued. */
  lemma LoopKeepsTheRest(ms: seq<PendingMutation>, o: string, n: nat)
    requires DistinctIds(ms) && n < |Queued(ms, o)|
    ensures HasQueued(DropIds(ms, Ids(Queued(ms, o)[..n])), o)
  {
    var q := Queued(ms, o);
    QueuedMembers(ms, o);
    assert q[n] in q;
    QueuedStaysDistinct(ms, o);
    assert q[n].mutationId !in Ids(q[..n]);
    DropIdsMembers(ms, Ids(q[..n]));
    MemberIsQueued(DropIds(ms, Ids(q[..n])), q[n]);
  }

  lemma {:induction false} QueuedStaysDistinct(ms: seq<PendingMutation>, o: string)
    requires DistinctIds(ms)
    ensures DistinctIds(Queued(ms, o))
  {
    if ms != [] {
      TailStaysDistinct(ms);
      QueuedStaysDistinct(ms[1..], o);
      QueuedMembers(ms[1..], o);
      var rest := Queued(ms[1..], o);
      forall i | 0 <= i < |rest| ensures rest[i].mutationId != ms[0].mutationId {
        assert rest[i] in ms[1..];
      }
    }
  }

  /** The loop takes nothing from other objects. */
  lemma LoopSparesOthers(ms: seq<PendingMutation>, o: string, n: nat, id: string)
    requires DistinctIds(ms) && n <= |Queued(ms, o)| && id != o
    ensures HasQueued(DropIds(ms, Ids(Queued(ms, o)[..n])), id) <==> HasQueued(ms, id)
  {
    var q := Queued(ms, o);
    var rest := DropIds(ms, Ids(q[..n]));
    QueuedMembers(ms, o);
    DropIdsMembers(ms, Ids(q[..n]));
    QueuedIsMember(ms, id);
    QueuedIsMember(rest, id);
    forall m | m in ms && m.objectId == id ensures m in rest {
      forall i | 0 <= i < n ensures q[..n][i].mutationId != m.mutationId {
        assert q[i] in q;
        DifferentObjects(ms, q[i], m);
      }
    }
  }

  lemma DifferentObjects(ms: seq<PendingMutation>, a: PendingMutation, b: PendingMutation)
    requires DistinctIds(ms) && a in ms && b in ms && a.objectId != b.objectId
    ensures a.mutationId != b.mutationId
  {
    var i :| 0 <= i < |ms| && ms[i] == a;
    var j :| 0 <= j < |ms| && ms[j] == b;
    assert i < j || j < i;
  }

  lemma SomeDropped(s: Store, o: string, n: nat, id: string)
    requires DistinctIds(s.mutations) && n <= |Queued(s.mutations, o)|
    ensures var s' := WrittenAll(s, Part(Drops(Queued(s.mutations, o)), n));
            && s' == s.(mutations := s'.mutations)
            && (HasQueued(s'.mutations, id) <==> if id == o then n < |Queued(s.mutations, o)|
                else HasQueued(s.mutations, id))
  {
    var q := Queued(s.mutations, o);
    DropsPart(q, n);
    DropsWritten(s, q[..n]);
    if id != o {
      LoopSparesOthers(s.mutations, o, n, id);
    } else if n < |q| {
      LoopKeepsTheRest(s.mutations, o, n);
    } else {
      assert q[..n] == q;
      DropQueuedIsWithout(s.mutations, o);
      QueuedAfterWithout(s.mutations, o, o);
    }
  }

  /** A mutation queued on the way is queued at the end. */
  lemma {:induction false} QueuedOnTheWay(s: Store, ws: seq<Write>, m: PendingMutation)
    requires Queue(m) in ws && forall w :: w in ws ==> !w.Drop?
    ensures HasQueued(WrittenAll(s, ws).mutations, m.objectId)
    decreases |ws|
  {
    if ws[0] == Queue(m) {
      QueuedAfterAppend(s.mutations, m, m.objectId);
      StaysQueued(Written(s, ws[0]), ws[1..], m.objectId);
    } else {
      QueuedOnTheWay(Written(s, ws[0]), ws[1..], m);
    }
  }

  // ---------------------------------------------------------------- edits

  lemma EditHeadWritten(s: Store, e: Edit)
    ensures var s', n := WrittenAll(s, Part(EditWrites(s, e), |EditWrites(s, e)| - 1)), |EditWrites(s, e)| - 1;
            s'.mutations == s.mutations && s'.cursor == s.cursor && e.id in s'.objects
                && s'.objects[e.id] == EditHead(s, e)
  {
    var head := WriteHead(EditHead(s, e));
    var ws := EditWrites(s, e);
    if e.id in s.objects {
      assert Part(ws, |ws| - 1) == [ws[0], head];
      TwoWrites(s, ws[0], head);
    } else {
      assert Part(ws, |ws| - 1) == [head];
      TwoWrites(s, head, head);
    }
  }

  lemma EditPartSpares(s: Store, e: Edit, n: nat, id: string)
    requires n + 1 < |EditWrites(s, e)| || (n + 1 == |EditWrites(s, e)| && id != e.id)
    ensures Untouched(s, WrittenAll(s, Part(EditWrites(s, e), n)), id)
  {
    WritesSpare(s, Part(EditWrites(s, e), n), id);
  }

  lemma TornEditHoldsIff(server: Server, s: Store, e: Edit, n: nat, id: string)
    requires HoldsAt(server, s, id)
    ensures HoldsAt(server, WrittenAll(s, Part(EditWrites(s, e), n)), id)
            <==> (id == e.id && n + 1 == |EditWrites(s, e)| ==> NothingRelied(server, s, e.id))
  {
    var s' := WrittenAll(s, Part(EditWrites(s, e), n));
    if n >= |EditWrites(s, e)| {
      EditWritten(s, e);
      EditHolds(server, s, e, id);
    } else if id == e.id && n + 1 == |EditWrites(s, e)| {
      EditHeadWritten(s, e);
    } else {
      EditPartSpares(s, e, n, id);
      UntouchedHolds(server, s, s', id);
    }
  }

  // ---------------------------------------------------------------- acknowledgements

  lemma AckPart(s: Store, m: PendingMutation, resp: PushResponse, now: string, n: nat, id: string)
    ensures var s' := WrittenAll(s, Part(AckWrites(m, resp, now), n));
            && (n <= 1 && id != m.objectId ==> Untouched(s, s', id))
            && (n <= 1 && HasQueued(s.mutations, id) ==> HasQueued(s'.mutations, id))
            && (n >= 2 ==> Untouched(Acknowledged(s, m, resp, now), s', id))
  {
    var ws := AckWrites(m, resp, now);
    if n <= 1 {
      if id != m.objectId {
        WritesSpare(s, Part(ws, n), id);
      }
      if HasQueued(s.mutations, id) {
        StaysQueued(s, Part(ws, n), id);
      }
    } else {
      AckWritten(s, m, resp, now);
      assert n == 2 ==> Part(ws, n) == [ws[0], ws[1]];
      TwoWrites(s, ws[0], ws[1]);
    }
  }

  // ---------------------------------------------------------------- last-write-wins

  lemma LwwStartSpares(s: Store, x: Clash, n: nat, id: string)
    ensures var s' := WrittenAll(s, Part(LwwStart(s, x), n));
            && (id != x.m.objectId ==> Untouched(s, s', id))
            && (HasQueued(s.mutations, id) ==> HasQueued(s'.mutations, id))
  {
    if id != x.m.objectId {
      WritesSpare(s, Part(LwwStart(s, x), n), id);
    }
    if HasQueued(s.mutations, id) {
      StaysQueued(s, Part(LwwStart(s, x), n), id);
    }
  }

  lemma LwwDroppedPart(s: Store, x: Clash, n: nat, id: string)
    requires DistinctIds(s.mutations) && n <= |Queued(s.mutations, x.m.objectId)|
    ensures var s' := WrittenAll(LwwHeaded(s, x), Part(Drops(Queued(s.mutations, x.m.objectId)), n));
            && (id != x.m.objectId ==> Untouched(s, s', id))
            && (n < |Queued(s.mutations, x.m.objectId)| ==> HasQueued(s'.mutations, x.m.objectId))
            && (n == |Queued(s.mutations, x.m.objectId)| ==> s' == LwwDropped(s, x))
  {
    LwwStartWritten(s, x);
    SomeDropped(LwwHeaded(s, x), x.m.objectId, n, id);
    SomeDropped(LwwHeaded(s, x), x.m.objectId, n, x.m.objectId);
    LwwDroppedWritten(s, x);
  }

  lemma LwwEndPart(s: Store, x: Clash, n: nat)
    requires n > 0
    ensures var s' := WrittenAll(LwwDropped(s, x), Part(LwwEnd(s, x), n));
            if LocalSide(s, x) then HasQueued(s'.mutations, x.m.objectId) else s' == Lww(s, x)
  {
    var part := Part(LwwEnd(s, x), n);
    if LocalSide(s, x) {
      assert part[0] == Queue(LwwRetry(x));
      QueuedOnTheWay(LwwDropped(s, x), part, LwwRetry(x));
    } else {
      LwwEndWritten(s, x);
    }
  }

  /** A part of three lists of writes, of which the first leads to `s1` and the second on to `s2`. */
  lemma PartOfThree(s: Store, s1: Store, s2: Store, a: seq<Write>, b: seq<Write>, c: seq<Write>, n: nat)
    requires WrittenAll(s, a) == s1 && WrittenAll(s1, b) == s2
    ensures n <= |a| ==> Part(a + (b + c), n) == Part(a, n)
    ensures |a| < n <= |a| + |b| ==> WrittenAll(s, Part(a + (b + c), n)) == WrittenAll(s1, Part(b, n - |a|))
    ensures n > |a| + |b| ==> WrittenAll(s, Part(a + (b + c), n)) == WrittenAll(s2, Part(c, n - |a| - |b|))
  {
    PartOfConcat(a, b + c, n);
    if n > |a| {
      PartOfConcat(b, c, n - |a|);
      WrittenOfConcat(s, a, Part(b + c, n - |a|));
      if n - |a| > |b| {
        WrittenOfConcat(s1, b, Part(c, n - |a| - |b|));
      }
    }
  }

  /** What all parts of each list leave alone, all parts of the three together do. */
  lemma ThreeSpare(s: Store, s1: Store, s2: Store, a: seq<Write>, b: seq<Write>, c: seq<Write>, n: nat, id: string)
    requires WrittenAll(s, a) == s1 && WrittenAll(s1, b) == s2
    requires forall k: nat :: k <= |a| ==> Untouched(s, WrittenAll(s, Part(a, k)), id)
    requires forall k: nat :: k <= |b| ==> Untouched(s, WrittenAll(s1, Part(b, k)), id)
    requires forall k: nat :: Untouched(s, WrittenAll(s2, Part(c, k)), id)
    ensures Untouched(s, WrittenAll(s, Part(a + (b + c), n)), id)
  {
    PartOfThree(s, s1, s2, a, b, c, n);
  }

  /** Other objects are left alone by every part. */
  lemma LwwPartSpares(s: Store, x: Clash, n: nat, id: string)
    requires DistinctIds(s.mutations) && id != x.m.objectId
    ensures Untouched(s, WrittenAll(s, Part(LwwWrites(s, x), n)), id)
  {
    var start, drops, end := LwwStart(s, x), Drops(Queued(s.mutations, x.m.objectId)), LwwEnd(s, x);
    LwwStartWritten(s, x);
    LwwDroppedWritten(s, x);
    forall k: nat ensures Untouched(s, WrittenAll(s, Part(start, k)), id) {
      LwwStartSpares(s, x, k, id);
    }
    forall k: nat | k <= |drops| ensures Untouched(s, WrittenAll(LwwHeaded(s, x), Part(drops, k)), id) {
      LwwDroppedPart(s, x, k, id);
    }
    forall k: nat ensures Untouched(s, WrittenAll(LwwDropped(s, x), Part(end, k)), id) {
      LwwDroppedSpares(s, x, id);
      LwwEndSpares(s, x, k, id);
    }
    ThreeSpare(s, LwwHeaded(s, x), LwwDropped(s, x), start, drops, end, n, id);
  }

  lemma LwwEndSpares(s: Store, x: Clash, n: nat, id: string)
    requires id != x.m.objectId
    ensures Untouched(LwwDropped(s, x), WrittenAll(LwwDropped(s, x), Part(LwwEnd(s, x), n)), id)
  {
    WritesSpare(LwwDropped(s, x), Part(LwwEnd(s, x), n), id);
  }

  lemma LwwDroppedSpares(s: Store, x: Clash, id: string)
    requires id != x.m.objectId
    ensures Untouched(s, LwwDropped(s, x), id)
  {
    QueuedAfterWithout(s.mutations, x.m.objectId, id);
  }

  /** With the loop done and no retry queued, the head stands alone: it holds just if it is what the server has. */
  lemma DroppedHoldsIff(server: Server, s: Store, x: Clash)
    requires x.c == ConflictFor(server, RequestOf(x.m)) && !x.c.isDeleted
    ensures HoldsAt(server, LwwDropped(s, x), x.m.objectId)
            <==> (Covered(server, s, x.m.objectId) && LocalSide(s, x) ==>
                    x.m.envelope == server.objects[x.m.objectId].envelope)
  {
    QueuedAfterWithout(s.mutations, x.m.objectId, x.m.objectId);
  }

  lemma TornLwwHoldsIff(server: Server, s: Store, x: Clash, n: nat)
    requires DistinctIds(s.mutations) && HasQueued(s.mutations, x.m.objectId)
    requires x.c == ConflictFor(server, RequestOf(x.m)) && !x.c.isDeleted
    ensures HoldsAt(server, WrittenAll(s, Part(LwwWrites(s, x), n)), x.m.objectId)
            <==> (LocalSide(s, x) && n == 2 + |Queued(s.mutations, x.m.objectId)| ==>
                    Covered(server, s, x.m.objectId) ==> x.m.envelope == server.objects[x.m.objectId].envelope)
  {
    var start, drops, end := LwwStart(s, x), Drops(Queued(s.mutations, x.m.objectId)), LwwEnd(s, x);
    var o := x.m.objectId;
    LwwStartWritten(s, x);
    LwwDroppedWritten(s, x);
    QueuedSome(s.mutations, o);
    forall k: nat ensures HoldsAt(server, WrittenAll(s, Part(start, k)), o) {
      LwwStartSpares(s, x, k, o);
    }
    forall k: nat | k < |drops| ensures HoldsAt(server, WrittenAll(LwwHeaded(s, x), Part(drops, k)), o) {
      LwwDroppedPart(s, x, k, o);
    }
    forall k: nat | k > 0 ensures HoldsAt(server, WrittenAll(LwwDropped(s, x), Part(end, k)), o) {
      LwwEndHolds(server, s, x, k);
    }
    DroppedHoldsIff(server, s, x);
    ThreeHoldIff(server, s, LwwHeaded(s, x), LwwDropped(s, x), start, drops, end, n, o);
  }

  /** Three lists of writes whose parts all hold but one: where the second has been completed. */
  lemma ThreeHoldIff(server: Server, s: Store, s1: Store, s2: Store, a: seq<Write>, b: seq<Write>, c: seq<Write>,
                     n: nat, id: string)
    requires WrittenAll(s, a) == s1 && WrittenAll(s1, b) == s2 && b != []
    requires forall k: nat :: k <= |a| ==> HoldsAt(server, WrittenAll(s, Part(a, k)), id)
    requires forall k: nat :: k < |b| ==> HoldsAt(server, WrittenAll(s1, Part(b, k)), id)
    requires forall k: nat :: k > 0 ==> HoldsAt(server, WrittenAll(s2, Part(c, k)), id)
    ensures HoldsAt(server, WrittenAll(s, Part(a + (b + c), n)), id) <==> (n == |a| + |b| ==> HoldsAt(server, s2, id))
  {
    PartOfThree(s, s1, s2, a, b, c, n);
  }

  lemma LwwEndHolds(server: Server, s: Store, x: Clash, n: nat)
    requires n > 0 && x.c == ConflictFor(server, RequestOf(x.m)) && !x.c.isDeleted
    ensures HoldsAt(server, WrittenAll(LwwDropped(s, x), Part(LwwEnd(s, x), n)), x.m.objectId)
  {
    LwwEndPart(s, x, n);
    LwwHolds(server, s, x);
  }

  lemma {:induction false} QueuedSome(ms: seq<PendingMutation>, id: string)
    ensures HasQueued(ms, id) <==> Queued(ms, id) != []
  {
    if ms != [] {
      QueuedSome(ms[1..], id);
    }
  }

  // ---------------------------------------------------------------- pushes

  lemma PushPart(s: Store, m: PendingMutation, ws: seq<Write>, n: nat)
    requires n > 0
    ensures WrittenAll(s, Part([SetStatus(m.mutationId, InFlight, m.retryCount + 1)] + ws, n))
         == WrittenAll(InFlightStore(s, m), Part(ws, n - 1))
  {
    var mark := SetStatus(m.mutationId, InFlight, m.retryCount + 1);
    PartOfConcat([mark], ws, n);
    assert Part([mark] + ws, n) == [mark] + Part(ws, n - 1);
    MarkedThenWritten(s, m, Part(ws, n - 1));
  }

  lemma AckPartSpares(s: Store, m: PendingMutation, resp: PushResponse, now: string, n: nat, id: string)
    requires Keyed(s.mutations, m.mutationId, m.objectId) && id != m.objectId
    ensures Untouched(s, WrittenAll(s, Part(AckWrites(m, resp, now), n)), id)
  {
    AckPart(s, m, resp, now, n, id);
    AckUntouched(s, m, resp, now, id);
  }

  lemma AnswerPartSpares(s: Store, m: PendingMutation, outcome: Outcome<PushResponse>, a: Attempt, n: nat, id: string)
    requires Keyed(s.mutations, m.mutationId, m.objectId) && DistinctIds(s.mutations) && id != m.objectId
    ensures Untouched(s, WrittenAll(s, Part(AnswerWrites(s, m, outcome, a), n)), id)
  {
    match outcome
    case Ok(resp) => AckPartSpares(s, m, resp, a.now, n, id);
    case Err(Conflict(c)) =>
      if SettlesItself(m, c, a) {
        LwwPartSpares(s, ClashOf(m, c, a), n, id);
      } else {
        WritesSpare(s, Part(RecordWrites(s, m, c, a), n), id);
      }
    case Err(_) => WritesSpare(s, Part(AnswerWrites(s, m, outcome, a), n), id);
  }

  /** Until the mutation is removed it is queued; from then on the store holds what the acknowledgement leaves. */
  lemma AckPartHoldsIff(server: Server, s: Store, m: PendingMutation, resp: PushResponse, now: string, n: nat)
    requires HasQueued(s.mutations, m.objectId)
    ensures HoldsAt(server, WrittenAll(s, Part(AckWrites(m, resp, now), n)), m.objectId)
            <==> (n >= 2 ==> HoldsAt(server, Acknowledged(s, m, resp, now), m.objectId))
  {
    AckPart(s, m, resp, now, n, m.objectId);
    if n >= 2 {
      UntouchedHolds(server, Acknowledged(s, m, resp, now), WrittenAll(s, Part(AckWrites(m, resp, now), n)),
                     m.objectId);
    }
  }

  /** A failure of the transport or a recorded conflict: the mutation stays queued throughout. */
  lemma UnsettledPartHolds(server: Server, s: Store, m: PendingMutation, outcome: Outcome<PushResponse>, a: Attempt,
                           n: nat)
    requires HasQueued(s.mutations, m.objectId)
    requires outcome.Err? && (outcome.error.Conflict? ==> !SettlesItself(m, outcome.error.response, a))
    ensures HoldsAt(server, WrittenAll(s, Part(AnswerWrites(s, m, outcome, a), n)), m.objectId)
  {
    StaysQueued(s, Part(AnswerWrites(s, m, outcome, a), n), m.objectId);
  }

  lemma {:induction false} StatusKeepsQueueLength(ms: seq<PendingMutation>, k: string, status: MutationStatus,
                                                  retries: nat, id: string)
    ensures |Queued(WithStatus(ms, k, status, retries), id)| == |Queued(ms, id)|
  {
    if ms != [] && ms[0].mutationId != k {
      StatusKeepsQueueLength(ms[1..], k, status, retries, id);
    }
  }

  /** What marking in flight leaves as it was. */
  lemma InFlightStands(s: Store, m: PendingMutation)
    requires DistinctIds(s.mutations) && m in s.mutations
    ensures var s1 := InFlightStore(s, m);
            && HasQueued(s1.mutations, m.objectId)
                && |Queued(s1.mutations, m.objectId)| == |Queued(s.mutations, m.objectId)|
            && DistinctIds(s1.mutations) && Keyed(s1.mutations, m.mutationId, m.objectId)
            && s1.objects == s.objects && s1.cursor == s.cursor
  {
    MemberIsQueued(s.mutations, m);
    MarkedUntouched(s, m, InFlight, m.retryCount + 1, m.objectId);
    StatusKeepsQueueLength(s.mutations, m.mutationId, InFlight, m.retryCount + 1, m.objectId);
    StatusStaysDistinct(s, m, InFlight, m.retryCount + 1);
    QueueIsKeyed(s, m);
  }

  /** An answered push, accepted now or before. */
  lemma AcceptedPartHoldsIff(server: Server, s: Store, m: PendingMutation, a: Attempt, n: nat)
    requires AnswersFit(server) && HonestFailure(server) && s.cursor <= server.counter
    requires DistinctIds(s.mutations) && m in s.mutations && AnswerTo(server, m, Delivered).Ok?
    ensures var resp := AnswerTo(server, m, Delivered).value;
            HoldsAt(ServerAfter(server, m, Delivered),
                    WrittenAll(InFlightStore(s, m), Part(AckWrites(m, resp, a.now), n)),
                    m.objectId)
            <==> (n >= 2 ==> ReplayHarmless(server, s, m))
  {
    var resp := AnswerTo(server, m, Delivered).value;
    InFlightStands(s, m);
    AckPartHoldsIff(ServerAfter(server, m, Delivered), InFlightStore(s, m), m, resp, a.now, n);
    PushHoldsIff(server, s, m, Delivered, a);
  }

  lemma RefusedPartHoldsIff(server: Server, s: Store, m: PendingMutation, a: Attempt, n: nat)
    requires DistinctIds(s.mutations) && m in s.mutations && SettlesItself(m, RefusalTo(server, m), a)
    ensures var x := ClashOf(m, RefusalTo(server, m), a);
            HoldsAt(server, WrittenAll(InFlightStore(s, m), Part(LwwWrites(InFlightStore(s, m), x), n)), m.objectId)
            <==> (LocalSide(s, x) && n == 2 + |Queued(s.mutations, m.objectId)| ==>
                    Covered(server, s, m.objectId) ==> m.envelope == server.objects[m.objectId].envelope)
  {
    InFlightStands(s, m);
    TornLwwHoldsIff(server, InFlightStore(s, m), ClashOf(m, RefusalTo(server, m), a), n);
  }

  /** What harm an interrupted push can do, by the answer it got. */
  lemma HarmByAnswer(server: Server, s: Store, m: PendingMutation, a: Attempt, n: nat)
    requires HonestFailure(server)
    ensures var r := AnswerTo(server, m, Delivered);
            && (r.Ok? ==> (TornPushHarmless(server, s, m, a, n) <==> (n >= 3 ==> ReplayHarmless(server, s, m))))
            && (r.Err? && r.error.Conflict? ==> IsRefused(server, m) && r.error.response == RefusalTo(server, m))
            && (r.Err? ==> ReplayHarmless(server, s, m))
            && (r.Err? && (r.error.Conflict? ==> !SettlesItself(m, r.error.response, a)) ==>
                  TornPushHarmless(server, s, m, a, n))
  {}

  /** The pushed object itself, after an answer and `n` writes. */
  lemma TornPushHoldsIff(server: Server, s: Store, m: PendingMutation, a: Attempt, n: nat)
    requires AnswersFit(server) && HonestFailure(server) && s.cursor <= server.counter
    requires DistinctIds(s.mutations) && m in s.mutations && n > 0
    ensures var s' := WrittenAll(InFlightStore(s, m),
                                 Part(AnswerWrites(InFlightStore(s, m), m, AnswerTo(server, m, Delivered), a), n - 1));
            HoldsAt(ServerAfter(server, m, Delivered), s', m.objectId) <==> TornPushHarmless(server, s, m, a, n)
  {
    var outcome := AnswerTo(server, m, Delivered);
    HarmByAnswer(server, s, m, a, n);
    if outcome.Ok? {
      AcceptedPartHoldsIff(server, s, m, a, n - 1);
    } else if outcome.error.Conflict? && SettlesItself(m, outcome.error.response, a) {
      RefusedPartHoldsIff(server, s, m, a, n - 1);
    } else {
      InFlightStands(s, m);
      UnsettledPartHolds(ServerAfter(server, m, Delivered), InFlightStore(s, m), m, outcome, a, n - 1);
    }
  }

  lemma LostPushHolds(server: Server, s: Store, m: PendingMutation, a: Attempt, n: nat)
    requires DistinctIds(s.mutations) && m in s.mutations
    ensures HoldsAt(server,
                    WrittenAll(InFlightStore(s, m),
                               Part(AnswerWrites(InFlightStore(s, m), m, Err(ConnectionFailed), a), n)),
                    m.objectId)
  {
    InFlightStands(s, m);
    UnsettledPartHolds(server, InFlightStore(s, m), m, Err(ConnectionFailed), a, n);
  }

  lemma TornPushSpares(s: Store, m: PendingMutation, outcome: Outcome<PushResponse>, a: Attempt, n: nat, id: string)
    requires DistinctIds(s.mutations) && m in s.mutations && id != m.objectId
    ensures Untouched(s, WrittenAll(InFlightStore(s, m), Part(AnswerWrites(InFlightStore(s, m), m, outcome, a), n)), id)
  {
    InFlightStands(s, m);
    MarkedUntouched(s, m, InFlight, m.retryCount + 1, id);
    AnswerPartSpares(InFlightStore(s, m), m, outcome, a, n, id);
  }

  lemma TornPushIs(x: Site, pos: nat, fate: Fate, a: Attempt, n: nat)
    requires pos < |x.store.mutations| && n > 0
    ensures var m := x.store.mutations[pos];
            var s1 := InFlightStore(x.store, m);
            var part := Part(AnswerWrites(s1, m, AnswerTo(x.server, m, fate), a), n - 1);
            Torn(x, PushQueued(pos, fate, a), n) == Site(ServerAfter(x.server, m, fate), WrittenAll(s1, part), [])
  {
    var m := x.store.mutations[pos];
    PushPart(x.store, m, AnswerWrites(InFlightStore(x.store, m), m, AnswerTo(x.server, m, fate), a), n);
  }

  lemma TornPushKeepsSafeIff(x: Site, pos: nat, fate: Fate, a: Attempt, n: nat)
    requires Sound(x) && Safe(x.server, x.store) && pos < |x.store.mutations| && n > 0
    ensures var x' := Torn(x, PushQueued(pos, fate, a), n);
            Safe(x'.server, x'.store)
            <==> (fate.Delivered? ==> TornPushHarmless(x.server, x.store, x.store.mutations[pos], a, n))
  {
    TornPushIs(x, pos, fate, a, n);
    SentSafeIff(x, x.store.mutations[pos], fate, a, n);
  }

  lemma SentSafeIff(x: Site, m: PendingMutation, fate: Fate, a: Attempt, n: nat)
    requires Sound(x) && Safe(x.server, x.store) && m in x.store.mutations && n > 0
    ensures var s1, outcome := InFlightStore(x.store, m), AnswerTo(x.server, m, fate);
            Safe(ServerAfter(x.server, m, fate), WrittenAll(s1, Part(AnswerWrites(s1, m, outcome, a), n - 1)))
            <==> (fate.Delivered? ==> TornPushHarmless(x.server, x.store, m, a, n))
  {
    var outcome, server' := AnswerTo(x.server, m, fate), ServerAfter(x.server, m, fate);
    var s1 := InFlightStore(x.store, m);
    var s' := WrittenAll(s1, Part(AnswerWrites(s1, m, outcome, a), n - 1));
    ServerAfterGrows(x, m, fate);
    forall id | id != m.objectId ensures HoldsAt(server', s', id) {
      TornPushSpares(x.store, m, outcome, a, n - 1, id);
      GrowthKeepsHold(x.server, server', x.store, id);
      UntouchedHolds(server', x.store, s', id);
    }
    if fate.Delivered? {
      TornPushHoldsIff(x.server, x.store, m, a, n);
    } else {
      LostPushHolds(server', x.store, m, a, n - 1);
    }
    assert HoldsAt(server', s', m.objectId) <==> (fate.Delivered? ==> TornPushHarmless(x.server, x.store, m, a, n));
  }

  // ---------------------------------------------------------------- decisions

  /** In the loop: the rest is queued; after it the old head stands alone. */
  lemma DecisionLoopHoldsIff(server: Server, s: Store, o: string, n: nat, id: string)
    requires DistinctIds(s.mutations) && n <= |Queued(s.mutations, o)| && HoldsAt(server, s, id)
    ensures HoldsAt(server, WrittenAll(s, Part(Drops(Queued(s.mutations, o)), n)), id)
            <==> (id == o && n == |Queued(s.mutations, o)| ==> Covered(server, s, o) ==> Current(server, s, o))
  {
    SomeDropped(s, o, n, id);
  }

  /** The chosen head, with nothing queued. */
  lemma ChosenHoldsIff(server: Server, s: Store, c: ConflictRecord, strategy: Strategy, now: string, id: string)
    requires HoldsAt(server, s, id) && (strategy.Merge? ==> strategy.sealed.Some?)
    ensures HoldsAt(server, Chosen(s, c, strategy, now), id)
            <==> (id == c.objectId && Covered(server, s, id) ==>
                    SameContent(ChosenHead(c, strategy, ""), server.objects[id]))
  {
    QueuedAfterWithout(s.mutations, c.objectId, id);
  }

  lemma DecisionEndSpares(s: Store, c: ConflictRecord, k: string, strategy: Strategy, retryId: string, now: string,
                          n: nat, id: string)
    requires strategy.Merge? ==> strategy.sealed.Some?
    requires id != c.objectId || TakesRemote(strategy)
    requires strategy.Duplicate? && CopyError(strategy).None? ==> id != strategy.newObjectId
    ensures Untouched(s, WrittenAll(s, Part(DecisionEnd(s, c, k, strategy, retryId, now), n)), id)
  {
    WritesSpare(s, Part(DecisionEnd(s, c, k, strategy, retryId, now), n), id);
  }

  /** The retry is the first write after the head. */
  lemma RetryIsQueued(s: Store, c: ConflictRecord, k: string, strategy: Strategy, retryId: string, now: string, n: nat)
    requires (strategy.Merge? ==> strategy.sealed.Some?) && !TakesRemote(strategy) && n > 0
    ensures HasQueued(WrittenAll(s, Part(DecisionEnd(s, c, k, strategy, retryId, now), n)).mutations, c.objectId)
  {
    var part := Part(DecisionEnd(s, c, k, strategy, retryId, now), n);
    assert part[0] == Queue(ResolutionRetry(c, strategy, retryId, now));
    QueuedOnTheWay(s, part, ResolutionRetry(c, strategy, retryId, now));
  }

  /** The copy: not there yet, or queued. */
  lemma CopyPartHolds(server: Server, s: Store, c: ConflictRecord, k: string, strategy: Strategy, retryId: string,
                      now: string, n: nat)
    requires strategy.Duplicate? && CopyError(strategy).None? && HoldsAt(server, s, strategy.newObjectId)
    ensures HoldsAt(server, WrittenAll(s, Part(DecisionEnd(s, c, k, strategy, retryId, now), n)), strategy.newObjectId)
  {
    var ws := DecisionEnd(s, c, k, strategy, retryId, now);
    var part, copy := Part(ws, n), CopyRetry(c, strategy.newObjectId, strategy.copy.envelope, retryId, now);
    var at := if ws[0].Queue? then 0 else 1;
    assert ws[at] == Queue(copy);
    if n > at {
      assert part[at] == ws[at];
      QueuedOnTheWay(s, part, copy);
    } else {
      WritesSpare(s, part, strategy.newObjectId);
      UntouchedHolds(server, s, WrittenAll(s, part), strategy.newObjectId);
    }
  }

  /** After the head: everything but the object itself is fine, and it is if its retry is queued or its head current. */
  lemma DecisionEndHoldsIff(server: Server, s: Store, c: ConflictRecord, k: string, strategy: Strategy, retryId: string,
                            now: string, n: nat, id: string)
    requires (strategy.Merge? ==> strategy.sealed.Some?) && (strategy.Duplicate? ==> strategy.newObjectId != c.objectId)
    requires id != c.objectId ==> HoldsAt(server, s, id)
    ensures HoldsAt(server, WrittenAll(s, Part(DecisionEnd(s, c, k, strategy, retryId, now), n)), id)
            <==> (id == c.objectId && (n == 0 || TakesRemote(strategy)) ==> HoldsAt(server, s, id))
  {
    var s' := WrittenAll(s, Part(DecisionEnd(s, c, k, strategy, retryId, now), n));
    if n == 0 {
      assert s' == s;
    } else if id == c.objectId && !TakesRemote(strategy) {
      RetryIsQueued(s, c, k, strategy, retryId, now, n);
    } else if strategy.Duplicate? && CopyError(strategy).None? && id == strategy.newObjectId {
      CopyPartHolds(server, s, c, k, strategy, retryId, now, n);
    } else {
      DecisionEndSpares(s, c, k, strategy, retryId, now, n, id);
      UntouchedHolds(server, s, s', id);
    }
  }

  /** A loop, one write and the rest: `old` is what it takes after the loop, `chosen` after the write. */
  lemma HeadBetween(server: Server, s: Store, s1: Store, s2: Store, a: seq<Write>, b: seq<Write>, c: seq<Write>, n: nat,
                    id: string, kept: bool, remote: bool, chosen: bool)
    requires WrittenAll(s, a) == s1 && WrittenAll(s1, b) == s2 && |b| == 1
    requires forall k: nat :: k <= |a| ==> (HoldsAt(server, WrittenAll(s, Part(a, k)), id) <==> (k == |a| ==> kept))
    requires forall k: nat :: HoldsAt(server, WrittenAll(s2, Part(c, k)), id) <==> (k == 0 || remote ==> chosen)
    ensures HoldsAt(server, WrittenAll(s, Part(a + (b + c), n)), id)
            <==> (n == |a| ==> kept) && (n > |a| && (n == |a| + 1 || remote) ==> chosen)
  {
    PartOfThree(s, s1, s2, a, b, c, n);
    if n == |a| + 1 {
      assert Part(c, 0) == [];
      assert WrittenAll(s2, Part(c, 0)) == s2;
    }
  }

  lemma TornDecisionHoldsIff(server: Server, s: Store, k: string, strategy: Strategy, retryId: string, now: string,
                             n: nat, id: string)
    requires StrategyError(s, k, strategy).None? && DistinctIds(s.mutations) && RecordsFit(server, s.conflicts)
    requires strategy.Duplicate? ==> strategy.newObjectId != s.conflicts[k].objectId
    requires HoldsAt(server, s, id)
    ensures HoldsAt(server, WrittenAll(s, Part(DecisionWrites(s, k, strategy, retryId, now), n)), id)
            <==> (id == s.conflicts[k].objectId ==> TornDecisionHarmless(server, s, s.conflicts[k], strategy, n))
  {
    var c := s.conflicts[k];
    var chosen, drops := Chosen(s, c, strategy, now), Drops(Queued(s.mutations, c.objectId));
    var end := DecisionEnd(chosen, c, k, strategy, retryId, now);
    var kept := id == c.objectId ==> Covered(server, s, id) ==> Current(server, s, id);
    var remote := id == c.objectId ==> TakesRemote(strategy);
    AllDropsWritten(s, c.objectId);
    ChosenWritten(s, k, strategy, now);
    ChosenHoldsIff(server, s, c, strategy, now, id);
    forall j: nat | j <= |drops| ensures HoldsAt(server, WrittenAll(s, Part(drops, j)), id)
        <==> (j == |drops| ==> kept) {
      DecisionLoopHoldsIff(server, s, c.objectId, j, id);
    }
    forall j: nat
      ensures HoldsAt(server, WrittenAll(chosen, Part(end, j)), id)
              <==> (j == 0 || remote ==> HoldsAt(server, chosen, id))
    {
      DecisionEndHoldsIff(server, chosen, c, k, strategy, retryId, now, j, id);
    }
    HeadBetween(server, s, DecisionDropped(s, k), chosen, drops, [WriteHead(ChosenHead(c, strategy, now))], end, n, id,
                kept, remote, HoldsAt(server, chosen, id));
    if id == c.objectId {
      HarmlessByHead(server, s, c, strategy, n);
    }
  }

  /** Taking the remote side, the revision decides: the content of that revision is the server's. */
  lemma HarmlessByHead(server: Server, s: Store, c: ConflictRecord, strategy: Strategy, n: nat)
    requires RecordFits(server, c) && (strategy.Merge? ==> strategy.sealed.Some?)
    ensures var o, d := c.objectId, |Queued(s.mutations, c.objectId)|;
            var chosen := Covered(server, s, o) ==> SameContent(ChosenHead(c, strategy, ""), server.objects[o]);
            TornDecisionHarmless(server, s, c, strategy, n)
            <==> (n == d ==> Covered(server, s, o) ==> Current(server, s, o))
                 && (n > d && (n == d + 1 || TakesRemote(strategy)) ==> chosen)
  {}

  lemma TornDecisionKeepsSafeIff(x: Site, k: string, strategy: Strategy, retryId: string, now: string, n: nat)
    requires Sound(x) && Safe(x.server, x.store) && Possible(x, Decide(k, strategy, retryId, now))
    ensures Safe(x.server, Torn(x, Decide(k, strategy, retryId, now), n).store)
            <==> TornHarmless(x, Decide(k, strategy, retryId, now), n)
  {
    var s' := Torn(x, Decide(k, strategy, retryId, now), n).store;
    if StrategyError(x.store, k, strategy).None? {
      var o := x.store.conflicts[k].objectId;
      forall id ensures HoldsAt(x.server, s', id)
                        <==> (id == o ==> TornDecisionHarmless(x.server, x.store, x.store.conflicts[k], strategy, n)) {
        TornDecisionHoldsIff(x.server, x.store, k, strategy, retryId, now, n, id);
      }
      assert HoldsAt(x.server, s', o) <==> TornHarmless(x, Decide(k, strategy, retryId, now), n);
    }
  }

  // ---------------------------------------------------------------- every step, stopped anywhere

  /** Stored but the cursor not moved: what was stored lies beyond the cursor. */
  lemma TornApplyHolds(x: Site, now: string, n: nat, id: string)
    requires Sound(x) && Safe(x.server, x.store) && x.inbox != []
    ensures HoldsAt(x.server, Torn(x, ApplyOne(now), n).store, id)
  {
    var c, s' := x.inbox[0], Torn(x, ApplyOne(now), n).store;
    assert c in x.inbox && HoldsAt(x.server, x.store, id);
    var head := WriteHead(StoredFrom(c, now));
    if n == 1 {
      assert Part(WritesOf(x, ApplyOne(now)), n) == [head];
      TwoWrites(x.store, head, head);
    } else if n > 1 {
      WritesMakeTheStep(x, ApplyOne(now));
      AppliedHolds(x.server, x.store, x.inbox, now, id);
    }
  }

  lemma TornPurgeKeepsSafeIff(x: Site, id: string, n: nat)
    requires Safe(x.server, x.store)
    ensures Safe(x.server, Torn(x, Purge(id), n).store) <==> TornHarmless(x, Purge(id), n)
  {
    var s' := Torn(x, Purge(id), n).store;
    if n > 0 && id in x.store.objects {
      var ws := WritesOf(x, Purge(id));
      assert n == 1 ==> Part(ws, n) == [ws[0]];
      TwoWrites(x.store, ws[0], ws[1]);
      PurgeKeepsSafeIff(x, id);
      forall other ensures HoldsAt(x.server, s', other) <==> HoldsAt(x.server, Happen(x, Purge(id)).store, other) {
        UntouchedHolds(x.server, Happen(x, Purge(id)).store, s', other);
      }
    }
  }

  lemma NothingWritten(x: Site, h: Happening, n: nat)
    requires n == 0 || WritesOf(x, h) == []
    ensures Torn(x, h, n).store == x.store
  {}

  /**
   * For every step, stopped after any number of its writes: the replica is still safe if and only if it is
   * harmless.
   */
  lemma TornStepIsSafeIff(x: Site, h: Happening, n: nat)
    requires Sound(x) && Safe(x.server, x.store) && Possible(x, h)
    ensures Safe(Torn(x, h, n).server, Torn(x, h, n).store) <==> TornHarmless(x, h, n)
  {
    match h
    case ApplyOne(now) =>
      forall id ensures HoldsAt(x.server, Torn(x, h, n).store, id) {
        TornApplyHolds(x, now, n, id);
      }
    case LocalEdit(e) =>
      forall id ensures HoldsAt(x.server, Torn(x, h, n).store, id)
                        <==> (id == e.id && n + 1 == |EditWrites(x.store, e)| ==>
                              NothingRelied(x.server, x.store, e.id)) {
        TornEditHoldsIff(x.server, x.store, e, n, id);
      }
      assert HoldsAt(x.server, Torn(x, h, n).store, e.id) <==> TornHarmless(x, h, n);
    case PushQueued(pos, fate, a) =>
      if n > 0 {
        TornPushKeepsSafeIff(x, pos, fate, a, n);
      } else {
        NothingWritten(x, h, n);
      }
    case Decide(k, strategy, retryId, now) => TornDecisionKeepsSafeIff(x, k, strategy, retryId, now, n);
    case Purge(id) => TornPurgeKeepsSafeIff(x, id, n);
    case _ => NothingWritten(x, h, n);
  }

  // ---------------------------------------------------------------- soundness

  /** A record written open quotes a version of the server. */
  predicate Honest(server: Server, w: Write) {
    w.WriteRecord? && !w.c.resolved ==> RecordFits(server, w.c)
  }

  lemma {:induction false} HonestWritesKeepRecords(server: Server, s: Store, ws: seq<Write>)
    requires RecordsFit(server, s.conflicts) && forall w :: w in ws ==> Honest(server, w)
    ensures RecordsFit(server, WrittenAll(s, ws).conflicts)
    decreases |ws|
  {
    if ws != [] {
      assert ws[0] in ws;
      if ws[0].WriteRecord? {
        OneMoreRecordFits(server, s.conflicts, ws[0].c);
      }
      HonestWritesKeepRecords(server, Written(s, ws[0]), ws[1..]);
    }
  }

  /** At most one mutation is queued, under id `k`, and the cursor stays. */
  predicate QueuesAtMost(ws: seq<Write>, k: string) {
    ws != [] ==>
      && !ws[0].MoveCursor?
      && if ws[0].Queue? then ws[0].m.mutationId == k && QueuesNone(ws[1..]) else QueuesAtMost(ws[1..], k)
  }

  predicate QueuesNone(ws: seq<Write>) {
    ws != [] ==> !ws[0].Queue? && !ws[0].MoveCursor? && QueuesNone(ws[1..])
  }

  lemma {:induction false} PartQueuesNone(ws: seq<Write>, n: nat)
    requires QueuesNone(ws)
    ensures QueuesNone(Part(ws, n))
    decreases |ws|
  {
    if 0 < n < |ws| {
      PartQueuesNone(ws[1..], n - 1);
      assert ws[..n][1..] == Part(ws[1..], n - 1);
    }
  }

  lemma {:induction false} PartQueuesAtMost(ws: seq<Write>, k: string, n: nat)
    requires QueuesAtMost(ws, k)
    ensures QueuesAtMost(Part(ws, n), k)
    decreases |ws|
  {
    if 0 < n < |ws| {
      if ws[0].Queue? {
        PartQueuesNone(ws[1..], n - 1);
      } else {
        PartQueuesAtMost(ws[1..], k, n - 1);
      }
      assert ws[..n][1..] == Part(ws[1..], n - 1);
    }
  }

  /** Dropping and marking keep mutation ids distinct and bring no new ones. */
  lemma WriteKeepsDistinct(s: Store, w: Write)
    requires DistinctIds(s.mutations) && !w.Queue?
    ensures DistinctIds(Written(s, w).mutations) && Ids(Written(s, w).mutations) <= Ids(s.mutations)
  {
    match w
    case Drop(k) =>
      DropIdsStaysDistinct(s.mutations, {k});
      DropIdsMembers(s.mutations, {k});
      var rest := DropIds(s.mutations, {k});
      forall i | 0 <= i < |rest| ensures rest[i].mutationId in Ids(s.mutations) {
        assert rest[i] in s.mutations;
      }
    case SetStatus(k, status, retries) => StatusByIdStaysDistinct(s, k, status, retries);
    case _ =>
  }

  lemma StatusByIdStaysDistinct(s: Store, k: string, status: MutationStatus, retries: nat)
    requires DistinctIds(s.mutations)
    ensures var ms := WithStatus(s.mutations, k, status, retries); DistinctIds(ms) && Ids(ms) == Ids(s.mutations)
  {
    if m :| m in s.mutations && m.mutationId == k {
      StatusStaysDistinct(s, m, status, retries);
    } else {
      StatusOfAbsent(s.mutations, k, status, retries);
    }
  }

  lemma {:induction false} QueuesNoneKeepsDistinct(s: Store, ws: seq<Write>)
    requires DistinctIds(s.mutations) && QueuesNone(ws)
    ensures DistinctIds(WrittenAll(s, ws).mutations) && WrittenAll(s, ws).cursor == s.cursor
    decreases |ws|
  {
    if ws != [] {
      WriteKeepsDistinct(s, ws[0]);
      QueuesNoneKeepsDistinct(Written(s, ws[0]), ws[1..]);
    }
  }

  lemma {:induction false} QueuesAtMostKeepsDistinct(s: Store, ws: seq<Write>, k: string)
    requires DistinctIds(s.mutations) && QueuesAtMost(ws, k) && k !in Ids(s.mutations)
    ensures DistinctIds(WrittenAll(s, ws).mutations) && WrittenAll(s, ws).cursor == s.cursor
    decreases |ws|
  {
    if ws != [] {
      if ws[0].Queue? {
        AppendStaysDistinct(s.mutations, ws[0].m);
        QueuesNoneKeepsDistinct(Written(s, ws[0]), ws[1..]);
      } else {
        WriteKeepsDistinct(s, ws[0]);
        QueuesAtMostKeepsDistinct(Written(s, ws[0]), ws[1..], k);
      }
    }
  }

  lemma {:induction false} QueuesAfterNone(xs: seq<Write>, ys: seq<Write>, k: string)
    requires QueuesNone(xs) && QueuesAtMost(ys, k)
    ensures QueuesAtMost(xs + ys, k)
    decreases |xs|
  {
    if xs == [] {
      assert xs + ys == ys;
    } else {
      assert (xs + ys)[1..] == xs[1..] + ys;
      QueuesAfterNone(xs[1..], ys, k);
    }
  }

  lemma {:induction false} DropsQueueNone(q: seq<PendingMutation>)
    ensures QueuesNone(Drops(q)) && forall w :: w in Drops(q) ==> w.Drop?
  {
    if q != [] {
      DropsQueueNone(q[1..]);
      assert Drops(q)[1..] == Drops(q[1..]);
    }
  }

  /** One write, or two, of which none queues. */
  lemma ShortQueuesNone(a: Write, b: Write)
    requires !a.Queue? && !b.Queue? && !a.MoveCursor? && !b.MoveCursor?
    ensures QueuesNone([a]) && QueuesNone([a, b])
  {
    assert [a, b][1..] == [b] && [b][1..] == [] && [a][1..] == [];
    assert QueuesNone([b]);
  }

  /** One write, or two, of which the first may queue. */
  lemma ShortQueuesAtMost(a: Write, b: Write, k: string)
    requires (a.Queue? ==> a.m.mutationId == k) && !b.Queue? && !a.MoveCursor? && !b.MoveCursor?
    ensures QueuesAtMost([a], k) && QueuesAtMost([a, b], k)
  {
    assert [a, b][1..] == [b] && [b][1..] == [] && [a][1..] == [];
    assert QueuesNone([b]) && QueuesAtMost([], k) && QueuesAtMost([b], k);
  }

  lemma EditQueuesOne(s: Store, e: Edit)
    ensures QueuesAtMost(EditWrites(s, e), e.mutationId)
  {
    var ws := EditWrites(s, e);
    var n := |ws| - 1;
    ShortQueuesAtMost(ws[n], ws[0], e.mutationId);
    ShortQueuesNone(ws[0], ws[n - 1]);
    assert ws == ws[..n] + [ws[n]];
    assert n == 1 ==> ws[..n] == [ws[0]];
    assert n == 2 ==> ws[..n] == [ws[0], ws[1]];
    QueuesAfterNone(ws[..n], [ws[n]], e.mutationId);
  }

  lemma LwwQueuesOne(s: Store, x: Clash)
    ensures QueuesAtMost(LwwWrites(s, x), x.retryId)
  {
    var start, drops, end := LwwStart(s, x), Drops(Queued(s.mutations, x.m.objectId)), LwwEnd(s, x);
    ShortQueuesNone(start[0], start[1]);
    DropsQueueNone(Queued(s.mutations, x.m.objectId));
    ShortQueuesAtMost(end[0], end[|end| - 1], x.retryId) by {
      assert end[|end| - 1].WriteRecord?;
    }
    QueuesAfterNone(drops, end, x.retryId);
    QueuesAfterNone(start, drops + end, x.retryId);
  }

  lemma AnswerQueuesOne(s: Store, m: PendingMutation, outcome: Outcome<PushResponse>, a: Attempt)
    ensures QueuesAtMost(AnswerWrites(s, m, outcome, a), a.retryId)
  {
    match outcome
    case Ok(resp) =>
      var ws := AckWrites(m, resp, a.now);
      ShortQueuesNone(ws[0], ws[1]);
      ShortQueuesAtMost(ws[2], ws[2], a.retryId);
      QueuesAfterNone([ws[0], ws[1]], [ws[2]], a.retryId);
      assert ws == [ws[0], ws[1]] + [ws[2]];
    case Err(Conflict(c)) =>
      if SettlesItself(m, c, a) {
        LwwQueuesOne(s, ClashOf(m, c, a));
      } else {
        var ws := RecordWrites(s, m, c, a);
        ShortQueuesAtMost(ws[0], ws[|ws| - 1], a.retryId);
        assert ws == if |ws| == 1 then [ws[0]] else [ws[0], ws[1]];
      }
    case Err(_) =>
      var ws := AnswerWrites(s, m, outcome, a);
      ShortQueuesAtMost(ws[0], ws[0], a.retryId);
  }

  lemma DecisionEndQueuesOne(s: Store, c: ConflictRecord, k: string, strategy: Strategy, retryId: string, now: string)
    requires strategy.Merge? ==> strategy.sealed.Some?
    ensures QueuesAtMost(DecisionEnd(s, c, k, strategy, retryId, now), retryId)
  {
    var ws := DecisionEnd(s, c, k, strategy, retryId, now);
    if CopyError(strategy).None? {
      var close := ws[|ws| - 1];
      assert close.CloseRecord?;
      if strategy.Duplicate? {
        var at := if ws[0].Queue? then 0 else 1;
        ShortQueuesNone(ws[at + 1], close);
        assert ws[at..] == [ws[at], ws[at + 1], close] && ws[at..][1..] == [ws[at + 1], close];
        assert QueuesAtMost(ws[at..], retryId);
        ShortQueuesNone(close, close);
        assert at == 1 ==> ws[1..] == ws[at..];
      } else {
        ShortQueuesAtMost(ws[0], close, retryId);
        assert ws == if |ws| == 1 then [ws[0]] else [ws[0], ws[1]];
      }
    }
  }

  lemma DecisionQueuesOne(s: Store, k: string, strategy: Strategy, retryId: string, now: string)
    requires StrategyError(s, k, strategy).None?
    ensures QueuesAtMost(DecisionWrites(s, k, strategy, retryId, now), retryId)
  {
    var c := s.conflicts[k];
    var head := WriteHead(ChosenHead(c, strategy, now));
    var end := DecisionEnd(Chosen(s, c, strategy, now), c, k, strategy, retryId, now);
    DropsQueueNone(Queued(s.mutations, c.objectId));
    ShortQueuesNone(head, head);
    DecisionEndQueuesOne(Chosen(s, c, strategy, now), c, k, strategy, retryId, now);
    QueuesAfterNone([head], end, retryId);
    QueuesAfterNone(Drops(Queued(s.mutations, c.objectId)), [head] + end, retryId);
  }

  /** What a part of a list that queues one new mutation leaves. */
  lemma PartStaysSound(server: Server, s: Store, ws: seq<Write>, k: string, n: nat)
    requires DistinctIds(s.mutations) && k !in Ids(s.mutations) && RecordsFit(server, s.conflicts)
    requires QueuesAtMost(ws, k) && forall w :: w in ws ==> Honest(server, w)
    ensures var s' := WrittenAll(s, Part(ws, n));
            DistinctIds(s'.mutations) && s'.cursor == s.cursor && RecordsFit(server, s'.conflicts)
  {
    PartQueuesAtMost(ws, k, n);
    QueuesAtMostKeepsDistinct(s, Part(ws, n), k);
    HonestWritesKeepRecords(server, s, Part(ws, n));
  }

  lemma AnswersAreHonest(server: Server, s: Store, m: PendingMutation, fate: Fate, a: Attempt)
    requires HonestFailure(server)
    ensures forall w :: w in AnswerWrites(s, m, AnswerTo(server, m, fate), a) ==> Honest(server, w)
  {
    var outcome := AnswerTo(server, m, fate);
    if outcome.Err? && outcome.error.Conflict? && SettlesItself(m, outcome.error.response, a) {
      LwwIsHonest(server, s, ClashOf(m, outcome.error.response, a));
    }
  }

  lemma LwwIsHonest(server: Server, s: Store, x: Clash)
    ensures forall w :: w in LwwWrites(s, x) ==> Honest(server, w)
  {
    DropsQueueNone(Queued(s.mutations, x.m.objectId));
  }

  lemma DecisionIsHonest(server: Server, s: Store, k: string, strategy: Strategy, retryId: string, now: string)
    requires StrategyError(s, k, strategy).None?
    ensures forall w :: w in DecisionWrites(s, k, strategy, retryId, now) ==> Honest(server, w)
  {
    DropsQueueNone(Queued(s.mutations, s.conflicts[k].objectId));
  }

  lemma AnswerPartStaysSound(server: Server, s: Store, m: PendingMutation, fate: Fate, a: Attempt, n: nat)
    requires DistinctIds(s.mutations) && a.retryId !in Ids(s.mutations)
    requires RecordsFit(server, s.conflicts) && HonestFailure(server)
    ensures var s' := WrittenAll(s, Part(AnswerWrites(s, m, AnswerTo(server, m, fate), a), n));
            DistinctIds(s'.mutations) && s'.cursor == s.cursor && RecordsFit(server, s'.conflicts)
  {
    AnswerQueuesOne(s, m, AnswerTo(server, m, fate), a);
    AnswersAreHonest(server, s, m, fate, a);
    PartStaysSound(server, s, AnswerWrites(s, m, AnswerTo(server, m, fate), a), a.retryId, n);
  }

  lemma NewStoreIsSound(x: Site, s: Store, m: PendingMutation, fate: Fate)
    requires Sound(x) && DistinctIds(s.mutations) && s.cursor == x.store.cursor && RecordsFit(x.server, s.conflicts)
    ensures Sound(Site(ServerAfter(x.server, m, fate), s, []))
  {
    ServerAfterGrows(Site(x.server, s, []), m, fate);
  }

  lemma SentStaysSound(x: Site, m: PendingMutation, fate: Fate, a: Attempt, n: nat)
    requires Sound(x) && a.retryId !in Ids(x.store.mutations)
    ensures var s1, outcome := InFlightStore(x.store, m), AnswerTo(x.server, m, fate);
            Sound(Site(ServerAfter(x.server, m, fate), WrittenAll(s1, Part(AnswerWrites(s1, m, outcome, a), n)), []))
  {
    var s1, outcome := InFlightStore(x.store, m), AnswerTo(x.server, m, fate);
    StatusStaysDistinct(x.store, m, InFlight, m.retryCount + 1);
    AnswerPartStaysSound(x.server, s1, m, fate, a, n);
    NewStoreIsSound(x, WrittenAll(s1, Part(AnswerWrites(s1, m, outcome, a), n)), m, fate);
  }

  lemma TornPushStaysSound(x: Site, pos: nat, fate: Fate, a: Attempt, n: nat)
    requires Sound(x) && pos < |x.store.mutations| && a.retryId !in Ids(x.store.mutations) && n > 0
    ensures Sound(Torn(x, PushQueued(pos, fate, a), n))
  {
    TornPushIs(x, pos, fate, a, n);
    SentStaysSound(x, x.store.mutations[pos], fate, a, n - 1);
  }

  lemma TornEditStaysSound(x: Site, e: Edit, n: nat)
    requires Sound(x) && e.mutationId !in Ids(x.store.mutations)
    ensures Sound(Torn(x, LocalEdit(e), n))
  {
    EditQueuesOne(x.store, e);
    PartStaysSound(x.server, x.store, EditWrites(x.store, e), e.mutationId, n);
  }

  lemma TornPurgeStaysSound(x: Site, id: string, n: nat)
    requires Sound(x) && id in x.store.objects
    ensures Sound(Torn(x, Purge(id), n))
  {
    TwoParts(x.store, RemoveHead(id), ClearBases(id), n);
    SameQueueIsSound(x, Torn(x, Purge(id), n).store);
  }

  lemma TornApplyStaysSound(x: Site, now: string, n: nat)
    requires Sound(x) && x.inbox != []
    ensures Sound(Torn(x, ApplyOne(now), n))
  {
    var c := x.inbox[0];
    assert c in x.inbox;
    TwoParts(x.store, WriteHead(StoredFrom(c, now)), MoveCursor(c.serverSeq), n);
    SameQueueIsSound(x, Torn(x, ApplyOne(now), n).store);
  }

  lemma SameQueueIsSound(x: Site, s: Store)
    requires Sound(x) && s.mutations == x.store.mutations && s.conflicts == x.store.conflicts
    requires s.cursor <= x.server.counter
    ensures Sound(Site(x.server, s, []))
  {}

  lemma TwoParts(s: Store, a: Write, b: Write, n: nat)
    ensures WrittenAll(s, Part([a, b], n))
         == if n == 0 then s else if n == 1 then Written(s, a) else Written(Written(s, a), b)
  {
    TwoWrites(s, a, b);
    assert n == 0 ==> Part([a, b], n) == [];
    assert n == 1 ==> Part([a, b], n) == [a];
  }

  lemma TornDecisionStaysSound(x: Site, k: string, strategy: Strategy, retryId: string, now: string, n: nat)
    requires Sound(x) && Possible(x, Decide(k, strategy, retryId, now)) && StrategyError(x.store, k, strategy).None?
    ensures Sound(Torn(x, Decide(k, strategy, retryId, now), n))
  {
    DecisionQueuesOne(x.store, k, strategy, retryId, now);
    DecisionIsHonest(x.server, x.store, k, strategy, retryId, now);
    PartStaysSound(x.server, x.store, DecisionWrites(x.store, k, strategy, retryId, now), retryId, n);
  }

  /** Every step, stopped anywhere, keeps what safety is judged against. */
  lemma TornStaysSound(x: Site, h: Happening, n: nat)
    requires Sound(x) && Possible(x, h)
    ensures Sound(Torn(x, h, n))
  {
    if n == 0 || WritesOf(x, h) == [] {
      NothingWritten(x, h, n);
    } else {
      match h
      case ApplyOne(now) => TornApplyStaysSound(x, now, n);
      case LocalEdit(e) => TornEditStaysSound(x, e, n);
      case PushQueued(pos, fate, a) => TornPushStaysSound(x, pos, fate, a, n);
      case Decide(k, strategy, retryId, now) => TornDecisionStaysSound(x, k, strategy, retryId, now, n);
      case Purge(id) => TornPurgeStaysSound(x, id, n);
      case _ =>
    }
  }

  // ---------------------------------------------------------------- runs with interruptions

  datatype Step = Whole(h: Happening) | Interrupted(h: Happening, writes: nat)

  function After(x: Site, st: Step): Site {
    if st.Whole? then Happen(x, st.h) else Torn(x, st.h, st.writes)
  }

  predicate StepHarmless(x: Site, st: Step) {
    if st.Whole? then Harmless(x, st.h) else TornHarmless(x, st.h, st.writes)
  }

  ghost predicate AllStepsPossible(x: Site, steps: seq<Step>)
    decreases |steps|
  {
    steps != [] ==> Possible(x, steps[0].h) && AllStepsPossible(After(x, steps[0]), steps[1..])
  }

  predicate AllStepsHarmless(x: Site, steps: seq<Step>)
    decreases |steps|
  {
    steps != [] ==> StepHarmless(x, steps[0]) && AllStepsHarmless(After(x, steps[0]), steps[1..])
  }

  ghost predicate SafeAllAlong(x: Site, steps: seq<Step>)
    decreases |steps|
  {
    Safe(x.server, x.store) && (steps != [] ==> SafeAllAlong(After(x, steps[0]), steps[1..]))
  }

  lemma StepIsSafeIff(x: Site, st: Step)
    requires Sound(x) && Safe(x.server, x.store) && Possible(x, st.h)
    ensures Sound(After(x, st)) && (Safe(After(x, st).server, After(x, st).store) <==> StepHarmless(x, st))
  {
    if st.Whole? {
      StepKeepsSafeIff(x, st.h);
      StepKeepsSound(x, st.h);
    } else {
      TornStepIsSafeIff(x, st.h, st.writes);
      TornStaysSound(x, st.h, st.writes);
    }
  }

  /**
   * In every run of steps, each completed or stopped between any two of its writes: the replica is safe all along if
   * and only if every step is harmless.
   */
  lemma {:induction false} InterruptedRunIsSafeIff(x: Site, steps: seq<Step>)
    requires Sound(x) && Safe(x.server, x.store) && AllStepsPossible(x, steps)
    ensures SafeAllAlong(x, steps) <==> AllStepsHarmless(x, steps)
    decreases |steps|
  {
    if steps != [] {
      StepIsSafeIff(x, steps[0]);
      if StepHarmless(x, steps[0]) {
        InterruptedRunIsSafeIff(After(x, steps[0]), steps[1..]);
      }
    }
  }

  // ---------------------------------------------------------------- the edit that is never sent

  lemma LwwStopsAfterLoop(s: Store, x: Clash)
    requires DistinctIds(s.mutations) && HasQueued(s.mutations, x.m.objectId)
    ensures WrittenAll(s, Part(LwwWrites(s, x), 2 + |Queued(s.mutations, x.m.objectId)|)) == LwwDropped(s, x)
  {
    var drops := Drops(Queued(s.mutations, x.m.objectId));
    LwwStartWritten(s, x);
    LwwDroppedWritten(s, x);
    QueuedSome(s.mutations, x.m.objectId);
    PartOfThree(s, LwwHeaded(s, x), LwwDropped(s, x), LwwStart(s, x), drops, LwwEnd(s, x), 2 + |drops|);
    assert Part(drops, |drops|) == drops;
  }

  lemma DroppedIsStranded(server: Server, s: Store, x: Clash)
    requires LocalSide(s, x) && Covered(server, s, x.m.objectId)
    requires x.m.envelope != server.objects[x.m.objectId].envelope
    ensures var o, s' := x.m.objectId, LwwDropped(s, x);
            && o in s'.objects && s'.objects[o].envelope == x.m.envelope
            && !HasQueued(s'.mutations, o) && !HoldsAt(server, s', o)
            && forall s'', later :: PulledTo(server, s', s'', later) ==> !Current(server, s'', o)
  {
    var o, s' := x.m.objectId, LwwDropped(s, x);
    QueuedAfterWithout(s.mutations, o, o);
    forall s'', later | PulledTo(server, s', s'', later) ensures !Current(server, s'', o) {
      RegressionIsPermanent(server, s', s'', o, later);
    }
  }

  /**
   * Last-write-wins for the local edit, stopped after the removal loop: the edit is the head and nothing is queued,
   * so it is never sent, and no pull on a quiet server brings the server's version.
   */
  lemma InterruptedLwwStrandsTheEdit(x: Site, pos: nat, a: Attempt)
    requires DistinctIds(x.store.mutations) && pos < |x.store.mutations|
    requires var m := x.store.mutations[pos];
             && IsRefused(x.server, m) && SettlesItself(m, RefusalTo(x.server, m), a)
             && LocalSide(x.store, ClashOf(m, RefusalTo(x.server, m), a))
             && Covered(x.server, x.store, m.objectId) && m.envelope != x.server.objects[m.objectId].envelope
    ensures var m := x.store.mutations[pos];
            var o, x' := m.objectId, Torn(x, PushQueued(pos, Delivered, a),
                                          3 + |Queued(x.store.mutations, m.objectId)|);
            && x'.server == x.server && o in x'.store.objects && x'.store.objects[o].envelope == m.envelope
            && !HasQueued(x'.store.mutations, o) && !HoldsAt(x'.server, x'.store, o)
            && forall s'', later :: PulledTo(x'.server, x'.store, s'', later) ==> !Current(x'.server, s'', o)
  {
    var m := x.store.mutations[pos];
    StrandedStore(x, pos, a);
    DroppedIsStranded(x.server, InFlightStore(x.store, m), ClashOf(m, RefusalTo(x.server, m), a));
  }

  lemma StrandedStore(x: Site, pos: nat, a: Attempt)
    requires DistinctIds(x.store.mutations) && pos < |x.store.mutations|
    requires var m := x.store.mutations[pos]; IsRefused(x.server, m) && SettlesItself(m, RefusalTo(x.server, m), a)
    ensures var m := x.store.mutations[pos];
            var dropped := LwwDropped(InFlightStore(x.store, m), ClashOf(m, RefusalTo(x.server, m), a));
            Torn(x, PushQueued(pos, Delivered, a), 3 + |Queued(x.store.mutations, m.objectId)|)
                == Site(x.server, dropped, [])
  {
    var m := x.store.mutations[pos];
    TornPushIs(x, pos, Delivered, a, 3 + |Queued(x.store.mutations, m.objectId)|);
    InFlightStands(x.store, m);
    LwwStopsAfterLoop(InFlightStore(x.store, m), ClashOf(m, RefusalTo(x.server, m), a));
  }
}
