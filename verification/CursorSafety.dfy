/**
 * What a replica may rely on while its client pulls, edits, pushes, settles conflicts and others push: every server
 * object at or below the cursor that has nothing queued is held at its current revision and content.
 *
 * Every step a client can take is a `Happening`. For each the exact condition is proved under which it keeps that
 * promise; two kinds of steps can break it, and a check the client could make rules both out.
 */
module CursorSafety {
  import opened Text
  import opened Protocol
  import opened Storage
  import opened SyncServer
  import opened Conflicts
  import opened SyncPull

  // ---------------------------------------------------------------- what is queued

  predicate HasQueued(ms: seq<PendingMutation>, id: string) {
    ms != [] && (ms[0].objectId == id || HasQueued(ms[1..], id))
  }

  /** Something other than mutation `k` is queued for object `id`. */
  predicate HasOther(ms: seq<PendingMutation>, k: string, id: string) {
    ms != [] && ((ms[0].mutationId != k && ms[0].objectId == id) || HasOther(ms[1..], k, id))
  }

  lemma {:induction false} MemberIsQueued(ms: seq<PendingMutation>, m: PendingMutation)
    requires m in ms
    ensures HasQueued(ms, m.objectId)
  {
    if ms[0] != m {
      assert m in ms[1..];
      MemberIsQueued(ms[1..], m);
    }
  }

  lemma {:induction false} QueuedAfterDrop(ms: seq<PendingMutation>, k: string, id: string)
    ensures HasQueued(DropIds(ms, {k}), id) <==> HasOther(ms, k, id)
  {
    if ms != [] {
      QueuedAfterDrop(ms[1..], k, id);
    }
  }

  lemma {:induction false} QueuedAfterWithout(ms: seq<PendingMutation>, objectId: string, id: string)
    ensures HasQueued(Without(ms, objectId), id) <==> id != objectId && HasQueued(ms, id)
  {
    if ms != [] {
      QueuedAfterWithout(ms[1..], objectId, id);
    }
  }

  lemma {:induction false} QueuedAfterAppend(ms: seq<PendingMutation>, q: PendingMutation, id: string)
    ensures HasQueued(ms + [q], id) <==> HasQueued(ms, id) || q.objectId == id
  {
    if ms == [] {
      assert ms + [q] == [q] && [q][1..] == [];
    } else {
      assert (ms + [q])[1..] == ms[1..] + [q];
      QueuedAfterAppend(ms[1..], q, id);
    }
  }

  lemma {:induction false} QueuedAfterStatus(ms: seq<PendingMutation>, k: string, status: MutationStatus, retries: nat,
                                             id: string)
    ensures HasQueued(WithStatus(ms, k, status, retries), id) <==> HasQueued(ms, id)
    ensures HasOther(WithStatus(ms, k, status, retries), k, id) <==> HasOther(ms, k, id)
  {
    if ms != [] {
      QueuedAfterStatus(ms[1..], k, status, retries, id);
    }
  }

  /** Mutations under id `k` belong to object `o`. */
  predicate Keyed(ms: seq<PendingMutation>, k: string, o: string) {
    ms == [] || ((ms[0].mutationId == k ==> ms[0].objectId == o) && Keyed(ms[1..], k, o))
  }

  lemma {:induction false} OthersAreOther(ms: seq<PendingMutation>, k: string, o: string, id: string)
    requires Keyed(ms, k, o) && id != o
    ensures HasOther(ms, k, id) <==> HasQueued(ms, id)
  {
    if ms != [] {
      OthersAreOther(ms[1..], k, o, id);
    }
  }

  lemma {:induction false} DistinctIsKeyed(ms: seq<PendingMutation>, m: PendingMutation)
    requires forall q :: q in ms && q.mutationId == m.mutationId ==> q.objectId == m.objectId
    ensures Keyed(ms, m.mutationId, m.objectId)
  {
    if ms != [] {
      assert ms[0] in ms;
      assert forall q :: q in ms[1..] ==> q in ms;
      DistinctIsKeyed(ms[1..], m);
    }
  }

  lemma {:induction false} KeyedAfterStatus(ms: seq<PendingMutation>, k: string, o: string, status: MutationStatus,
                                            retries: nat)
    requires Keyed(ms, k, o)
    ensures Keyed(WithStatus(ms, k, status, retries), k, o)
  {
    if ms != [] {
      KeyedAfterStatus(ms[1..], k, o, status, retries);
    }
  }

  // ---------------------------------------------------------------- safety

  predicate SameContent(o: StoredObject, c: ObjectChange) {
    o.revision == c.revision && o.isDeleted == c.isDeleted && o.envelope == c.envelope
  }

  predicate Covered(server: Server, s: Store, id: string) {
    id in server.objects && server.objects[id].serverSeq <= s.cursor
  }

  predicate Current(server: Server, s: Store, id: string) {
    id in server.objects && id in s.objects && SameContent(s.objects[id], server.objects[id])
  }

  predicate HoldsAt(server: Server, s: Store, id: string) {
    Covered(server, s, id) && !HasQueued(s.mutations, id) ==> Current(server, s, id)
  }

  /** Every server object at or below the cursor with nothing queued is held at its current revision and content. */
  ghost predicate Safe(server: Server, s: Store) {
    forall id :: HoldsAt(server, s, id)
  }

  /** Revision `revision` of `id` was at some time on the server with this content, and revisions do not repeat. */
  predicate WasVersion(server: Server, id: string, revision: nat, e: Envelope, isDeleted: bool) {
    && revision <= CurrentRevision(server, id)
    && (id in server.objects && revision == server.objects[id].revision ==>
          e == server.objects[id].envelope && isDeleted == server.objects[id].isDeleted)
  }

  predicate AnswerFits(server: Server, req: PushRequest, resp: PushResponse) {
    req.objectId in server.objects && WasVersion(server, req.objectId, resp.revision, req.envelope, req.isDeleted)
  }

  ghost predicate AnswersFit(server: Server) {
    forall k :: k in server.processed ==> AnswerFits(server, server.processed[k].0, server.processed[k].1)
  }

  predicate RecordFits(server: Server, c: ConflictRecord) {
    WasVersion(server, c.objectId, c.remoteRevision, c.remoteEnvelope, c.remoteIsDeleted)
  }

  /** Open conflict records quote versions the server has had. */
  ghost predicate RecordsFit(server: Server, conflicts: map<string, ConflictRecord>) {
    forall k :: k in conflicts && !conflicts[k].resolved ==> RecordFits(server, conflicts[k])
  }

  /** An injected failure is one of the transport, never a made-up conflict. */
  predicate HonestFailure(server: Server) {
    server.failNext.Some? ==> !server.failNext.value.Conflict?
  }

  const EMPTY_STORE := Store(map[], [], map[], 0, map[])

  datatype Site = Site(server: Server, store: Store, inbox: seq<ObjectChange>)

  /** A new client of a new account. */
  const NEW_SITE := Site(EMPTY_SERVER, EMPTY_STORE, [])

  /** What holds around every client, safe or not. */
  ghost predicate Sound(x: Site) {
    && SeqsFit(x.server) && AnswersFit(x.server) && HonestFailure(x.server)
    && x.store.cursor <= x.server.counter
    && InboxFits(x.server, x.store.cursor, x.inbox)
    && RecordsFit(x.server, x.store.conflicts)
    && DistinctIds(x.store.mutations)
  }

  // ---------------------------------------------------------------- what can happen

  /** A local edit, as the command line makes it: write the head one revision up, queue the mutation. */
  datatype Edit = Edit(id: string, kind: nat, envelope: Envelope, isDeleted: bool, mutationId: string, now: string)

  function EditMutation(s: Store, e: Edit): PendingMutation {
    PendingMutation(e.mutationId, e.id, if e.id in s.objects then s.objects[e.id].revision else 0, e.kind,
                    if e.isDeleted then Delete else Upsert, e.envelope, e.now, 0, Pending)
  }

  function Edited(s: Store, e: Edit): Store {
    var based := if e.id in s.objects then PutBase(s, e.id, s.objects[e.id].revision, s.objects[e.id].envelope) else s;
    var head := if e.id in s.objects
                then StoredObject(e.id, e.kind, s.objects[e.id].revision + 1, s.objects[e.id].serverSeq, e.isDeleted,
                                  e.envelope, e.now)
                else StoredObject(e.id, e.kind, 1, 0, e.isDeleted, e.envelope, e.now);
    PutObject(based, head).(mutations := s.mutations + [EditMutation(s, e)])
  }

  /** The object and its retained versions removed from this client only. */
  function Purged(s: Store, id: string): Store {
    s.(objects := s.objects - {id}, bases := map k | k in s.bases && k.0 != id :: s.bases[k])
  }

  datatype Happening =
    | OnServer(e: Event)
    | Fetch(limit: nat, listing: seq<ObjectChange>)
    | ApplyOne(now: string)
    | Crash
    | LocalEdit(edit: Edit)
    | PushQueued(pos: nat, fate: Fate, a: Attempt)
    | Decide(conflictId: string, strategy: Strategy, retryId: string, now: string)
    | Purge(id: string)

  /** Listings are those of the server as it is, mutation ids are new, and a copy goes to another object. */
  ghost predicate Possible(x: Site, h: Happening) {
    match h
    case OnServer(e) => HonestFailure(Next(x.server, e))
    case Fetch(_, listing) => IsListing(x.server.objects, x.store.cursor, listing)
    case ApplyOne(_) => x.inbox != []
    case LocalEdit(e) => e.mutationId !in Ids(x.store.mutations)
    case PushQueued(pos, _, a) => pos < |x.store.mutations| && a.retryId !in Ids(x.store.mutations)
    case Decide(id, strategy, retryId, _) =>
      && retryId !in Ids(x.store.mutations)
      && (strategy.Duplicate? && id in x.store.conflicts ==> strategy.newObjectId != x.store.conflicts[id].objectId)
    case _ => true
  }

  function Happen(x: Site, h: Happening): Site {
    match h
    case OnServer(e) => x.(server := Next(x.server, e))
    case Fetch(limit, listing) => x.(inbox := Take(listing, limit))
    case ApplyOne(now) =>
      if x.inbox == [] then x else x.(store := Applied(x.store, x.inbox[0], now), inbox := x.inbox[1..])
    case Crash => x.(inbox := [])
    case LocalEdit(e) => x.(store := Edited(x.store, e))
    case PushQueued(pos, fate, a) =>
      if pos >= |x.store.mutations| then x
      else
        var m := x.store.mutations[pos];
        x.(server := ServerAfter(x.server, m, fate), store := StoreAfter(x.server, x.store, m, fate, a))
    case Decide(id, strategy, retryId, now) =>
      if StrategyError(x.store, id, strategy).Some? then x
      else x.(store := Resolved(x.store, id, strategy, retryId, now))
    case Purge(id) => if id in x.store.objects then x.(store := Purged(x.store, id)) else x
  }

  // ---------------------------------------------------------------- the exact conditions

  /** The server has answered this very mutation before and answers it again. */
  predicate Replayed(server: Server, m: PendingMutation) {
    && server.failNext.None? && m.mutationId in server.processed
    && SameRequest(server.processed[m.mutationId].0, RequestOf(m))
  }

  /** Writing revision `revision` of `id` over the head does no harm: it is current, or not relied on. */
  predicate NotRelied(server: Server, s: Store, id: string, revision: nat) {
    !Covered(server, s, id) || revision == server.objects[id].revision
  }

  /** Nobody relies on the head of `id`: it is not covered, or something is queued. */
  predicate NothingRelied(server: Server, s: Store, id: string) {
    Covered(server, s, id) ==> HasQueued(s.mutations, id)
  }

  /** Acknowledging a replayed answer: nothing newer is relied on, or something else is still queued. */
  predicate ReplayHarmless(server: Server, s: Store, m: PendingMutation) {
    Replayed(server, m) ==>
      || NotRelied(server, s, m.objectId, server.processed[m.mutationId].1.revision)
      || HasOther(s.mutations, m.mutationId, m.objectId)
  }

  predicate DecisionHarmless(server: Server, s: Store, conflictId: string, strategy: Strategy) {
    StrategyError(s, conflictId, strategy).None? && TakesRemote(strategy) ==>
      NotRelied(server, s, s.conflicts[conflictId].objectId, s.conflicts[conflictId].remoteRevision)
  }

  /** Exactly when a step keeps safety. */
  predicate Harmless(x: Site, h: Happening) {
    match h
    case PushQueued(pos, fate, _) =>
      pos < |x.store.mutations| && fate.Delivered? ==> ReplayHarmless(x.server, x.store, x.store.mutations[pos])
    case Decide(id, strategy, _, _) => DecisionHarmless(x.server, x.store, id, strategy)
    case Purge(id) => id in x.store.objects ==> NothingRelied(x.server, x.store, id)
    case _ => true
  }

  // ---------------------------------------------------------------- the server moves on

  lemma VersionStays(server: Server, e: Event, id: string, revision: nat, env: Envelope, isDeleted: bool)
    requires WasVersion(server, id, revision, env, isDeleted)
    ensures WasVersion(Next(server, e), id, revision, env, isDeleted)
  {}

  lemma AnswersStayFit(server: Server, e: Event)
    requires AnswersFit(server)
    ensures AnswersFit(Next(server, e))
  {
    var server' := Next(server, e);
    forall k | k in server'.processed ensures AnswerFits(server', server'.processed[k].0, server'.processed[k].1) {
      if k in server.processed {
        var (req, resp) := server.processed[k];
        assert AnswerFits(server, req, resp);
        VersionStays(server, e, req.objectId, resp.revision, req.envelope, req.isDeleted);
        assert server'.processed[k] == server.processed[k];
      }
    }
  }

  lemma RecordsStayFit(server: Server, e: Event, conflicts: map<string, ConflictRecord>)
    requires RecordsFit(server, conflicts)
    ensures RecordsFit(Next(server, e), conflicts)
  {
    forall k | k in conflicts && !conflicts[k].resolved ensures RecordFits(Next(server, e), conflicts[k]) {
      var c := conflicts[k];
      assert RecordFits(server, c);
      VersionStays(server, e, c.objectId, c.remoteRevision, c.remoteEnvelope, c.remoteIsDeleted);
    }
  }

  lemma LastSeqIsKnown(server: Server, cursor: nat, inbox: seq<ObjectChange>)
    requires InboxFits(server, cursor, inbox) && cursor <= server.counter
    ensures LastSeq(inbox, cursor) <= server.counter
  {
    if inbox != [] {
      assert inbox[|inbox| - 1] in inbox;
    }
  }

  lemma ServerEventKeepsSound(x: Site, e: Event)
    requires Sound(x) && HonestFailure(Next(x.server, e))
    ensures Sound(x.(server := Next(x.server, e))) && Grown(x.server, Next(x.server, e))
  {
    ServerEventKeepsSeqs(x.server, e);
    AnswersStayFit(x.server, e);
    RecordsStayFit(x.server, e, x.store.conflicts);
    LastSeqIsKnown(x.server, x.store.cursor, x.inbox);
    GrowthKeepsInbox(x.server, Next(x.server, e), x.store.cursor, x.inbox);
  }

  lemma GrowthKeepsHold(a: Server, b: Server, s: Store, id: string)
    requires Grown(a, b) && s.cursor <= a.counter && HoldsAt(a, s, id)
    ensures HoldsAt(b, s, id)
  {}

  // ---------------------------------------------------------------- steps touch one object

  /** For `id` nothing a reader relies on differs. */
  predicate Untouched(s: Store, s': Store, id: string) {
    && s'.cursor == s.cursor
    && (id in s'.objects <==> id in s.objects) && (id in s.objects ==> s'.objects[id] == s.objects[id])
    && (HasQueued(s'.mutations, id) <==> HasQueued(s.mutations, id))
  }

  lemma UntouchedHolds(server: Server, s: Store, s': Store, id: string)
    requires Untouched(s, s', id)
    ensures HoldsAt(server, s', id) <==> HoldsAt(server, s, id)
  {}

  lemma MarkedUntouched(s: Store, m: PendingMutation, status: MutationStatus, retries: nat, id: string)
    ensures Untouched(s, Marked(s, m, status, retries), id)
  {
    QueuedAfterStatus(s.mutations, m.mutationId, status, retries, id);
  }

  lemma AckUntouched(s: Store, m: PendingMutation, resp: PushResponse, now: string, id: string)
    requires Keyed(s.mutations, m.mutationId, m.objectId) && id != m.objectId
    ensures Untouched(s, Acknowledged(s, m, resp, now), id)
  {
    QueuedAfterDrop(s.mutations, m.mutationId, id);
    OthersAreOther(s.mutations, m.mutationId, m.objectId, id);
  }

  lemma LwwUntouched(s: Store, x: Clash, id: string)
    requires id != x.m.objectId
    ensures Untouched(s, Lww(s, x), id)
  {
    var others := Without(s.mutations, x.m.objectId);
    var retry := Retry(x.retryId, x.m.objectId, x.m.objectKind, Upsert, x.m.envelope, x.c.currentRevision, x.now);
    QueuedAfterWithout(s.mutations, x.m.objectId, id);
    QueuedAfterAppend(others, retry, id);
  }

  lemma ConflictUntouched(s: Store, m: PendingMutation, c: ConflictResponse, a: Attempt, id: string)
    requires id != m.objectId
    ensures Untouched(s, OnConflict(s, m, c, a), id)
  {
    if SettlesItself(m, c, a) {
      LwwUntouched(s, Clash(m, c, a.key, a.retryId, a.conflictId, a.now), id);
    } else {
      MarkedUntouched(s, m, Pending, m.retryCount + 1, id);
    }
  }

  lemma HandledUntouched(s: Store, m: PendingMutation, outcome: Outcome<PushResponse>, a: Attempt, id: string)
    requires Keyed(s.mutations, m.mutationId, m.objectId) && id != m.objectId
    ensures Untouched(s, Handled(s, m, outcome, a), id)
  {
    match outcome
    case Ok(resp) => AckUntouched(s, m, resp, a.now, id);
    case Err(Conflict(c)) => ConflictUntouched(s, m, c, a, id);
    case Err(_) =>
      MarkedUntouched(s, m, Pending, m.retryCount + 1, id);
      MarkedUntouched(s, m, Failed, m.retryCount + 1, id);
  }

  lemma QueueIsKeyed(s: Store, m: PendingMutation)
    requires DistinctIds(s.mutations) && m in s.mutations
    ensures Keyed(s.mutations, m.mutationId, m.objectId)
            && Keyed(InFlightStore(s, m).mutations, m.mutationId, m.objectId)
  {
    forall q | q in s.mutations && q.mutationId == m.mutationId ensures q.objectId == m.objectId {
      UniqueById(s.mutations, q, m);
    }
    DistinctIsKeyed(s.mutations, m);
    KeyedAfterStatus(s.mutations, m.mutationId, m.objectId, InFlight, m.retryCount + 1);
  }

  lemma PushUntouched(server: Server, s: Store, m: PendingMutation, fate: Fate, a: Attempt, id: string)
    requires DistinctIds(s.mutations) && m in s.mutations && id != m.objectId
    ensures Untouched(s, StoreAfter(server, s, m, fate, a), id)
  {
    QueueIsKeyed(s, m);
    MarkedUntouched(s, m, InFlight, m.retryCount + 1, id);
    HandledUntouched(InFlightStore(s, m), m, AnswerTo(server, m, fate), a, id);
  }

  // ---------------------------------------------------------------- a push, seen from its own object

  /** The mutation is still queued, so nothing is promised. */
  lemma StillQueued(s: Store, m: PendingMutation, status: MutationStatus)
    requires m in s.mutations
    ensures HasQueued(Marked(InFlightStore(s, m), m, status, m.retryCount + 1).mutations, m.objectId)
  {
    MemberIsQueued(s.mutations, m);
    MarkedUntouched(s, m, InFlight, m.retryCount + 1, m.objectId);
    MarkedUntouched(InFlightStore(s, m), m, status, m.retryCount + 1, m.objectId);
  }

  /** The remote version was current when it came with the refusal; otherwise a retry is queued. */
  lemma LwwHolds(server: Server, s: Store, x: Clash)
    requires x.c == ConflictFor(server, RequestOf(x.m)) && !x.c.isDeleted
    ensures HoldsAt(server, Lww(s, x), x.m.objectId)
  {
    var others := Without(s.mutations, x.m.objectId);
    var retry := Retry(x.retryId, x.m.objectId, x.m.objectKind, Upsert, x.m.envelope, x.c.currentRevision, x.now);
    QueuedAfterAppend(others, retry, x.m.objectId);
  }

  lemma RefusedHolds(server: Server, s: Store, m: PendingMutation, a: Attempt)
    requires m in s.mutations
    ensures HoldsAt(server, OnConflict(InFlightStore(s, m), m, ConflictFor(server, RequestOf(m)), a), m.objectId)
  {
    var c := ConflictFor(server, RequestOf(m));
    if SettlesItself(m, c, a) {
      LwwHolds(server, InFlightStore(s, m), Clash(m, c, a.key, a.retryId, a.conflictId, a.now));
    } else {
      StillQueued(s, m, Pending);
    }
  }

  lemma AckQueue(s: Store, m: PendingMutation, resp: PushResponse, now: string)
    ensures HasQueued(Acknowledged(InFlightStore(s, m), m, resp, now).mutations, m.objectId)
            <==> HasOther(s.mutations, m.mutationId, m.objectId)
  {
    QueuedAfterStatus(s.mutations, m.mutationId, InFlight, m.retryCount + 1, m.objectId);
    QueuedAfterDrop(InFlightStore(s, m).mutations, m.mutationId, m.objectId);
  }

  lemma ReplayHoldsIff(server: Server, s: Store, m: PendingMutation, now: string)
    requires AnswersFit(server) && Replayed(server, m)
    ensures var resp := server.processed[m.mutationId].1;
            HoldsAt(server, Acknowledged(InFlightStore(s, m), m, resp, now), m.objectId)
            <==> ReplayHarmless(server, s, m)
  {
    var (req, resp) := server.processed[m.mutationId];
    assert AnswerFits(server, req, resp);
    AckQueue(s, m, resp, now);
  }

  lemma PushHoldsIff(server: Server, s: Store, m: PendingMutation, fate: Fate, a: Attempt)
    requires AnswersFit(server) && HonestFailure(server) && s.cursor <= server.counter && m in s.mutations
    ensures HoldsAt(ServerAfter(server, m, fate), StoreAfter(server, s, m, fate, a), m.objectId)
            <==> (fate.Delivered? ==> ReplayHarmless(server, s, m))
  {
    StillQueued(s, m, Pending);
    StillQueued(s, m, Failed);
    if fate.Delivered? {
      if Replayed(server, m) {
        ReplayHoldsIff(server, s, m, a.now);
      } else if server.failNext.None? && m.mutationId !in server.processed && !IsFresh(server, RequestOf(m)) {
        RefusedHolds(server, s, m, a);
      }
    }
  }

  // ---------------------------------------------------------------- a decision, seen from its objects

  lemma ChosenUntouched(s: Store, c: ConflictRecord, strategy: Strategy, now: string, id: string)
    requires id != c.objectId && (strategy.Merge? ==> strategy.sealed.Some?)
    ensures Untouched(s, Chosen(s, c, strategy, now), id)
  {
    QueuedAfterWithout(s.mutations, c.objectId, id);
  }

  lemma ResolvedUntouched(s: Store, conflictId: string, strategy: Strategy, retryId: string, now: string, id: string)
    requires StrategyError(s, conflictId, strategy).None? && id != s.conflicts[conflictId].objectId
    requires strategy.Duplicate? && CopyError(strategy).None? ==> id != strategy.newObjectId
    ensures Untouched(s, Resolved(s, conflictId, strategy, retryId, now), id)
  {
    var c := s.conflicts[conflictId];
    var chosen := Chosen(s, c, strategy, now);
    ChosenUntouched(s, c, strategy, now, id);
    if CopyError(strategy).None? {
      if strategy.Duplicate? {
        QueuedAfterAppend(chosen.mutations, CopyRetry(c, strategy.newObjectId, strategy.copy.envelope, retryId, now),
                          id);
      } else {
        QueuedAfterAppend(chosen.mutations, ResolutionRetry(c, strategy, retryId, now), id);
      }
    }
  }

  /** The copy is queued. */
  lemma CopyHolds(server: Server, s: Store, conflictId: string, strategy: Strategy, retryId: string, now: string)
    requires StrategyError(s, conflictId, strategy).None? && strategy.Duplicate? && CopyError(strategy).None?
    ensures HoldsAt(server, Resolved(s, conflictId, strategy, retryId, now), strategy.newObjectId)
  {
    var c := s.conflicts[conflictId];
    QueuedAfterAppend(Chosen(s, c, strategy, now).mutations,
                      CopyRetry(c, strategy.newObjectId, strategy.copy.envelope, retryId, now), strategy.newObjectId);
  }

  /** Whether the conflict's own object has something queued afterwards. */
  lemma ResolvedQueue(s: Store, conflictId: string, strategy: Strategy, retryId: string, now: string)
    requires StrategyError(s, conflictId, strategy).None?
    requires strategy.Duplicate? ==> strategy.newObjectId != s.conflicts[conflictId].objectId
    ensures HasQueued(Resolved(s, conflictId, strategy, retryId, now).mutations, s.conflicts[conflictId].objectId)
            <==> !TakesRemote(strategy)
  {
    var c := s.conflicts[conflictId];
    var chosen := Chosen(s, c, strategy, now);
    QueuedAfterWithout(s.mutations, c.objectId, c.objectId);
    if CopyError(strategy).None? {
      if strategy.Duplicate? {
        QueuedAfterAppend(chosen.mutations, CopyRetry(c, strategy.newObjectId, strategy.copy.envelope, retryId, now),
                          c.objectId);
      } else {
        QueuedAfterAppend(chosen.mutations, ResolutionRetry(c, strategy, retryId, now), c.objectId);
      }
    }
  }

  lemma DecisionHoldsIff(server: Server, s: Store, conflictId: string, strategy: Strategy, retryId: string, now: string)
    requires RecordsFit(server, s.conflicts) && StrategyError(s, conflictId, strategy).None?
    requires strategy.Duplicate? ==> strategy.newObjectId != s.conflicts[conflictId].objectId
    ensures HoldsAt(server, Resolved(s, conflictId, strategy, retryId, now), s.conflicts[conflictId].objectId)
            <==> DecisionHarmless(server, s, conflictId, strategy)
  {
    var c := s.conflicts[conflictId];
    assert RecordFits(server, c);
    ResolvedQueue(s, conflictId, strategy, retryId, now);
    ResolvedHead(s, conflictId, strategy, retryId, now);
  }

  lemma ResolvedHead(s: Store, conflictId: string, strategy: Strategy, retryId: string, now: string)
    requires StrategyError(s, conflictId, strategy).None?
    requires strategy.Duplicate? ==> strategy.newObjectId != s.conflicts[conflictId].objectId
    ensures var c, s' := s.conflicts[conflictId], Resolved(s, conflictId, strategy, retryId, now);
            && s'.cursor == s.cursor && c.objectId in s'.objects
            && s'.objects[c.objectId].revision == c.remoteRevision
            && (TakesRemote(strategy) ==> s'.objects[c.objectId].envelope == c.remoteEnvelope
                                          && s'.objects[c.objectId].isDeleted == c.remoteIsDeleted)
  {}

  // ---------------------------------------------------------------- every step

  lemma AppliedHolds(server: Server, s: Store, inbox: seq<ObjectChange>, now: string, id: string)
    requires InboxFits(server, s.cursor, inbox) && inbox != [] && SeqsFit(server) && HoldsAt(server, s, id)
    ensures HoldsAt(server, Applied(s, inbox[0], now), id)
  {
    assert inbox[0] in inbox;
    if Covered(server, Applied(s, inbox[0], now), id) && !Covered(server, s, id) {
      FirstIsNext(server, s.cursor, inbox, id);
    }
  }

  lemma EditHolds(server: Server, s: Store, e: Edit, id: string)
    requires HoldsAt(server, s, id)
    ensures HoldsAt(server, Edited(s, e), id)
  {
    QueuedAfterAppend(s.mutations, EditMutation(s, e), id);
  }

  lemma PushKeepsSafeIff(x: Site, pos: nat, fate: Fate, a: Attempt)
    requires Sound(x) && Safe(x.server, x.store) && Possible(x, PushQueued(pos, fate, a))
    ensures var x' := Happen(x, PushQueued(pos, fate, a));
            Safe(x'.server, x'.store) <==> Harmless(x, PushQueued(pos, fate, a))
  {
    var m := x.store.mutations[pos];
    var x' := Happen(x, PushQueued(pos, fate, a));
    PushHoldsIff(x.server, x.store, m, fate, a);
    ServerAfterGrows(x, m, fate);
    forall id | id != m.objectId ensures HoldsAt(x'.server, x'.store, id) {
      PushUntouched(x.server, x.store, m, fate, a, id);
      GrowthKeepsHold(x.server, x'.server, x.store, id);
      UntouchedHolds(x'.server, x.store, x'.store, id);
    }
    assert HoldsAt(x'.server, x'.store, m.objectId) <==> Harmless(x, PushQueued(pos, fate, a));
  }

  lemma ServerAfterGrows(x: Site, m: PendingMutation, fate: Fate)
    requires Sound(x)
    ensures Sound(x.(server := ServerAfter(x.server, m, fate))) && Grown(x.server, ServerAfter(x.server, m, fate))
  {
    if !fate.RequestLost? {
      ServerEventKeepsSound(x, PushEvent(RequestOf(m)));
    }
  }

  lemma DecisionKeepsSafeIff(x: Site, conflictId: string, strategy: Strategy, retryId: string, now: string)
    requires Sound(x) && Safe(x.server, x.store) && Possible(x, Decide(conflictId, strategy, retryId, now))
    ensures Safe(x.server, Happen(x, Decide(conflictId, strategy, retryId, now)).store)
            <==> Harmless(x, Decide(conflictId, strategy, retryId, now))
  {
    if StrategyError(x.store, conflictId, strategy).None? {
      var s' := Resolved(x.store, conflictId, strategy, retryId, now);
      var o := x.store.conflicts[conflictId].objectId;
      DecisionHoldsIff(x.server, x.store, conflictId, strategy, retryId, now);
      forall id | id != o ensures HoldsAt(x.server, s', id) {
        if strategy.Duplicate? && CopyError(strategy).None? && id == strategy.newObjectId {
          CopyHolds(x.server, x.store, conflictId, strategy, retryId, now);
        } else {
          ResolvedUntouched(x.store, conflictId, strategy, retryId, now, id);
          UntouchedHolds(x.server, x.store, s', id);
        }
      }
      assert HoldsAt(x.server, s', o) <==> Harmless(x, Decide(conflictId, strategy, retryId, now));
    }
  }

  lemma PurgeKeepsSafeIff(x: Site, id: string)
    requires Safe(x.server, x.store)
    ensures Safe(x.server, Happen(x, Purge(id)).store) <==> Harmless(x, Purge(id))
  {
    var s' := Happen(x, Purge(id)).store;
    forall other | other != id ensures HoldsAt(x.server, s', other) {
      UntouchedHolds(x.server, x.store, s', other);
    }
    assert HoldsAt(x.server, x.store, id);
    assert HoldsAt(x.server, s', id) <==> Harmless(x, Purge(id));
  }

  /** For every step of every kind: it keeps safety if and only if it is harmless. */
  lemma StepKeepsSafeIff(x: Site, h: Happening)
    requires Sound(x) && Safe(x.server, x.store) && Possible(x, h)
    ensures Safe(Happen(x, h).server, Happen(x, h).store) <==> Harmless(x, h)
  {
    match h
    case OnServer(e) =>
      ServerEventKeepsSound(x, e);
      forall id ensures HoldsAt(Next(x.server, e), x.store, id) {
        GrowthKeepsHold(x.server, Next(x.server, e), x.store, id);
      }
    case ApplyOne(now) =>
      forall id ensures HoldsAt(x.server, Applied(x.store, x.inbox[0], now), id) {
        AppliedHolds(x.server, x.store, x.inbox, now, id);
      }
    case LocalEdit(e) =>
      forall id ensures HoldsAt(x.server, Edited(x.store, e), id) {
        EditHolds(x.server, x.store, e, id);
      }
    case PushQueued(pos, fate, a) => PushKeepsSafeIff(x, pos, fate, a);
    case Decide(id, strategy, retryId, now) => DecisionKeepsSafeIff(x, id, strategy, retryId, now);
    case Purge(id) => PurgeKeepsSafeIff(x, id);
    case Fetch(_, _) =>
    case Crash =>
  }

  // ---------------------------------------------------------------- soundness

  lemma OneMoreRecordFits(server: Server, conflicts: map<string, ConflictRecord>, c: ConflictRecord)
    requires RecordsFit(server, conflicts) && (!c.resolved ==> RecordFits(server, c))
    ensures RecordsFit(server, conflicts[c.conflictId := c])
  {}

  lemma RefusedRecordsFit(server: Server, s: Store, m: PendingMutation, a: Attempt)
    requires RecordsFit(server, s.conflicts)
    ensures RecordsFit(server, OnConflict(s, m, ConflictFor(server, RequestOf(m)), a).conflicts)
  {
    var c := ConflictFor(server, RequestOf(m));
    if SettlesItself(m, c, a) {
      var x := Clash(m, c, a.key, a.retryId, a.conflictId, a.now);
      var winner := if LocalSide(s, x) then m.envelope else c.currentEnvelope;
      OneMoreRecordFits(server, s.conflicts, LwwRecord(s, m, c, a.conflictId, winner, a.now));
    } else {
      var record := RecordOf(Marked(s, m, Pending, m.retryCount + 1), m, c, a.merge, a.conflictId, a.now);
      OneMoreRecordFits(server, s.conflicts, record);
    }
  }

  /** Whatever the answer, open records quote versions of the server: a new one quotes the current version. */
  lemma HandledRecordsFit(server: Server, s: Store, m: PendingMutation, fate: Fate, a: Attempt)
    requires RecordsFit(server, s.conflicts) && HonestFailure(server)
    ensures RecordsFit(server, StoreAfter(server, s, m, fate, a).conflicts)
  {
    if fate.Delivered? && server.failNext.None? && m.mutationId !in server.processed && !IsFresh(server, RequestOf(m)) {
      RefusedRecordsFit(server, InFlightStore(s, m), m, a);
    }
  }

  lemma PushKeepsSound(x: Site, pos: nat, fate: Fate, a: Attempt)
    requires Sound(x) && Possible(x, PushQueued(pos, fate, a))
    ensures Sound(Happen(x, PushQueued(pos, fate, a)))
  {
    var m := x.store.mutations[pos];
    HandledRecordsFit(x.server, x.store, m, fate, a);
    StatusStaysDistinct(x.store, m, InFlight, m.retryCount + 1);
    HandledStaysDistinct(InFlightStore(x.store, m), m, AnswerTo(x.server, m, fate), a);
    ServerAfterGrows(x.(store := x.store.(conflicts := StoreAfter(x.server, x.store, m, fate, a).conflicts)), m, fate);
  }

  lemma ResolvedStaysDistinct(s: Store, conflictId: string, strategy: Strategy, retryId: string, now: string)
    requires StrategyError(s, conflictId, strategy).None? && DistinctIds(s.mutations) && retryId !in Ids(s.mutations)
    ensures DistinctIds(Resolved(s, conflictId, strategy, retryId, now).mutations)
  {
    var c := s.conflicts[conflictId];
    var others := Without(s.mutations, c.objectId);
    WithoutStaysDistinct(s.mutations, c.objectId);
    FreshAfterRemoval(s.mutations, c.objectId, retryId);
    if CopyError(strategy).None? && strategy.Duplicate? {
      AppendStaysDistinct(others, CopyRetry(c, strategy.newObjectId, strategy.copy.envelope, retryId, now));
    } else if !TakesRemote(strategy) {
      AppendStaysDistinct(others, ResolutionRetry(c, strategy, retryId, now));
    }
  }

  lemma ResolvedRecordsFit(server: Server, s: Store, conflictId: string, strategy: Strategy, retryId: string,
                           now: string)
    requires StrategyError(s, conflictId, strategy).None? && RecordsFit(server, s.conflicts)
    ensures RecordsFit(server, Resolved(s, conflictId, strategy, retryId, now).conflicts)
    ensures Resolved(s, conflictId, strategy, retryId, now).cursor == s.cursor
  {}

  /** Every step keeps what does not depend on safety. */
  lemma StepKeepsSound(x: Site, h: Happening)
    requires Sound(x) && Possible(x, h)
    ensures Sound(Happen(x, h))
  {
    match h
    case OnServer(e) => ServerEventKeepsSound(x, e);
    case Fetch(limit, listing) => FetchedPageFits(x.server, x.store.cursor, listing, limit);
    case ApplyOne(now) =>
      assert x.inbox[0] in x.inbox;
      ApplyKeepsInbox(x.server, x.store.cursor, x.inbox);
    case Crash =>
    case LocalEdit(e) => AppendStaysDistinct(x.store.mutations, EditMutation(x.store, e));
    case PushQueued(pos, fate, a) => PushKeepsSound(x, pos, fate, a);
    case Decide(id, strategy, retryId, now) =>
      if StrategyError(x.store, id, strategy).None? {
        ResolvedStaysDistinct(x.store, id, strategy, retryId, now);
        ResolvedRecordsFit(x.server, x.store, id, strategy, retryId, now);
      }
    case Purge(_) =>
  }

  // ---------------------------------------------------------------- whole runs

  function HappenAll(x: Site, hs: seq<Happening>): Site
    decreases |hs|
  {
    if hs == [] then x else HappenAll(Happen(x, hs[0]), hs[1..])
  }

  ghost predicate AllPossible(x: Site, hs: seq<Happening>)
    decreases |hs|
  {
    hs != [] ==> Possible(x, hs[0]) && AllPossible(Happen(x, hs[0]), hs[1..])
  }

  predicate AllHarmless(x: Site, hs: seq<Happening>)
    decreases |hs|
  {
    hs != [] ==> Harmless(x, hs[0]) && AllHarmless(Happen(x, hs[0]), hs[1..])
  }

  /** Safe before, between and after all steps. */
  ghost predicate SafeThroughout(x: Site, hs: seq<Happening>)
    decreases |hs|
  {
    Safe(x.server, x.store) && (hs != [] ==> SafeThroughout(Happen(x, hs[0]), hs[1..]))
  }

  /**
   * In every run of server events, pages, applications, crashes, local edits, pushes with any answer or none,
   * decisions of any kind and purges: the replica is safe all along if and only if every step is harmless.
   */
  lemma {:induction false} RunIsSafeIff(x: Site, hs: seq<Happening>)
    requires Sound(x) && Safe(x.server, x.store) && AllPossible(x, hs)
    ensures SafeThroughout(x, hs) <==> AllHarmless(x, hs)
    decreases |hs|
  {
    if hs != [] {
      StepKeepsSafeIff(x, hs[0]);
      StepKeepsSound(x, hs[0]);
      if Harmless(x, hs[0]) {
        RunIsSafeIff(Happen(x, hs[0]), hs[1..]);
      }
    }
  }

  // ---------------------------------------------------------------- a check the client can make

  predicate NotBehindAt(server: Server, s: Store, id: string) {
    Covered(server, s, id) ==> id in s.objects && s.objects[id].revision >= server.objects[id].revision
  }

  /** What lies at or below the cursor is held at no lower revision, queued or not. */
  ghost predicate NotBehind(server: Server, s: Store) {
    forall id :: NotBehindAt(server, s, id)
  }

  predicate NotLowered(s: Store, id: string, revision: nat) {
    id in s.objects ==> s.objects[id].revision <= revision
  }

  /**
   * The check, on the client's own store and the answer at hand: neither an acknowledgement nor a decision lowers
   * the revision held, a copy goes to an object not held, and nothing held is purged.
   */
  predicate Forward(x: Site, h: Happening) {
    match h
    case PushQueued(pos, fate, _) =>
      pos < |x.store.mutations| && fate.Delivered? && Replayed(x.server, x.store.mutations[pos]) ==>
        var m := x.store.mutations[pos];
        NotLowered(x.store, m.objectId, x.server.processed[m.mutationId].1.revision)
    case Decide(id, strategy, _, _) =>
      StrategyError(x.store, id, strategy).None? ==>
        && NotLowered(x.store, x.store.conflicts[id].objectId, x.store.conflicts[id].remoteRevision)
        && (strategy.Duplicate? ==> strategy.newObjectId !in x.store.objects)
    case Purge(id) => id !in x.store.objects
    case _ => true
  }

  lemma ForwardIsHarmless(x: Site, h: Happening)
    requires Sound(x) && NotBehind(x.server, x.store) && Forward(x, h)
    ensures Harmless(x, h)
  {
    match h
    case PushQueued(pos, fate, _) =>
      if pos < |x.store.mutations| && fate.Delivered? && Replayed(x.server, x.store.mutations[pos]) {
        var m := x.store.mutations[pos];
        var (req, resp) := x.server.processed[m.mutationId];
        assert AnswerFits(x.server, req, resp) && NotBehindAt(x.server, x.store, m.objectId);
      }
    case Decide(id, strategy, _, _) =>
      if StrategyError(x.store, id, strategy).None? {
        assert RecordFits(x.server, x.store.conflicts[id]);
        assert NotBehindAt(x.server, x.store, x.store.conflicts[id].objectId);
      }
    case _ =>
  }

  lemma UntouchedNotBehind(server: Server, s: Store, s': Store, id: string)
    requires Untouched(s, s', id) && NotBehindAt(server, s, id)
    ensures NotBehindAt(server, s', id)
  {}

  lemma GrowthKeepsNotBehind(a: Server, b: Server, s: Store, id: string)
    requires Grown(a, b) && s.cursor <= a.counter && NotBehindAt(a, s, id)
    ensures NotBehindAt(b, s, id)
  {}

  lemma RefusedNotBehind(server: Server, s: Store, m: PendingMutation, a: Attempt)
    requires NotBehindAt(server, s, m.objectId)
    ensures NotBehindAt(server, OnConflict(s, m, ConflictFor(server, RequestOf(m)), a), m.objectId)
  {
    MarkedUntouched(s, m, Pending, m.retryCount + 1, m.objectId);
  }

  lemma AnsweredNotBehind(server: Server, s: Store, m: PendingMutation, a: Attempt)
    requires NotBehindAt(server, s, m.objectId) && s.cursor <= server.counter && HonestFailure(server)
    requires Replayed(server, m) ==> NotRelied(server, s, m.objectId, server.processed[m.mutationId].1.revision)
    ensures NotBehindAt(ServerAfter(server, m, Delivered), Handled(s, m, AnswerTo(server, m, Delivered), a), m.objectId)
  {
    MarkedUntouched(s, m, Pending, m.retryCount + 1, m.objectId);
    MarkedUntouched(s, m, Failed, m.retryCount + 1, m.objectId);
    if server.failNext.None? && m.mutationId !in server.processed && !IsFresh(server, RequestOf(m)) {
      RefusedNotBehind(server, s, m, a);
    }
  }

  lemma PushNotBehind(x: Site, pos: nat, fate: Fate, a: Attempt)
    requires Sound(x) && NotBehind(x.server, x.store) && Possible(x, PushQueued(pos, fate, a))
    requires Forward(x, PushQueued(pos, fate, a))
    ensures var x' := Happen(x, PushQueued(pos, fate, a)); NotBehind(x'.server, x'.store)
  {
    var m := x.store.mutations[pos];
    var x' := Happen(x, PushQueued(pos, fate, a));
    ServerAfterGrows(x, m, fate);
    forall id ensures NotBehindAt(x'.server, x'.store, id) {
      assert NotBehindAt(x.server, x.store, id);
      GrowthKeepsNotBehind(x.server, x'.server, x.store, id);
      if id != m.objectId {
        PushUntouched(x.server, x.store, m, fate, a, id);
        UntouchedNotBehind(x'.server, x.store, x'.store, id);
      } else {
        OwnPushNotBehind(x, m, fate, a);
      }
    }
  }

  lemma LostNotBehind(a: Server, b: Server, s: Store, m: PendingMutation, id: string)
    requires Grown(a, b) && s.cursor <= a.counter && NotBehindAt(a, s, id)
    ensures NotBehindAt(b, Marked(s, m, Pending, m.retryCount + 1), id)
  {
    MarkedUntouched(s, m, Pending, m.retryCount + 1, id);
    GrowthKeepsNotBehind(a, b, s, id);
  }

  lemma InFlightNotBehind(server: Server, s: Store, m: PendingMutation, id: string)
    requires NotBehindAt(server, s, id)
    ensures NotBehindAt(server, InFlightStore(s, m), id) && InFlightStore(s, m).cursor == s.cursor
  {
    MarkedUntouched(s, m, InFlight, m.retryCount + 1, id);
  }

  /** A checked acknowledgement of a replayed answer writes a version nothing newer than which is relied on. */
  lemma CheckedReplay(server: Server, s: Store, m: PendingMutation)
    requires AnswersFit(server) && Replayed(server, m) && NotBehindAt(server, s, m.objectId)
    requires NotLowered(s, m.objectId, server.processed[m.mutationId].1.revision)
    ensures NotRelied(server, s, m.objectId, server.processed[m.mutationId].1.revision)
  {
    var (req, resp) := server.processed[m.mutationId];
    assert AnswerFits(server, req, resp);
  }

  lemma SentNotBehind(server: Server, s: Store, m: PendingMutation, fate: Fate, a: Attempt)
    requires NotBehindAt(server, s, m.objectId) && s.cursor <= server.counter && HonestFailure(server)
    requires Grown(server, ServerAfter(server, m, fate))
    requires fate.Delivered? && Replayed(server, m) ==>
               NotRelied(server, s, m.objectId, server.processed[m.mutationId].1.revision)
    ensures NotBehindAt(ServerAfter(server, m, fate), StoreAfter(server, s, m, fate, a), m.objectId)
  {
    InFlightNotBehind(server, s, m, m.objectId);
    if fate.Delivered? {
      AnsweredNotBehind(server, InFlightStore(s, m), m, a);
    } else {
      LostNotBehind(server, ServerAfter(server, m, fate), InFlightStore(s, m), m, m.objectId);
    }
  }

  lemma OwnPushNotBehind(x: Site, m: PendingMutation, fate: Fate, a: Attempt)
    requires Sound(x) && NotBehind(x.server, x.store)
    requires fate.Delivered? && Replayed(x.server, m) ==>
               NotLowered(x.store, m.objectId, x.server.processed[m.mutationId].1.revision)
    ensures NotBehindAt(ServerAfter(x.server, m, fate), StoreAfter(x.server, x.store, m, fate, a), m.objectId)
  {
    assert NotBehindAt(x.server, x.store, m.objectId);
    if fate.Delivered? && Replayed(x.server, m) {
      CheckedReplay(x.server, x.store, m);
    }
    ServerAfterGrows(x, m, fate);
    SentNotBehind(x.server, x.store, m, fate, a);
  }

  lemma DecisionNotBehind(x: Site, conflictId: string, strategy: Strategy, retryId: string, now: string, id: string)
    requires Sound(x) && NotBehind(x.server, x.store) && Possible(x, Decide(conflictId, strategy, retryId, now))
    requires Forward(x, Decide(conflictId, strategy, retryId, now))
    requires StrategyError(x.store, conflictId, strategy).None?
    ensures NotBehindAt(x.server, Resolved(x.store, conflictId, strategy, retryId, now), id)
  {
    assert NotBehindAt(x.server, x.store, id);
    var c, s' := x.store.conflicts[conflictId], Resolved(x.store, conflictId, strategy, retryId, now);
    assert RecordFits(x.server, c);
    ResolvedHead(x.store, conflictId, strategy, retryId, now);
    if id != c.objectId && !(strategy.Duplicate? && CopyError(strategy).None? && id == strategy.newObjectId) {
      ResolvedUntouched(x.store, conflictId, strategy, retryId, now, id);
      UntouchedNotBehind(x.server, x.store, s', id);
    }
  }

  lemma ForwardKeepsNotBehind(x: Site, h: Happening)
    requires Sound(x) && NotBehind(x.server, x.store) && Possible(x, h) && Forward(x, h)
    ensures NotBehind(Happen(x, h).server, Happen(x, h).store)
  {
    match h
    case OnServer(e) =>
      ServerEventKeepsSound(x, e);
      forall id ensures NotBehindAt(Next(x.server, e), x.store, id) {
        assert NotBehindAt(x.server, x.store, id);
        GrowthKeepsNotBehind(x.server, Next(x.server, e), x.store, id);
      }
    case ApplyOne(now) =>
      forall id ensures NotBehindAt(x.server, Applied(x.store, x.inbox[0], now), id) {
        AppliedNotBehind(x.server, x.store, x.inbox, now, id);
      }
    case LocalEdit(e) =>
      forall id ensures NotBehindAt(x.server, Edited(x.store, e), id) {
        assert NotBehindAt(x.server, x.store, id);
      }
    case PushQueued(pos, fate, a) => PushNotBehind(x, pos, fate, a);
    case Decide(conflictId, strategy, retryId, now) =>
      if StrategyError(x.store, conflictId, strategy).None? {
        forall id ensures NotBehindAt(x.server, Resolved(x.store, conflictId, strategy, retryId, now), id) {
          DecisionNotBehind(x, conflictId, strategy, retryId, now, id);
        }
      }
    case Fetch(_, _) =>
    case Crash =>
    case Purge(_) =>
  }

  lemma AppliedNotBehind(server: Server, s: Store, inbox: seq<ObjectChange>, now: string, id: string)
    requires InboxFits(server, s.cursor, inbox) && inbox != [] && SeqsFit(server) && NotBehind(server, s)
    ensures NotBehindAt(server, Applied(s, inbox[0], now), id)
  {
    assert inbox[0] in inbox && NotBehindAt(server, s, id);
    if Covered(server, Applied(s, inbox[0], now), id) && !Covered(server, s, id) {
      FirstIsNext(server, s.cursor, inbox, id);
    }
  }

  predicate AllForward(x: Site, hs: seq<Happening>)
    decreases |hs|
  {
    hs != [] ==> Forward(x, hs[0]) && AllForward(Happen(x, hs[0]), hs[1..])
  }

  /** A client that makes the check is safe in every run, from the empty replica on. */
  lemma {:induction false} ForwardRunIsSafe(x: Site, hs: seq<Happening>)
    requires Sound(x) && Safe(x.server, x.store) && NotBehind(x.server, x.store)
    requires AllPossible(x, hs) && AllForward(x, hs)
    ensures SafeThroughout(x, hs) && AllHarmless(x, hs)
    decreases |hs|
  {
    if hs != [] {
      ForwardIsHarmless(x, hs[0]);
      ForwardKeepsNotBehind(x, hs[0]);
      StepKeepsSafeIff(x, hs[0]);
      StepKeepsSound(x, hs[0]);
      ForwardRunIsSafe(Happen(x, hs[0]), hs[1..]);
    }
  }

  // A new client of any account.

  lemma ExplainedAnswersFit(server: Server, log: seq<Entry>)
    requires Explains(server, log)
    ensures AnswersFit(server)
  {
    forall k | k in server.processed ensures AnswerFits(server, server.processed[k].0, server.processed[k].1) {
      var (req, resp) := server.processed[k];
      assert Found(log, k, server.processed[k]);
      EntryWasVersion(server, log, resp.serverSeq - 1);
    }
  }

  /** Every accepted push is a version the server has had: at the current revision, the current one. */
  lemma EntryWasVersion(server: Server, log: seq<Entry>, i: nat)
    requires Explains(server, log) && i < |log|
    ensures AnswerFits(server, log[i].req, log[i].resp)
  {
    var id := log[i].req.objectId;
    assert EntryFits(log, i) && ObjectFits(server.objects, log, id) && log[..|log|] == log;
    CountGrows(log, i, |log|, id);
    var j := server.objects[id].serverSeq - 1;
    assert EntryFits(log, j);
    if i < j {
      CountGrows(log, i, j, id);
    } else if j < i {
      CountGrows(log, j, i, id);
    }
  }

  /** A client that joins an account after any history is sound, safe and not behind. */
  lemma NewClientIsSafe(events: seq<Event>)
    requires HonestFailure(Run(EMPTY_SERVER, events))
    ensures var x := Site(Run(EMPTY_SERVER, events), EMPTY_STORE, []);
            Sound(x) && Safe(x.server, x.store) && NotBehind(x.server, x.store)
  {
    var server := Run(EMPTY_SERVER, events);
    RunIsExplained(events);
    ExplainedSeqsFit(server, AcceptedLog(EMPTY_SERVER, events));
    ExplainedAnswersFit(server, AcceptedLog(EMPTY_SERVER, events));
    forall id ensures HoldsAt(server, EMPTY_STORE, id) && NotBehindAt(server, EMPTY_STORE, id) {
      assert id in server.objects ==> server.objects[id].serverSeq >= 1;
    }
  }

  /**
   * Whatever the account's history, a new client is safe all along exactly if its steps are harmless, so if it
   * checks.
   */
  lemma NewClientRunIsSafeIff(events: seq<Event>, hs: seq<Happening>)
    requires HonestFailure(Run(EMPTY_SERVER, events))
             && AllPossible(Site(Run(EMPTY_SERVER, events), EMPTY_STORE, []), hs)
    ensures var x := Site(Run(EMPTY_SERVER, events), EMPTY_STORE, []);
            && (SafeThroughout(x, hs) <==> AllHarmless(x, hs))
            && (AllForward(x, hs) ==> SafeThroughout(x, hs))
  {
    var x := Site(Run(EMPTY_SERVER, events), EMPTY_STORE, []);
    NewClientIsSafe(events);
    RunIsSafeIff(x, hs);
    if AllForward(x, hs) {
      ForwardRunIsSafe(x, hs);
    }
  }

  /**
   * A replayed answer, for an object held as pulled with nothing else queued: acknowledging it is safe just if its
   * revision is the one held.
   */
  lemma ReplayIsSafeIffHeld(x: Site, pos: nat, a: Attempt)
    requires Sound(x) && Safe(x.server, x.store) && Possible(x, PushQueued(pos, Delivered, a))
    requires var m := x.store.mutations[pos];
             && Replayed(x.server, m) && !HasOther(x.store.mutations, m.mutationId, m.objectId)
             && Covered(x.server, x.store, m.objectId) && m.objectId in x.store.objects
             && x.store.objects[m.objectId].revision == x.server.objects[m.objectId].revision
    ensures var m, x' := x.store.mutations[pos], Happen(x, PushQueued(pos, Delivered, a));
            Safe(x'.server, x'.store)
            <==> x.server.processed[m.mutationId].1.revision == x.store.objects[m.objectId].revision
  {
    PushKeepsSafeIff(x, pos, Delivered, a);
  }

  /**
   * On an object held as pulled, the check is exact: taking the remote side is safe just if its revision is the one
   * held.
   */
  lemma TakingRemoteIsSafeIffHeld(x: Site, conflictId: string, strategy: Strategy, retryId: string, now: string)
    requires Sound(x) && Safe(x.server, x.store) && Possible(x, Decide(conflictId, strategy, retryId, now))
    requires StrategyError(x.store, conflictId, strategy).None? && TakesRemote(strategy)
    requires var o := x.store.conflicts[conflictId].objectId;
             && Covered(x.server, x.store, o) && o in x.store.objects
             && x.store.objects[o].revision == x.server.objects[o].revision
    ensures Safe(x.server, Happen(x, Decide(conflictId, strategy, retryId, now)).store)
            <==> x.store.objects[x.store.conflicts[conflictId].objectId].revision
                   == x.store.conflicts[conflictId].remoteRevision
  {
    DecisionKeepsSafeIff(x, conflictId, strategy, retryId, now);
  }

  /** A pull that leaves nothing beyond the cursor makes a safe replica complete, up to what is queued. */
  lemma PullCompletes(server: Server, s: Store, s': Store, now: string, id: string)
    requires Safe(server, s) && PulledTo(server, s, s', now) && CaughtUp(server, s'.cursor)
    requires id in server.objects && !HasQueued(s'.mutations, id)
    ensures Current(server, s', id)
  {
    assert HoldsAt(server, s, id) && PulledOne(server, s, s', id, now);
  }

  // ---------------------------------------------------------------- it does happen

  /** What a pull stores lies beyond the old cursor: a covered object that is not current stays so. */
  lemma RegressionIsPermanent(server: Server, s: Store, s': Store, id: string, now: string)
    requires Covered(server, s, id) && !Current(server, s, id) && PulledTo(server, s, s', now)
    ensures !Current(server, s', id)
  {
    assert PulledOne(server, s, s', id, now);
  }

  /**
   * Taking the remote side of an outdated record: the object falls back to an older version, nothing is queued for
   * it, and no pull on a quiet server brings the newer version back.
   */
  lemma TakingOutdatedRemoteRegresses(x: Site, conflictId: string, strategy: Strategy, retryId: string, now: string)
    requires Sound(x) && Possible(x, Decide(conflictId, strategy, retryId, now))
    requires StrategyError(x.store, conflictId, strategy).None? && TakesRemote(strategy)
    requires var c := x.store.conflicts[conflictId];
             Covered(x.server, x.store, c.objectId) && c.remoteRevision != x.server.objects[c.objectId].revision
    ensures var o, s' :=
              x.store.conflicts[conflictId].objectId, Happen(x, Decide(conflictId, strategy, retryId, now)).store;
            && o in s'.objects && s'.objects[o].revision < x.server.objects[o].revision
            && !HasQueued(s'.mutations, o) && !HoldsAt(x.server, s', o)
            && forall s'', later :: PulledTo(x.server, s', s'', later) ==> !Current(x.server, s'', o)
  {
    var c, s' := x.store.conflicts[conflictId], Happen(x, Decide(conflictId, strategy, retryId, now)).store;
    assert RecordFits(x.server, c);
    ResolvedHead(x.store, conflictId, strategy, retryId, now);
    ResolvedQueue(x.store, conflictId, strategy, retryId, now);
    forall s'', later | PulledTo(x.server, s', s'', later) ensures !Current(x.server, s'', c.objectId) {
      RegressionIsPermanent(x.server, s', s'', c.objectId, later);
    }
  }

  // Two runs from a new account and a new client, given site by site. `id` is the note, `mine` this client's edit,
  // `first` and `second` somebody else's versions.

  function Request(k: string, id: string, expected: nat, e: Envelope): PushRequest {
    PushRequest(k, id, expected, 1, e, false)
  }

  function Version(id: string, n: nat, e: Envelope): ObjectChange {
    ObjectChange(n, id, n, 1, false, e)
  }

  /** The server with one version of one note, or two. */
  function ServerWithOne(k: string, id: string, e: Envelope): Server {
    Server(map[id := Version(id, 1, e)], 1, map[k := (Request(k, id, 0, e), PushResponse(id, 1, 1))], None)
  }

  function ServerWithTwo(k: string, id: string, e: Envelope, second: Envelope): Server {
    Server(map[id := Version(id, 2, second)], 2,
           map[k := (Request(k, id, 0, e), PushResponse(id, 1, 1)),
               "b" := (Request("b", id, 1, second), PushResponse(id, 2, 2))],
           None)
  }

  function MyEdit(id: string, e: Envelope, retries: nat): PendingMutation {
    PendingMutation("mine", id, 0, 1, Upsert, e, "", retries, Pending)
  }

  function Head(id: string, n: nat, serverSeq: nat, e: Envelope): StoredObject {
    StoredObject(id, 1, n, serverSeq, false, e, "")
  }

  function Refusal(id: string, mine: Envelope, first: Envelope): ConflictRecord {
    ConflictRecord("conflict", id, 1, 0, 1, None, mine, first, None, false, false, false, "", None)
  }

  const MANUAL_ATTEMPT := Attempt(Manual, None, NoKey, "retry", "conflict", "")

  lemma EditingFirst(server: Server, id: string, mine: Envelope)
    ensures Happen(Site(server, EMPTY_STORE, []), LocalEdit(Edit(id, 1, mine, false, "mine", "")))
         == Site(server, EMPTY_STORE.(objects := map[id := Head(id, 1, 0, mine)], mutations := [MyEdit(id, mine, 0)]),
                 [])
  {}

  lemma SecondArrives(k: string, id: string, e: Envelope, second: Envelope)
    requires k != "b"
    ensures Next(ServerWithOne(k, id, e), PushEvent(Request("b", id, 1, second))) == ServerWithTwo(k, id, e, second)
  {
    assert map[id := Version(id, 1, e)][id := Version(id, 2, second)] == map[id := Version(id, 2, second)];
  }

  lemma MarkedOnce(id: string, e: Envelope, n: nat, status: MutationStatus, retries: nat)
    ensures WithStatus([MyEdit(id, e, n)], "mine", status, retries)
            == [MyEdit(id, e, n).(status := status, retryCount := retries)]
  {}

  /** The refused edit: still queued, with a record that quotes revision 1. */
  lemma EditIsRefused(id: string, mine: Envelope, first: Envelope, s: Store)
    requires s == EMPTY_STORE.(objects := map[id := Head(id, 1, 0, mine)], mutations := [MyEdit(id, mine, 0)])
    ensures StoreAfter(ServerWithOne("a", id, first), s, MyEdit(id, mine, 0), Delivered, MANUAL_ATTEMPT)
         == s.(mutations := [MyEdit(id, mine, 1)], conflicts := map["conflict" := Refusal(id, mine, first)])
    ensures ServerAfter(ServerWithOne("a", id, first), MyEdit(id, mine, 0), Delivered) == ServerWithOne("a", id, first)
  {
    MarkedOnce(id, mine, 0, InFlight, 1);
    var s1 := InFlightStore(s, MyEdit(id, mine, 0));
    assert s1.mutations == [MyEdit(id, mine, 0).(status := InFlight, retryCount := 1)];
    assert WithStatus(s1.mutations, "mine", Pending, 1) == [MyEdit(id, mine, 1)];
  }

  /** Pulling the second version over the local head. */
  lemma SecondIsPulled(x: Site, k: string, id: string, e: Envelope, second: Envelope)
    requires x.server == ServerWithTwo(k, id, e, second) && x.store.cursor == 0
    ensures var listing := [Version(id, 2, second)];
            var x5 := Happen(x, Fetch(50, listing));
            && Possible(x, Fetch(50, listing)) && Possible(x5, ApplyOne(""))
            && Happen(x5, ApplyOne(""))
                 == x.(store := x.store.(objects := x.store.objects[id := Head(id, 2, 2, second)], cursor := 2),
                       inbox := [])
  {
    var listing := [Version(id, 2, second)];
    assert IsListing(x.server.objects, 0, listing) by {
      assert listing[0] in listing && id in x.server.objects;
    }
    assert listing[1..] == [];
  }

  lemma FirstArrives(id: string, first: Envelope)
    ensures Happen(NEW_SITE, OnServer(PushEvent(Request("a", id, 0, first))))
         == Site(ServerWithOne("a", id, first), EMPTY_STORE, [])
  {}

  lemma RefusedStep(id: string, mine: Envelope, first: Envelope, s: Store)
    requires s == EMPTY_STORE.(objects := map[id := Head(id, 1, 0, mine)], mutations := [MyEdit(id, mine, 0)])
    ensures var x := Site(ServerWithOne("a", id, first), s, []);
            && Possible(x, PushQueued(0, Delivered, MANUAL_ATTEMPT))
            && Happen(x, PushQueued(0, Delivered, MANUAL_ATTEMPT))
                 == x.(store := s.(mutations := [MyEdit(id, mine, 1)],
                                   conflicts := map["conflict" := Refusal(id, mine, first)]))
  {
    EditIsRefused(id, mine, first, s);
    assert s.mutations[0] == MyEdit(id, mine, 0);
  }

  lemma LostStep(id: string, mine: Envelope, s: Store)
    requires s == EMPTY_STORE.(objects := map[id := Head(id, 1, 0, mine)], mutations := [MyEdit(id, mine, 0)])
    ensures var x := Site(EMPTY_SERVER, s, []);
            && Possible(x, PushQueued(0, AnswerLost, MANUAL_ATTEMPT))
            && Happen(x, PushQueued(0, AnswerLost, MANUAL_ATTEMPT))
                 == Site(ServerWithOne("mine", id, mine), s.(mutations := [MyEdit(id, mine, 1)]), [])
  {
    AnswerIsLost(id, mine, s);
    assert s.mutations[0] == MyEdit(id, mine, 0);
  }

  /** Refused, recorded, overtaken and pulled: where the run below stands before the decision. */
  function Overtaken(id: string, mine: Envelope, first: Envelope, second: Envelope): Site {
    Site(ServerWithTwo("a", id, first, second),
         Store(map[id := Head(id, 2, 2, second)], [MyEdit(id, mine, 1)], map[], 2,
               map["conflict" := Refusal(id, mine, first)]), [])
  }

  function RunToOvertaken(id: string, mine: Envelope, first: Envelope, second: Envelope): seq<Happening> {
    [OnServer(PushEvent(Request("a", id, 0, first))), LocalEdit(Edit(id, 1, mine, false, "mine", "")),
     PushQueued(0, Delivered, MANUAL_ATTEMPT), OnServer(PushEvent(Request("b", id, 1, second))),
     Fetch(50, [Version(id, 2, second)]), ApplyOne("")]
  }

  lemma RunReachesOvertaken(id: string, mine: Envelope, first: Envelope, second: Envelope)
    ensures HappenAll(NEW_SITE, RunToOvertaken(id, mine, first, second)) == Overtaken(id, mine, first, second)
    ensures AllPossible(NEW_SITE, RunToOvertaken(id, mine, first, second))
  {
    var h := RunToOvertaken(id, mine, first, second);
    var x1 := Site(ServerWithOne("a", id, first), EMPTY_STORE, []);
    var s2 := EMPTY_STORE.(objects := map[id := Head(id, 1, 0, mine)], mutations := [MyEdit(id, mine, 0)]);
    var x2 := x1.(store := s2);
    var s3 := s2.(mutations := [MyEdit(id, mine, 1)], conflicts := map["conflict" := Refusal(id, mine, first)]);
    var x3 := x1.(store := s3);
    var x4 := x3.(server := ServerWithTwo("a", id, first, second));
    FirstArrives(id, first);
    EditingFirst(x1.server, id, mine);
    RefusedStep(id, mine, first, s2);
    SecondArrives("a", id, first, second);
    SecondIsPulled(x4, "a", id, first, second);
    SixSteps(NEW_SITE, x1, x2, x3, x4, h);
    assert s2.objects[id := Head(id, 2, 2, second)] == map[id := Head(id, 2, 2, second)];
  }

  lemma SixSteps(x: Site, x1: Site, x2: Site, x3: Site, x4: Site, h: seq<Happening>)
    requires |h| == 6
    requires Possible(x, h[0]) && Happen(x, h[0]) == x1 && Possible(x1, h[1]) && Happen(x1, h[1]) == x2
    requires Possible(x2, h[2]) && Happen(x2, h[2]) == x3 && Possible(x3, h[3]) && Happen(x3, h[3]) == x4
    requires Possible(x4, h[4]) && Possible(Happen(x4, h[4]), h[5])
    ensures HappenAll(x, h) == Happen(Happen(x4, h[4]), h[5]) && AllPossible(x, h)
  {
    var x5 := Happen(x4, h[4]);
    var x6 := Happen(x5, h[5]);
    assert h[1..][1..] == h[2..] && h[2..][1..] == h[3..] && h[3..][1..] == h[4..] && h[4..][1..] == h[5..]
        && h[5..][1..] == [];
    assert HappenAll(x6, []) == x6 && AllPossible(x6, []);
    assert HappenAll(x5, h[5..]) == x6 && AllPossible(x5, h[5..]);
    assert HappenAll(x4, h[4..]) == x6 && AllPossible(x4, h[4..]);
    assert HappenAll(x3, h[3..]) == x6 && AllPossible(x3, h[3..]);
    assert HappenAll(x2, h[2..]) == x6 && AllPossible(x2, h[2..]);
    assert HappenAll(x1, h[1..]) == x6 && AllPossible(x1, h[1..]);
  }

  /**
   * A conflict is recorded, somebody edits on, the client pulls that and then keeps the remote side of its old
   * record: the replica ends with the older version and an empty queue, and the server lists nothing to pull.
   */
  lemma KeepRemoteLosesNewerVersion(id: string, mine: Envelope, first: Envelope, second: Envelope)
    requires first != second
    ensures var run := RunToOvertaken(id, mine, first, second);
            var x := HappenAll(NEW_SITE, run);
            var x' := Happen(x, Decide("conflict", KeepRemote, "retry", ""));
            && AllPossible(NEW_SITE, run) && Possible(x, Decide("conflict", KeepRemote, "retry", ""))
            && Current(x.server, x.store, id) && x.server.objects[id].envelope == second
            && id in x'.store.objects && x'.store.objects[id].envelope == first && x'.store.mutations == []
            && !Safe(x'.server, x'.store) && IsListing(x'.server.objects, x'.store.cursor, [])
  {
    RunReachesOvertaken(id, mine, first, second);
    var x := Overtaken(id, mine, first, second);
    var x' := Happen(x, Decide("conflict", KeepRemote, "retry", ""));
    assert x.store.mutations[0].mutationId == "mine";
    assert Without([MyEdit(id, mine, 1)], id) == Without([], id) == [];
    assert !HoldsAt(x'.server, x'.store, id);
  }

  /** The answer to this client's push is lost, somebody edits on, the client pulls that. */
  function Unanswered(id: string, mine: Envelope, second: Envelope): Site {
    Site(ServerWithTwo("mine", id, mine, second),
         Store(map[id := Head(id, 2, 2, second)], [MyEdit(id, mine, 1)], map[], 2, map[]), [])
  }

  function RunToUnanswered(id: string, mine: Envelope, second: Envelope): seq<Happening> {
    [Crash, LocalEdit(Edit(id, 1, mine, false, "mine", "")),
     PushQueued(0, AnswerLost, MANUAL_ATTEMPT), OnServer(PushEvent(Request("b", id, 1, second))),
     Fetch(50, [Version(id, 2, second)]), ApplyOne("")]
  }

  lemma AnswerIsLost(id: string, mine: Envelope, s: Store)
    requires s == EMPTY_STORE.(objects := map[id := Head(id, 1, 0, mine)], mutations := [MyEdit(id, mine, 0)])
    ensures StoreAfter(EMPTY_SERVER, s, MyEdit(id, mine, 0), AnswerLost, MANUAL_ATTEMPT)
            == s.(mutations := [MyEdit(id, mine, 1)])
    ensures ServerAfter(EMPTY_SERVER, MyEdit(id, mine, 0), AnswerLost) == ServerWithOne("mine", id, mine)
  {
    MarkedOnce(id, mine, 0, InFlight, 1);
    var s1 := InFlightStore(s, MyEdit(id, mine, 0));
    assert s1.mutations == [MyEdit(id, mine, 0).(status := InFlight, retryCount := 1)];
    assert WithStatus(s1.mutations, "mine", Pending, 1) == [MyEdit(id, mine, 1)];
  }

  lemma RunReachesUnanswered(id: string, mine: Envelope, second: Envelope)
    ensures HappenAll(NEW_SITE, RunToUnanswered(id, mine, second)) == Unanswered(id, mine, second)
    ensures AllPossible(NEW_SITE, RunToUnanswered(id, mine, second))
  {
    var h := RunToUnanswered(id, mine, second);
    var x1 := NEW_SITE;
    var s2 := EMPTY_STORE.(objects := map[id := Head(id, 1, 0, mine)], mutations := [MyEdit(id, mine, 0)]);
    var x2 := x1.(store := s2);
    var x3 := Site(ServerWithOne("mine", id, mine), s2.(mutations := [MyEdit(id, mine, 1)]), []);
    var x4 := x3.(server := ServerWithTwo("mine", id, mine, second));
    EditingFirst(x1.server, id, mine);
    LostStep(id, mine, s2);
    SecondArrives("mine", id, mine, second);
    SecondIsPulled(x4, "mine", id, mine, second);
    SixSteps(x1, x1, x2, x3, x4, h);
    assert s2.objects[id := Head(id, 2, 2, second)] == map[id := Head(id, 2, 2, second)];
  }

  /**
   * Resending that push: its replayed answer puts the client's own older version back over the newer one, and the
   * server lists nothing to pull.
   */
  lemma ReplayHidesNewerVersion(id: string, mine: Envelope, second: Envelope)
    requires mine != second
    ensures var run := RunToUnanswered(id, mine, second);
            var x := HappenAll(NEW_SITE, run);
            var x' := Happen(x, PushQueued(0, Delivered, MANUAL_ATTEMPT));
            && AllPossible(NEW_SITE, run) && Possible(x, PushQueued(0, Delivered, MANUAL_ATTEMPT))
            && Current(x.server, x.store, id) && x.server.objects[id].envelope == second
            && id in x'.store.objects && x'.store.objects[id].envelope == mine && x'.store.mutations == []
            && !Safe(x'.server, x'.store) && IsListing(x'.server.objects, x'.store.cursor, [])
  {
    RunReachesUnanswered(id, mine, second);
    var x := Unanswered(id, mine, second);
    var m := MyEdit(id, mine, 1);
    var x' := Happen(x, PushQueued(0, Delivered, MANUAL_ATTEMPT));
    assert x.store.mutations[0] == m && SameRequest(x.server.processed["mine"].0, RequestOf(m));
    MarkedOnce(id, mine, 1, InFlight, 2);
    var marked := m.(status := InFlight, retryCount := 2);
    assert InFlightStore(x.store, m).mutations == [marked];
    assert DropIds([marked], {"mine"}) == DropIds([], {"mine"}) == [];
    assert !HoldsAt(x'.server, x'.store, id);
  }
}
