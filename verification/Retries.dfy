/**
 * A client that keeps pushing one queued edit and settling each refusal, by last-write-wins or by a decision of any
 * strategy, while others push and requests or answers get lost. Its store is carried through the whole run: every
 * refusal it settles is the fault of a different accepted push of somebody else.
 */
module Retries {
  import opened Text
  import opened Protocol
  import opened Storage
  import opened SyncServer
  import opened Conflicts

  /**
   * Somebody's push, or this client's turn: send the queued mutation of the object and, if the refusal was recorded,
   * settle it with `strategy` under the mutation id `decisionId`.
   */
  datatype Turn = Theirs(req: PushRequest) | Mine(fate: Fate, a: Attempt, strategy: Strategy, decisionId: string)

  /** `refusals` are the server sequences reported by the refusals settled so far, the last with `since` log entries. */
  datatype Play = Play(server: Server, log: seq<Entry>, store: Store, since: nat, refusals: seq<nat>)

  function Deliver(p: Play, req: PushRequest): Play {
    p.(server := Push(p.server, req).server, log := p.log + Logged(p.server, PushEvent(req)))
  }

  /** One round with mutation `m`. */
  function Exchange(p: Play, m: PendingMutation, fate: Fate, a: Attempt): Play {
    (if fate.RequestLost? then p else Deliver(p, RequestOf(m))).(store := StoreAfter(p.server, p.store, m, fate, a))
  }

  function Settled(p: Play, c: ConflictResponse): Play {
    p.(since := |p.log|, refusals := p.refusals + [c.currentServerSeq])
  }

  /** After a refusal: settled at once, settled by the decision, or left as it is if that is refused. */
  function AfterRefusal(p: Play, m: PendingMutation, c: ConflictResponse, t: Turn): Play
    requires t.Mine?
  {
    if SettlesItself(m, c, t.a) then Settled(p, c)
    else if StrategyError(p.store, t.a.conflictId, t.strategy).Some? then p
    else Settled(p.(store := Resolved(p.store, t.a.conflictId, t.strategy, t.decisionId, t.a.now)), c)
  }

  function PlayTurn(p: Play, id: string, t: Turn): Play {
    match t
    case Theirs(req) => Deliver(p, req)
    case Mine(fate, a, _, _) =>
      var q := Queued(p.store.mutations, id);
      if q == [] then p
      else
        var p' := Exchange(p, q[0], fate, a);
        match AnswerTo(p.server, q[0], fate)
        case Err(Conflict(c)) => AfterRefusal(p', q[0], c, t)
        case _ => p'
  }

  function PlayAll(p: Play, id: string, turns: seq<Turn>): Play
    decreases |turns|
  {
    if turns == [] then p else PlayAll(PlayTurn(p, id, turns[0]), id, turns[1..])
  }

  /** Mutation and conflict ids are new where they are drawn, and a copy goes to another object. */
  ghost predicate DrawsNewIds(p: Play, id: string, t: Turn) {
    match t
    case Theirs(req) => forall m :: m in Queued(p.store.mutations, id) ==> m.mutationId != req.mutationId
    case Mine(_, a, strategy, decisionId) =>
      && {a.retryId, decisionId} !! p.server.processed.Keys && {a.retryId, decisionId} !! Ids(p.store.mutations)
      && a.conflictId !in p.store.conflicts
      && (strategy.Duplicate? ==> strategy.newObjectId != id)
  }

  ghost predicate AllDrawNewIds(p: Play, id: string, turns: seq<Turn>)
    decreases |turns|
  {
    turns != [] ==> DrawsNewIds(p, id, turns[0]) && AllDrawNewIds(PlayTurn(p, id, turns[0]), id, turns[1..])
  }

  // ---------------------------------------------------------------- what a round does to the object's queue

  /** The same requests in the same order; status and retry count may differ. */
  ghost predicate SameRequests(xs: seq<PendingMutation>, ys: seq<PendingMutation>) {
    |xs| == |ys| && forall i :: 0 <= i < |xs| ==> RequestOf(xs[i]) == RequestOf(ys[i])
  }

  lemma {:induction false} StatusKeepsRequests(ms: seq<PendingMutation>, k: string, status: MutationStatus,
                                               retries: nat, id: string)
    ensures SameRequests(Queued(WithStatus(ms, k, status, retries), id), Queued(ms, id))
  {
    if ms != [] && ms[0].mutationId != k {
      StatusKeepsRequests(ms[1..], k, status, retries, id);
    }
  }

  lemma MarkedKeepsRequests(s: Store, m: PendingMutation, status: MutationStatus, retries: nat, id: string)
    ensures SameRequests(Queued(Marked(s, m, status, retries).mutations, id), Queued(s.mutations, id))
  {
    StatusKeepsRequests(s.mutations, m.mutationId, status, retries, id);
  }

  lemma {:induction false} QueuedOfDropped(ms: seq<PendingMutation>, k: string, id: string)
    requires forall m :: m in Queued(ms, id) ==> m.mutationId == k
    ensures Queued(DropIds(ms, {k}), id) == []
  {
    if ms != [] {
      if ms[0].objectId == id {
        assert ms[0] in Queued(ms, id);
      }
      QueuedOfDropped(ms[1..], k, id);
    }
  }

  /** Sent and not refused: gone if accepted, otherwise still the only one queued. */
  lemma UnrefusedQueue(server: Server, s: Store, m: PendingMutation, fate: Fate, a: Attempt)
    requires Queued(s.mutations, m.objectId) == [m]
    requires var r := AnswerTo(server, m, fate); r.Ok? || !r.error.Conflict?
    ensures var q := Queued(StoreAfter(server, s, m, fate, a).mutations, m.objectId);
            if AnswerTo(server, m, fate).Ok? then q == [] else SameRequests(q, [m])
  {
    var s1 := InFlightStore(s, m);
    MarkedKeepsRequests(s, m, InFlight, m.retryCount + 1, m.objectId);
    MarkedKeepsRequests(s1, m, Pending, m.retryCount + 1, m.objectId);
    MarkedKeepsRequests(s1, m, Failed, m.retryCount + 1, m.objectId);
    QueuedOfDroppedOne(s1.mutations, m);
  }

  lemma QueuedOfDroppedOne(ms: seq<PendingMutation>, m: PendingMutation)
    requires SameRequests(Queued(ms, m.objectId), [m])
    ensures Queued(DropIds(ms, {m.mutationId}), m.objectId) == []
  {
    var q := Queued(ms, m.objectId);
    assert RequestOf(q[0]).mutationId == m.mutationId;
    QueuedOfDropped(ms, m.mutationId, m.objectId);
  }

  /** Nothing is queued for the object, or one retry under the new id, based on the revision the refusal reported. */
  ghost predicate Rebased(q: seq<PendingMutation>, k: string, id: string, revision: nat) {
    q != [] ==> |q| == 1 && q[0].mutationId == k && q[0].objectId == id && q[0].expectedRevision == revision
  }

  lemma QueuedOfAppended(ms: seq<PendingMutation>, q: PendingMutation, id: string)
    ensures Queued(Without(ms, id) + [q], id) == if q.objectId == id then [q] else []
  {
    WithoutHasNone(ms, id);
    QueuedOfConcat(Without(ms, id), [q], id);
    assert Queued([q], id) == (if q.objectId == id then [q] else []) + Queued([], id);
  }

  lemma LwwRebases(s: Store, x: Clash)
    ensures Rebased(Queued(Lww(s, x).mutations, x.m.objectId), x.retryId, x.m.objectId, x.c.currentRevision)
  {
    var retry := Retry(x.retryId, x.m.objectId, x.m.objectKind, Upsert, x.m.envelope, x.c.currentRevision, x.now);
    QueuedOfAppended(s.mutations, retry, x.m.objectId);
    WithoutHasNone(s.mutations, x.m.objectId);
  }

  /** Every strategy leaves the object with one retry at the record's remote revision, or with nothing queued. */
  lemma ResolutionRebases(s: Store, conflictId: string, strategy: Strategy, decisionId: string, now: string)
    requires StrategyError(s, conflictId, strategy).None?
    requires strategy.Duplicate? ==> strategy.newObjectId != s.conflicts[conflictId].objectId
    ensures var c := s.conflicts[conflictId];
            Rebased(Queued(Resolved(s, conflictId, strategy, decisionId, now).mutations, c.objectId), decisionId,
                    c.objectId, c.remoteRevision)
  {
    var c := s.conflicts[conflictId];
    if strategy.Duplicate? {
      DuplicateTakesRemote(s, conflictId, strategy, decisionId, now);
    } else if strategy.KeepRemote? {
      WithoutHasNone(s.mutations, c.objectId);
    } else {
      ResolutionQueuesOneRetry(s, conflictId, strategy, decisionId, now, c.objectId + "x");
      QueuedMembers(Resolved(s, conflictId, strategy, decisionId, now).mutations, c.objectId);
    }
  }

  /** A refusal that is not settled at once leaves the mutation queued, with a record of it unless that failed. */
  lemma RecordedQueue(s: Store, m: PendingMutation, c: ConflictResponse, a: Attempt)
    requires SameRequests(Queued(s.mutations, m.objectId), [m]) && !SettlesItself(m, c, a)
    ensures var s' := OnConflict(s, m, c, a);
            && SameRequests(Queued(s'.mutations, m.objectId), [m])
            && (a.conflictId in s'.conflicts && a.conflictId !in s.conflicts ==>
                  && s'.conflicts[a.conflictId].objectId == m.objectId
                  && s'.conflicts[a.conflictId].remoteRevision == c.currentRevision)
  {
    MarkedKeepsRequests(s, m, Pending, m.retryCount + 1, m.objectId);
  }

  // ---------------------------------------------------------------- the invariant

  ghost predicate Increasing(xs: seq<nat>) {
    forall i, j :: 0 <= i < j < |xs| ==> xs[i] < xs[j]
  }

  /** Log entry number `n` is a push of `id` that somebody else made during these turns. */
  ghost predicate SomeoneElses(log: seq<Entry>, n: nat, id: string, turns: seq<Turn>) {
    1 <= n <= |log| && log[n - 1].req.objectId == id && Theirs(log[n - 1].req) in turns
  }

  ghost predicate LogIsTheirs(log: seq<Entry>, start: nat, turns: seq<Turn>) {
    forall k :: start <= k < |log| ==> Theirs(log[k].req) in turns
  }

  ghost predicate RefusalsFit(p: Play, start: nat, id: string, turns: seq<Turn>) {
    && start <= p.since <= |p.log| && Increasing(p.refusals)
    && (forall i :: 0 <= i < |p.refusals| ==>
          start < p.refusals[i] <= p.since && SomeoneElses(p.log, p.refusals[i], id, turns))
  }

  /** The server has accepted this very mutation, although the client does not know. */
  predicate Answered(server: Server, m: PendingMutation) {
    m.mutationId in server.processed && SameRequest(server.processed[m.mutationId].0, RequestOf(m))
  }

  /** Not accepted yet: based on the revision as it was at `since`, and until now only others were accepted. */
  ghost predicate Waits(p: Play, m: PendingMutation, start: nat, id: string, turns: seq<Turn>) {
    && m.mutationId !in p.server.processed
    && p.since <= |p.log| && m.expectedRevision == CountFor(p.log[..p.since], id)
    && LogIsTheirs(p.log, start, turns)
  }

  ghost predicate QueueFits(p: Play, q: seq<PendingMutation>, start: nat, id: string, turns: seq<Turn>) {
    q != [] ==> |q| == 1 && q[0].objectId == id && (Answered(p.server, q[0]) || Waits(p, q[0], start, id, turns))
  }

  ghost predicate PlayInv(p: Play, start: nat, id: string, turns: seq<Turn>) {
    && Explains(p.server, p.log) && p.server.failNext.None?
    && RefusalsFit(p, start, id, turns)
    && QueueFits(p, Queued(p.store.mutations, id), start, id, turns)
  }

  /** If the revision moved since the log had `since` entries, the stored version was accepted after that. */
  lemma MovedRevisionIsNew(s: Server, log: seq<Entry>, since: nat, id: string)
    requires Explains(s, log) && since <= |log|
    requires CountFor(log[..since], id) != CurrentRevision(s, id)
    ensures id in s.objects && since < s.objects[id].serverSeq
  {
    assert ObjectFits(s.objects, log, id);
    CountIsMonotone(log, since, |log|, id);
    assert log[..|log|] == log;
    if id in s.objects && s.objects[id].serverSeq <= since {
      forall k | since <= k < |log| ensures log[k].req.objectId != id {
        if log[k].req.objectId == id {
          NothingWrittenSince(s, log, id, k);
        }
      }
      CountOfOtherObjects(log, since, |log|, id);
    }
  }

  lemma LongerLogKeepsRefusals(p: Play, log': seq<Entry>, start: nat, id: string, turns: seq<Turn>)
    requires p.log <= log' && RefusalsFit(p, start, id, turns)
    ensures RefusalsFit(p.(log := log'), start, id, turns)
  {
    forall i | 0 <= i < |p.refusals| ensures SomeoneElses(log', p.refusals[i], id, turns) {
      assert SomeoneElses(p.log, p.refusals[i], id, turns);
    }
  }

  lemma DeliveryKeepsTheRest(p: Play, req: PushRequest, start: nat, id: string, turns: seq<Turn>)
    requires PlayInv(p, start, id, turns)
    ensures var p' := Deliver(p, req);
            Explains(p'.server, p'.log) && p'.server.failNext.None? && RefusalsFit(p', start, id, turns)
  {
    EventKeepsExplanation(p.server, p.log, PushEvent(req));
    LongerLogKeepsRefusals(p, Deliver(p, req).log, start, id, turns);
  }

  lemma StillWaits(p: Play, m: PendingMutation, start: nat, id: string, turns: seq<Turn>, req: PushRequest)
    requires Waits(p, m, start, id, turns) && Theirs(req) in turns && m.mutationId != req.mutationId
    ensures Waits(Deliver(p, req), m, start, id, turns)
  {
    assert Deliver(p, req).log[..p.since] == p.log[..p.since];
  }

  lemma TheirTurnKeepsInv(p: Play, start: nat, id: string, turns: seq<Turn>, req: PushRequest)
    requires PlayInv(p, start, id, turns) && Theirs(req) in turns && DrawsNewIds(p, id, Theirs(req))
    ensures PlayInv(Deliver(p, req), start, id, turns)
  {
    var q := Queued(p.store.mutations, id);
    DeliveryKeepsTheRest(p, req, start, id, turns);
    if q != [] {
      assert q[0] in q;
      if Waits(p, q[0], start, id, turns) {
        StillWaits(p, q[0], start, id, turns, req);
      } else {
        assert Answered(Deliver(p, req).server, q[0]);
      }
    }
  }

  /** Same request, same standing. */
  lemma SameRequestFits(p: Play, m: PendingMutation, q: seq<PendingMutation>, start: nat, id: string, turns: seq<Turn>)
    requires SameRequests(q, [m]) && QueueFits(p, [m], start, id, turns)
    ensures QueueFits(p, q, start, id, turns)
  {
    assert RequestOf(q[0]) == RequestOf(m);
    assert q[0].mutationId == RequestOf(q[0]).mutationId && q[0].objectId == RequestOf(q[0]).objectId;
    assert q[0].expectedRevision == RequestOf(q[0]).expectedRevision;
  }

  /** A mutation that has been sent is accepted now, or stands as before. */
  lemma SentFits(p: Play, m: PendingMutation, start: nat, id: string, turns: seq<Turn>)
    requires p.server.failNext.None? && QueueFits(p, [m], start, id, turns)
    ensures QueueFits(Deliver(p, RequestOf(m)), [m], start, id, turns)
  {
    if m.mutationId !in p.server.processed {
      RetryAcceptedIff(p.server, m);
      assert !IsFresh(p.server, RequestOf(m)) ==> Deliver(p, RequestOf(m)).log == p.log;
    }
  }

  /** A round that brings no refusal. */
  lemma UnrefusedTurnKeepsInv(p: Play, m: PendingMutation, fate: Fate, a: Attempt, start: nat, id: string,
                              turns: seq<Turn>)
    requires PlayInv(p, start, id, turns) && Queued(p.store.mutations, id) == [m]
    requires var r := AnswerTo(p.server, m, fate); r.Ok? || !r.error.Conflict?
    ensures PlayInv(Exchange(p, m, fate, a), start, id, turns)
  {
    var p' := Exchange(p, m, fate, a);
    var q := Queued(p'.store.mutations, id);
    UnrefusedQueue(p.server, p.store, m, fate, a);
    DeliveryKeepsTheRest(p, RequestOf(m), start, id, turns);
    SentFits(p, m, start, id, turns);
    if AnswerTo(p.server, m, fate).Err? {
      SameRequestFits(p, m, q, start, id, turns);
      SameRequestFits(Deliver(p, RequestOf(m)), m, q, start, id, turns);
    }
  }

  /** A refusal comes from a push that somebody else made since the revision was learned. */
  lemma RefusalIsTheirs(p: Play, m: PendingMutation, start: nat, id: string, turns: seq<Turn>)
    requires PlayInv(p, start, id, turns) && QueueFits(p, [m], start, id, turns)
    requires m.mutationId !in p.server.processed && m.expectedRevision != CurrentRevision(p.server, id)
    ensures var n := ConflictFor(p.server, RequestOf(m)).currentServerSeq;
            p.since < n <= |p.log| && SomeoneElses(p.log, n, id, turns)
  {
    MovedRevisionIsNew(p.server, p.log, p.since, id);
    assert ObjectFits(p.server.objects, p.log, id);
  }

  /** Settled: one more refusal on the list, and the retry is based on the revision as it is now. */
  lemma SettledFits(p: Play, c: ConflictResponse, k: string, start: nat, id: string, turns: seq<Turn>)
    requires Explains(p.server, p.log) && p.server.failNext.None? && RefusalsFit(p, start, id, turns)
    requires p.since < c.currentServerSeq <= |p.log| && SomeoneElses(p.log, c.currentServerSeq, id, turns)
    requires LogIsTheirs(p.log, start, turns) && c.currentRevision == CurrentRevision(p.server, id)
    requires k !in p.server.processed && Rebased(Queued(p.store.mutations, id), k, id, c.currentRevision)
    ensures PlayInv(Settled(p, c), start, id, turns)
  {
    assert p.log[..|p.log|] == p.log && ObjectFits(p.server.objects, p.log, id);
  }

  /** The mutation of this turn has not been accepted, and the server refuses it. */
  predicate IsRefused(p: Play, m: PendingMutation, id: string) {
    && p.server.failNext.None? && m.objectId == id
    && m.mutationId !in p.server.processed && m.expectedRevision != CurrentRevision(p.server, id)
  }

  function RefusedStore(p: Play, m: PendingMutation, a: Attempt): Store {
    OnConflict(InFlightStore(p.store, m), m, ConflictFor(p.server, RequestOf(m)), a)
  }

  /** A refusal leaves the server as it is. */
  lemma RefusedTurn(p: Play, m: PendingMutation, t: Turn, id: string)
    requires Queued(p.store.mutations, id) == [m] && IsRefused(p, m, id) && t.Mine? && t.fate.Delivered?
    ensures PlayTurn(p, id, t)
         == AfterRefusal(p.(store := RefusedStore(p, m, t.a)), m, ConflictFor(p.server, RequestOf(m)), t)
  {
    assert p.log + [] == p.log;
  }

  lemma SettledAtOnceKeepsInv(p: Play, m: PendingMutation, a: Attempt, start: nat, id: string, turns: seq<Turn>)
    requires PlayInv(p, start, id, turns) && QueueFits(p, [m], start, id, turns) && IsRefused(p, m, id)
    requires SettlesItself(m, ConflictFor(p.server, RequestOf(m)), a) && a.retryId !in p.server.processed
    ensures PlayInv(Settled(p.(store := RefusedStore(p, m, a)), ConflictFor(p.server, RequestOf(m))), start, id, turns)
  {
    var c, s1 := ConflictFor(p.server, RequestOf(m)), InFlightStore(p.store, m);
    var x := Clash(m, c, a.key, a.retryId, a.conflictId, a.now);
    RefusalIsTheirs(p, m, start, id, turns);
    LwwRebases(s1, x);
    SettledFits(p.(store := Lww(s1, x)), c, a.retryId, start, id, turns);
  }

  lemma RecordedKeepsInv(p: Play, m: PendingMutation, s: Store, start: nat, id: string, turns: seq<Turn>)
    requires PlayInv(p, start, id, turns) && QueueFits(p, [m], start, id, turns)
    requires SameRequests(Queued(s.mutations, id), [m])
    ensures PlayInv(p.(store := s), start, id, turns)
  {
    SameRequestFits(p, m, Queued(s.mutations, id), start, id, turns);
    assert QueueFits(p.(store := s), Queued(s.mutations, id), start, id, turns);
  }

  /** The decision on a record of this refusal. */
  lemma DecidedKeepsInv(p: Play, m: PendingMutation, s: Store, t: Turn, start: nat, id: string, turns: seq<Turn>)
    requires PlayInv(p, start, id, turns) && QueueFits(p, [m], start, id, turns) && IsRefused(p, m, id)
    requires t.Mine? && StrategyError(s, t.a.conflictId, t.strategy).None?
    requires t.decisionId !in p.server.processed && (t.strategy.Duplicate? ==> t.strategy.newObjectId != id)
    requires s.conflicts[t.a.conflictId].objectId == id
    requires s.conflicts[t.a.conflictId].remoteRevision == CurrentRevision(p.server, id)
    ensures PlayInv(Settled(p.(store := Resolved(s, t.a.conflictId, t.strategy, t.decisionId, t.a.now)),
                            ConflictFor(p.server, RequestOf(m))), start, id, turns)
  {
    var c, s' := ConflictFor(p.server, RequestOf(m)), Resolved(s, t.a.conflictId, t.strategy, t.decisionId, t.a.now);
    RefusalIsTheirs(p, m, start, id, turns);
    ResolutionRebases(s, t.a.conflictId, t.strategy, t.decisionId, t.a.now);
    SettledFits(p.(store := s'), c, t.decisionId, start, id, turns);
  }

  lemma RefusalIsRecorded(p: Play, m: PendingMutation, a: Attempt, strategy: Strategy)
    requires Queued(p.store.mutations, m.objectId) == [m] && a.conflictId !in p.store.conflicts
    requires !SettlesItself(m, ConflictFor(p.server, RequestOf(m)), a)
    ensures var s := RefusedStore(p, m, a);
            && SameRequests(Queued(s.mutations, m.objectId), [m])
            && (StrategyError(s, a.conflictId, strategy).None? ==>
                  && s.conflicts[a.conflictId].objectId == m.objectId
                  && s.conflicts[a.conflictId].remoteRevision == CurrentRevision(p.server, m.objectId))
  {
    MarkedKeepsRequests(p.store, m, InFlight, m.retryCount + 1, m.objectId);
    RecordedQueue(InFlightStore(p.store, m), m, ConflictFor(p.server, RequestOf(m)), a);
  }

  lemma RefusedTurnKeepsInv(p: Play, m: PendingMutation, t: Turn, start: nat, id: string, turns: seq<Turn>)
    requires PlayInv(p, start, id, turns) && Queued(p.store.mutations, id) == [m] && IsRefused(p, m, id)
    requires t.Mine? && t.fate.Delivered? && DrawsNewIds(p, id, t)
    ensures PlayInv(PlayTurn(p, id, t), start, id, turns)
  {
    var c, s := ConflictFor(p.server, RequestOf(m)), RefusedStore(p, m, t.a);
    RefusedTurn(p, m, t, id);
    if SettlesItself(m, c, t.a) {
      SettledAtOnceKeepsInv(p, m, t.a, start, id, turns);
    } else {
      RefusalIsRecorded(p, m, t.a, t.strategy);
      if StrategyError(s, t.a.conflictId, t.strategy).Some? {
        RecordedKeepsInv(p, m, s, start, id, turns);
      } else {
        DecidedKeepsInv(p, m, s, t, start, id, turns);
      }
    }
  }

  lemma TurnKeepsInv(p: Play, start: nat, id: string, turns: seq<Turn>, t: Turn)
    requires PlayInv(p, start, id, turns) && t in turns && DrawsNewIds(p, id, t)
    ensures PlayInv(PlayTurn(p, id, t), start, id, turns)
  {
    var q := Queued(p.store.mutations, id);
    if t.Theirs? {
      TheirTurnKeepsInv(p, start, id, turns, t.req);
    } else if q != [] {
      var m := q[0];
      assert q == [m];
      var r := AnswerTo(p.server, m, t.fate);
      if r.Ok? || !r.error.Conflict? {
        UnrefusedTurnKeepsInv(p, m, t.fate, t.a, start, id, turns);
      } else {
        RefusedTurnKeepsInv(p, m, t, start, id, turns);
      }
    }
  }

  lemma {:induction false} PlayKeepsInv(p: Play, start: nat, id: string, all: seq<Turn>, turns: seq<Turn>)
    requires PlayInv(p, start, id, all) && AllDrawNewIds(p, id, turns)
    requires forall t :: t in turns ==> t in all
    ensures PlayInv(PlayAll(p, id, turns), start, id, all)
    decreases |turns|
  {
    if turns != [] {
      TurnKeepsInv(p, start, id, all, turns[0]);
      PlayKeepsInv(PlayTurn(p, id, turns[0]), start, id, all, turns[1..]);
    }
  }

  /** Increasing sequences above `start` and up to `top`: no more of them than there are numbers. */
  lemma {:induction false} RoomFor(xs: seq<nat>, start: nat, top: nat)
    requires Increasing(xs) && start <= top && forall i :: 0 <= i < |xs| ==> start < xs[i] <= top
    ensures |xs| <= top - start
  {
    if xs != [] {
      var n := |xs| - 1;
      RoomFor(xs[..n], start, xs[n] - 1);
    }
  }

  /**
   * A client whose one queued edit of `id` is based on the server's current revision. In every run, whatever it does
   * about refusals, those it settles report strictly increasing sequences, each that of an accepted push somebody
   * else made since; so it settles at most as many as there were accepted pushes.
   */
  lemma RefusalsAreSomeoneElses(s: Server, log: seq<Entry>, store: Store, m: PendingMutation, id: string,
                                turns: seq<Turn>)
    requires Explains(s, log) && s.failNext.None?
    requires Queued(store.mutations, id) == [m] && m.mutationId !in s.processed
    requires m.expectedRevision == CurrentRevision(s, id)
    requires AllDrawNewIds(Play(s, log, store, |log|, []), id, turns)
    ensures var end := PlayAll(Play(s, log, store, |log|, []), id, turns);
            && Increasing(end.refusals)
            && (forall i :: 0 <= i < |end.refusals| ==>
                  |log| < end.refusals[i] && SomeoneElses(end.log, end.refusals[i], id, turns))
            && |end.refusals| <= |end.log| - |log|
  {
    var p := Play(s, log, store, |log|, []);
    assert ObjectFits(s.objects, log, id);
    assert log[..|log|] == log;
    QueuedMembers(store.mutations, id);
    assert m in Queued(store.mutations, id);
    PlayKeepsInv(p, |log|, id, turns, turns);
    var end := PlayAll(p, id, turns);
    RoomFor(end.refusals, |log|, |end.log|);
  }
}
