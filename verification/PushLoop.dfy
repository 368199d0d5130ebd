/**
 * The push loop: a snapshot of the queue sent one mutation after the other. Whatever it meets and whatever others do
 * between its rounds, what happens is a sequence of single turns, so what holds of all interleavings of turns holds
 * of loops that overlap.
 */
module PushLoop {
  import opened Text
  import opened Protocol
  import opened Storage
  import opened SyncServer
  import opened Conflicts
  import opened Convergence

  datatype Options = Options(maxMutations: Option<nat>, stopOnConflict: bool)

  /** Why the loop ended: done or at its limit, stopped at a conflict, a fatal answer, or a failure of the queue. */
  datatype End = Finished | StoppedAtConflict | FatalAnswer(error: NetworkError) | QueueFailure(cause: QueueError)

  datatype Pushed = Pushed(server: Server, store: Store, end: End)

  /** What the loop does after one answer: go on, or end. */
  function EndAfter(m: PendingMutation, outcome: Outcome<PushResponse>, a: Attempt, stopOnConflict: bool): Option<End> {
    match outcome
    case Ok(_) => None
    case Err(Conflict(c)) =>
      if SettlesItself(m, c, a) then None
      else if RecordFails(m, c, a.merge) then Some(QueueFailure(DecryptionFailed))
      else if stopOnConflict then Some(StoppedAtConflict)
      else None
    case Err(ConnectionFailed) => None
    case Err(ServerError(_)) => None
    case Err(error) => Some(FatalAnswer(error))
  }

  /** The loop over the rest of the snapshot; `n` mutations have been attempted, the next with `attempts(n)`. */
  function PushFrom(server: Server, s: Store, pending: seq<PendingMutation>, n: nat, o: Options,
                    attempts: nat -> Attempt): Pushed
    decreases |pending|
  {
    if pending == [] || (o.maxMutations.Some? && n >= o.maxMutations.value) then Pushed(server, s, Finished)
    else
      var m := pending[0];
      if m.status.Failed? then PushFrom(server, s, pending[1..], n, o, attempts)
      else if m.mutationId !in Ids(s.mutations) then Pushed(server, s, QueueFailure(NotFound))
      else
        var server', s' := ServerAfter(server, m, Delivered), StoreAfter(server, s, m, Delivered, attempts(n));
        var end := EndAfter(m, AnswerTo(server, m, Delivered), attempts(n), o.stopOnConflict);
        if end.Some? then Pushed(server', s', end.value)
        else PushFrom(server', s', pending[1..], n + 1, o, attempts)
  }

  // ---------------------------------------------------------------- what stays in the queue

  /** Mutations of the snapshot that are still queued are queued as they were. */
  ghost predicate AsSnapshot(ms: seq<PendingMutation>, pending: seq<PendingMutation>) {
    forall q :: q in pending && q.mutationId in Ids(ms) ==> q in ms
  }

  /** The retry ids from attempt `n` on are new, to the queue, to the snapshot and to each other. */
  ghost predicate NewIds(ms: seq<PendingMutation>, pending: seq<PendingMutation>, n: nat, attempts: nat -> Attempt) {
    && (forall k :: k >= n ==> attempts(k).retryId !in Ids(ms) && attempts(k).retryId !in Ids(pending))
    && (forall j, k :: n <= j < k ==> attempts(j).retryId != attempts(k).retryId)
  }

  ghost predicate Ready(ms: seq<PendingMutation>, pending: seq<PendingMutation>, n: nat, attempts: nat -> Attempt) {
    DistinctIds(pending) && AsSnapshot(ms, pending) && NewIds(ms, pending, n, attempts)
  }

  /** What a round does to the queue, for every mutation under another id: keep it as it is, or drop it. */
  ghost predicate OnlyTouches(ms: seq<PendingMutation>, ms': seq<PendingMutation>, k: string, retryId: string) {
    && Ids(ms') <= Ids(ms) + {retryId}
    && (forall q :: q in ms && q.mutationId != k && q.mutationId in Ids(ms') ==> q in ms')
  }

  lemma MemberHasId(ms: seq<PendingMutation>, q: PendingMutation)
    requires q in ms
    ensures q.mutationId in Ids(ms)
  {
    var i :| 0 <= i < |ms| && ms[i] == q;
  }

  lemma IdHasMember(ms: seq<PendingMutation>, k: string) returns (q: PendingMutation)
    requires k in Ids(ms)
    ensures q in ms && q.mutationId == k
  {
    var i :| 0 <= i < |ms| && ms[i].mutationId == k;
    q := ms[i];
  }

  lemma SubqueueTouches(ms: seq<PendingMutation>, ms': seq<PendingMutation>, k: string, retryId: string)
    requires DistinctIds(ms) && forall q :: q in ms' ==> q in ms
    ensures OnlyTouches(ms, ms', k, retryId)
  {
    forall j | j in Ids(ms') ensures j in Ids(ms) {
      var q := IdHasMember(ms', j);
      MemberHasId(ms, q);
    }
    forall q | q in ms && q.mutationId in Ids(ms') ensures q in ms' {
      var p := IdHasMember(ms', q.mutationId);
      UniqueById(ms, p, q);
    }
  }

  lemma AppendTouches(ms: seq<PendingMutation>, ms': seq<PendingMutation>, r: PendingMutation, k: string)
    requires OnlyTouches(ms, ms', k, r.mutationId) && r.mutationId !in Ids(ms)
    ensures OnlyTouches(ms, ms' + [r], k, r.mutationId)
  {
    IdsOfExtended(ms', r);
    forall q | q in ms && q.mutationId != k && q.mutationId in Ids(ms' + [r]) ensures q in ms' + [r] {
      MemberHasId(ms, q);
      assert q.mutationId in Ids(ms');
    }
  }

  lemma {:induction false} StatusTouches(ms: seq<PendingMutation>, k: string, status: MutationStatus, retries: nat,
                                         q: PendingMutation)
    requires q in ms && q.mutationId != k
    ensures q in WithStatus(ms, k, status, retries)
  {
    if ms[0].mutationId != k && ms[0] != q {
      assert q in ms[1..];
      StatusTouches(ms[1..], k, status, retries, q);
    }
  }

  lemma MarkedTouches(s: Store, m: PendingMutation, status: MutationStatus, retries: nat, retryId: string)
    ensures OnlyTouches(s.mutations, Marked(s, m, status, retries).mutations, m.mutationId, retryId)
  {
    StatusKeepsTheRest(s.mutations, m, status, retries);
    forall q | q in s.mutations && q.mutationId != m.mutationId ensures q in Marked(s, m, status, retries).mutations {
      StatusTouches(s.mutations, m.mutationId, status, retries, q);
    }
  }

  lemma LwwTouches(s: Store, x: Clash)
    requires DistinctIds(s.mutations) && x.retryId !in Ids(s.mutations)
    ensures OnlyTouches(s.mutations, Lww(s, x).mutations, x.m.mutationId, x.retryId)
  {
    var others := Without(s.mutations, x.m.objectId);
    WithoutMembers(s.mutations, x.m.objectId);
    SubqueueTouches(s.mutations, others, x.m.mutationId, x.retryId);
    AppendTouches(s.mutations, others,
      Retry(x.retryId, x.m.objectId, x.m.objectKind, Upsert, x.m.envelope, x.c.currentRevision, x.now), x.m.mutationId);
  }

  lemma HandledTouches(s: Store, m: PendingMutation, outcome: Outcome<PushResponse>, a: Attempt)
    requires DistinctIds(s.mutations) && a.retryId !in Ids(s.mutations)
    ensures OnlyTouches(s.mutations, Handled(s, m, outcome, a).mutations, m.mutationId, a.retryId)
  {
    MarkedTouches(s, m, Pending, m.retryCount + 1, a.retryId);
    MarkedTouches(s, m, Failed, m.retryCount + 1, a.retryId);
    match outcome
    case Ok(resp) =>
      DropIdsMembers(s.mutations, {m.mutationId});
      SubqueueTouches(s.mutations, DropIds(s.mutations, {m.mutationId}), m.mutationId, a.retryId);
    case Err(Conflict(c)) => LwwTouches(s, Clash(m, c, a.key, a.retryId, a.conflictId, a.now));
    case Err(_) =>
  }

  lemma TouchesTwice(a: seq<PendingMutation>, b: seq<PendingMutation>, c: seq<PendingMutation>, k: string,
                     retryId: string)
    requires OnlyTouches(a, b, k, retryId) && Ids(a) == Ids(b) && OnlyTouches(b, c, k, retryId)
    ensures OnlyTouches(a, c, k, retryId)
  {
    forall q | q in a && q.mutationId != k && q.mutationId in Ids(c) ensures q in c {
      MemberHasId(a, q);
      assert q in b;
    }
  }

  lemma RoundTouches(server: Server, s: Store, m: PendingMutation, fate: Fate, a: Attempt)
    requires DistinctIds(s.mutations) && a.retryId !in Ids(s.mutations)
    ensures OnlyTouches(s.mutations, StoreAfter(server, s, m, fate, a).mutations, m.mutationId, a.retryId)
  {
    var s1 := InFlightStore(s, m);
    MarkedTouches(s, m, InFlight, m.retryCount + 1, a.retryId);
    StatusStaysDistinct(s, m, InFlight, m.retryCount + 1);
    HandledTouches(s1, m, AnswerTo(server, m, fate), a);
    TouchesTwice(s.mutations, s1.mutations, StoreAfter(server, s, m, fate, a).mutations, m.mutationId, a.retryId);
  }

  /** After a round the rest of the snapshot and of the retry ids are as good as before. */
  lemma RoundKeepsSnapshot(ms: seq<PendingMutation>, ms': seq<PendingMutation>, pending: seq<PendingMutation>, n: nat,
                           attempts: nat -> Attempt)
    requires pending != [] && Ready(ms, pending, n, attempts)
    requires OnlyTouches(ms, ms', pending[0].mutationId, attempts(n).retryId)
    ensures Ready(ms', pending[1..], n + 1, attempts)
  {
    RestIds(pending);
    forall q | q in pending[1..] && q.mutationId in Ids(ms') ensures q in ms' {
      assert q in pending;
      MemberHasId(pending, q);
      assert q.mutationId in Ids(ms);
    }
    forall k | k >= n + 1 ensures attempts(k).retryId !in Ids(ms') {
      assert attempts(k).retryId !in Ids(ms) && attempts(n).retryId != attempts(k).retryId;
    }
  }

  lemma SkipKeepsSnapshot(ms: seq<PendingMutation>, pending: seq<PendingMutation>, n: nat, attempts: nat -> Attempt)
    requires pending != [] && Ready(ms, pending, n, attempts)
    ensures Ready(ms, pending[1..], n, attempts)
  {
    RestIds(pending);
  }

  lemma RestIds(pending: seq<PendingMutation>)
    requires pending != [] && DistinctIds(pending)
    ensures DistinctIds(pending[1..]) && Ids(pending[1..]) <= Ids(pending)
    ensures forall q :: q in pending[1..] ==> q in pending && q.mutationId != pending[0].mutationId
  {
    var rest := pending[1..];
    assert forall i :: 0 <= i < |rest| ==> rest[i] == pending[i + 1];
    forall k | k in Ids(rest) ensures k in Ids(pending) {
      var q := IdHasMember(rest, k);
      assert q in pending;
      MemberHasId(pending, q);
    }
  }

  // ---------------------------------------------------------------- the routine

  method PushPendingChanges(adapter: Adapter, st: MemoryStorage, o: Options, attempts: nat -> Attempt)
    returns (end: End)
    requires st.Valid() && NewIds(st.mutations, st.mutations, 0, attempts)
    modifies adapter, st
    ensures st.Valid()
    ensures Pushed(adapter.View(), st.View(), end)
         == PushFrom(old(adapter.View()), old(st.View()), old(st.mutations), 0, o, attempts)
  {
    var pending := st.mutations;
    var attempted := 0;
    while pending != []
      invariant st.Valid() && Ready(st.mutations, pending, attempted, attempts)
      invariant PushFrom(adapter.View(), st.View(), pending, attempted, o, attempts)
             == PushFrom(old(adapter.View()), old(st.View()), old(st.mutations), 0, o, attempts)
      decreases |pending|
    {
      var m := pending[0];
      if o.maxMutations.Some? && attempted >= o.maxMutations.value {
        return Finished;
      }
      if m.status.Failed? {
        SkipKeepsSnapshot(st.mutations, pending, attempted, attempts);
      } else {
        var queued := st.GetMutation(m.mutationId);
        if queued.None? {
          return QueueFailure(NotFound);
        }
        var stop := PushNext(adapter, st, pending, attempted, o, attempts);
        if stop.Some? {
          return stop.value;
        }
        attempted := attempted + 1;
      }
      pending := pending[1..];
    }
    return Finished;
  }

  /** One round, and whether the loop ends after it. */
  method PushNext(adapter: Adapter, st: MemoryStorage, pending: seq<PendingMutation>, n: nat, o: Options,
                  attempts: nat -> Attempt)
    returns (stop: Option<End>)
    requires st.Valid() && pending != [] && !pending[0].status.Failed? && pending[0].mutationId in Ids(st.mutations)
    requires Ready(st.mutations, pending, n, attempts)
    modifies adapter, st
    ensures st.Valid() && Ready(st.mutations, pending[1..], n + 1, attempts)
    ensures adapter.View() == ServerAfter(old(adapter.View()), pending[0], Delivered)
    ensures st.View() == StoreAfter(old(adapter.View()), old(st.View()), pending[0], Delivered, attempts(n))
    ensures stop == EndAfter(pending[0], AnswerTo(old(adapter.View()), pending[0], Delivered), attempts(n),
                             o.stopOnConflict)
  {
    var m, a := pending[0], attempts(n);
    RoundTouches(adapter.View(), st.View(), m, Delivered, a);
    var outcome, r := PushOne(adapter, st, m, a);
    RoundKeepsSnapshot(old(st.mutations), st.mutations, pending, n, attempts);
    stop := None;
    if r.Refused? {
      stop := Some(QueueFailure(DecryptionFailed));
    } else if outcome.Err? {
      var error := outcome.error;
      if error.Conflict? {
        if !(a.policy.GuardedLww? && !IsDeletionConflict(m, error.response)) && o.stopOnConflict {
          stop := Some(StoppedAtConflict);
        }
      } else if !error.ConnectionFailed? && !error.ServerError? {
        stop := Some(FatalAnswer(error));
      }
    }
  }

  // ---------------------------------------------------------------- a loop among other clients

  /** What reaches the loop from outside: each round's fate, and what other clients do before it is sent. */
  datatype Outside = Outside(fates: nat -> Fate, others: nat -> seq<Turn>)

  ghost predicate AreOthers(turns: seq<Turn>, i: nat) {
    forall t :: t in turns ==> t.client != i
  }

  ghost predicate LeavesAlone(w: Outside, i: nat) {
    forall n :: AreOthers(w.others(n), i)
  }

  datatype Looped = Looped(sys: System, end: End)

  /** Round `n`: the others' turns, then this client's mutation `m`. */
  function RoundIn(sys: System, i: nat, m: PendingMutation, n: nat, attempts: nat -> Attempt, w: Outside): System {
    var met := AfterAll(sys, w.others(n));
    if i >= |met.clients| then met
    else
      System(ServerAfter(met.server, m, w.fates(n)),
             met.clients[i := StoreAfter(met.server, met.clients[i], m, w.fates(n), attempts(n))])
  }

  /** The loop of client `i` while others take turns. */
  function LoopIn(sys: System, i: nat, pending: seq<PendingMutation>, n: nat, o: Options, attempts: nat -> Attempt,
                  w: Outside): Looped
    decreases |pending|
  {
    if pending == [] || (o.maxMutations.Some? && n >= o.maxMutations.value) then Looped(sys, Finished)
    else if i >= |sys.clients| then Looped(sys, Finished)
    else
      var m := pending[0];
      if m.status.Failed? then LoopIn(sys, i, pending[1..], n, o, attempts, w)
      else if m.mutationId !in Ids(sys.clients[i].mutations) then Looped(sys, QueueFailure(NotFound))
      else
        var sys' := RoundIn(sys, i, m, n, attempts, w);
        var end := EndAfter(m, AnswerTo(AfterAll(sys, w.others(n)).server, m, w.fates(n)), attempts(n),
                            o.stopOnConflict);
        if end.Some? then Looped(sys', end.value)
        else LoopIn(sys', i, pending[1..], n + 1, o, attempts, w)
  }

  /** Nothing lost and nobody else about. */
  ghost predicate Quiet(w: Outside) {
    forall n :: w.fates(n) == Delivered && w.others(n) == []
  }

  /** In the quiet the loop among others is the routine's loop. */
  lemma {:induction false} QuietLoopIsPushFrom(sys: System, i: nat, pending: seq<PendingMutation>, n: nat, o: Options,
                                               attempts: nat -> Attempt, w: Outside)
    requires i < |sys.clients| && Quiet(w)
    ensures var end := PushFrom(sys.server, sys.clients[i], pending, n, o, attempts);
            LoopIn(sys, i, pending, n, o, attempts, w)
                == Looped(System(end.server, sys.clients[i := end.store]), end.end)
    decreases |pending|
  {
    assert sys.clients[i := sys.clients[i]] == sys.clients;
    if pending != [] && !(o.maxMutations.Some? && n >= o.maxMutations.value) {
      var m := pending[0];
      if m.status.Failed? {
        QuietLoopIsPushFrom(sys, i, pending[1..], n, o, attempts, w);
      } else if m.mutationId in Ids(sys.clients[i].mutations) {
        var sys' := RoundIn(sys, i, m, n, attempts, w);
        assert w.fates(n) == Delivered && AfterAll(sys, w.others(n)) == sys;
        QuietLoopIsPushFrom(sys', i, pending[1..], n + 1, o, attempts, w);
        var rest := PushFrom(sys'.server, sys'.clients[i], pending[1..], n + 1, o, attempts);
        assert sys'.clients[i := rest.store] == sys.clients[i := rest.store];
      }
    }
  }

  // ---------------------------------------------------------------- a loop is a sequence of turns

  lemma {:induction false} AfterAllOfConcat(sys: System, xs: seq<Turn>, ys: seq<Turn>)
    ensures AfterAll(sys, xs + ys) == AfterAll(AfterAll(sys, xs), ys)
    decreases |xs|
  {
    if xs == [] {
      assert xs + ys == ys;
    } else {
      assert (xs + ys)[1..] == xs[1..] + ys;
      AfterAllOfConcat(After(sys, xs[0]), xs[1..], ys);
    }
  }

  /** Other clients' turns do not touch this one's store. */
  lemma {:induction false} OthersLeaveStore(sys: System, turns: seq<Turn>, i: nat)
    requires i < |sys.clients| && AreOthers(turns, i)
    ensures var sys' := AfterAll(sys, turns); |sys'.clients| == |sys.clients| && sys'.clients[i] == sys.clients[i]
    decreases |turns|
  {
    if turns != [] {
      assert turns[0] in turns;
      OthersLeaveStore(After(sys, turns[0]), turns[1..], i);
    }
  }

  /** The mutation sits somewhere in the queue. */
  lemma PositionOf(ms: seq<PendingMutation>, m: PendingMutation) returns (pos: nat)
    requires m in ms
    ensures pos < |ms| && ms[pos] == m
  {
    pos :| pos < |ms| && ms[pos] == m;
  }

  /** This client's turns of a run. */
  function Own(turns: seq<Turn>, i: nat): seq<Turn> {
    if turns == [] then []
    else if turns[0].client == i then [turns[0]] + Own(turns[1..], i)
    else Own(turns[1..], i)
  }

  /** The others' turns of a run. */
  function Others(turns: seq<Turn>, i: nat): seq<Turn> {
    if turns == [] then []
    else if turns[0].client != i then [turns[0]] + Others(turns[1..], i)
    else Others(turns[1..], i)
  }

  /** What the others did before rounds `n` to `n + k - 1`. */
  function Meanwhile(w: Outside, n: nat, k: nat): seq<Turn>
    decreases k
  {
    if k == 0 then [] else w.others(n) + Meanwhile(w, n + 1, k - 1)
  }

  // ---------------------------------------------------------------- what is sent, and what ends the loop

  /** What client `i` pushed in a run, and the answer it saw. */
  datatype Round = Round(m: PendingMutation, answer: Outcome<PushResponse>, a: Attempt)

  function Rounds(sys: System, turns: seq<Turn>, i: nat): seq<Round>
    decreases |turns|
  {
    if turns == [] then []
    else
      var t, rest := turns[0], Rounds(Convergence.After(sys, turns[0]), turns[1..], i);
      if t.client == i && Enabled(sys, t) then [Round(Mover(sys, t), Answer(sys, t), t.attempt)] + rest else rest
  }

  /** A conflict that was written down for the user. */
  predicate IsRecorded(r: Round) {
    && r.answer.Err? && r.answer.error.Conflict?
    && (r.a.policy.Manual? || IsDeletionConflict(r.m, r.answer.error.response))
    && !RecordFails(r.m, r.answer.error.response, r.a.merge)
  }

  /** A conflict whose record cannot be made. */
  predicate IsUnrecordable(r: Round) {
    && r.answer.Err? && r.answer.error.Conflict?
    && (r.a.policy.Manual? || IsDeletionConflict(r.m, r.answer.error.response))
    && RecordFails(r.m, r.answer.error.response, r.a.merge)
  }

  /** Neither accepted, nor a conflict, nor a failure that may pass. */
  predicate IsFatal(r: Round) {
    r.answer.Err? && (r.answer.error.ReplayMismatch? || r.answer.error.Fatal?)
  }

  predicate GoesOn(r: Round, o: Options) {
    !IsFatal(r) && !IsUnrecordable(r) && (IsRecorded(r) ==> !o.stopOnConflict)
  }

  /** The mutations of the snapshot a loop is to send. */
  function Sendable(pending: seq<PendingMutation>): seq<PendingMutation> {
    if pending == [] then []
    else if pending[0].status == Failed then Sendable(pending[1..])
    else [pending[0]] + Sendable(pending[1..])
  }

  predicate AtLimit(n: nat, o: Options) {
    o.maxMutations.Some? && n >= o.maxMutations.value
  }

  /** The first of what is to be sent, each once and in order, within the limit. */
  ghost predicate SentInOrder(rounds: seq<Round>, due: seq<PendingMutation>, n: nat, o: Options) {
    && |rounds| <= |due| && (forall k :: 0 <= k < |rounds| ==> rounds[k].m == due[k])
    && (rounds != [] && o.maxMutations.Some? ==> n + |rounds| <= o.maxMutations.value)
  }

  /** All rounds but the last, and the last too if nothing is said about it, let the loop go on. */
  ghost predicate GoOn(rounds: seq<Round>, o: Options, lastToo: bool) {
    forall k :: 0 <= k < |rounds| && (k < |rounds| - 1 || lastToo) ==> GoesOn(rounds[k], o)
  }

  /**
   * How a loop ends, with the store `s`: at the end of the snapshot or the limit, or as the last answer calls for, or
   * because the next mutation is not queued any more.
   */
  ghost predicate EndsAs(rounds: seq<Round>, due: seq<PendingMutation>, n: nat, o: Options, end: End, s: Store)
    requires |rounds| <= |due|
  {
    match end
    case Finished => GoOn(rounds, o, true) && (|rounds| == |due| || AtLimit(n + |rounds|, o))
    case StoppedAtConflict =>
      GoOn(rounds, o, false) && o.stopOnConflict && rounds != [] && IsRecorded(rounds[|rounds| - 1])
    case FatalAnswer(e) =>
      && GoOn(rounds, o, false) && rounds != [] && IsFatal(rounds[|rounds| - 1])
      && rounds[|rounds| - 1].answer == Err(e)
    case QueueFailure(cause) =>
      if cause.DecryptionFailed? then GoOn(rounds, o, false) && rounds != [] && IsUnrecordable(rounds[|rounds| - 1])
      else
        && cause.NotFound? && GoOn(rounds, o, true)
        && |rounds| < |due| && due[|rounds|].mutationId !in Ids(s.mutations)
  }

  ghost predicate Tells(rounds: seq<Round>, pending: seq<PendingMutation>, n: nat, o: Options, end: End, s: Store) {
    SentInOrder(rounds, Sendable(pending), n, o) && EndsAs(rounds, Sendable(pending), n, o, end, s)
  }

  /** Left to itself the loop sends everything; only three kinds of answers end it, each at once and as it should. */
  lemma WhatEndsTheLoop(rounds: seq<Round>, pending: seq<PendingMutation>, n: nat, o: Options, end: End, s: Store)
    requires Tells(rounds, pending, n, o, end, s)
    ensures (forall k :: 0 <= k < |rounds| ==> GoesOn(rounds[k], o)) && end != QueueFailure(NotFound) ==>
              end == Finished && (|rounds| == |Sendable(pending)| || AtLimit(n + |rounds|, o))
    ensures forall k :: 0 <= k < |rounds| && IsFatal(rounds[k]) ==>
              k == |rounds| - 1 && end == FatalAnswer(rounds[k].answer.error)
    ensures forall k :: 0 <= k < |rounds| && IsUnrecordable(rounds[k]) ==>
              k == |rounds| - 1 && end == QueueFailure(DecryptionFailed)
    ensures forall k :: 0 <= k < |rounds| && IsRecorded(rounds[k]) && o.stopOnConflict ==>
              k == |rounds| - 1 && end == StoppedAtConflict
  {
    if rounds != [] {
      LastDecides(rounds[|rounds| - 1], rounds, Sendable(pending), n, o, end, s);
    }
  }

  lemma LastDecides(r: Round, rounds: seq<Round>, due: seq<PendingMutation>, n: nat, o: Options, end: End, s: Store)
    requires 0 < |rounds| <= |due| && r == rounds[|rounds| - 1] && EndsAs(rounds, due, n, o, end, s)
    ensures GoOn(rounds, o, false)
    ensures IsFatal(r) ==> end == FatalAnswer(r.answer.error)
    ensures IsUnrecordable(r) ==> end == QueueFailure(DecryptionFailed)
    ensures IsRecorded(r) && o.stopOnConflict ==> end == StoppedAtConflict
    ensures GoesOn(r, o) ==> end == Finished || end == QueueFailure(NotFound)
  {
    assert GoOn(rounds, o, true) ==> GoesOn(rounds[|rounds| - 1], o);
  }

  ghost predicate LoopTells(rounds: seq<Round>, i: nat, pending: seq<PendingMutation>, n: nat, o: Options, l: Looped) {
    i < |l.sys.clients| && Tells(rounds, pending, n, o, l.end, l.sys.clients[i])
  }

  /** Nothing sent: nothing to send, the limit reached, or the first mutation gone. */
  lemma TellsNothing(pending: seq<PendingMutation>, n: nat, o: Options, end: End, s: Store)
    requires || (end == Finished && (pending == [] || AtLimit(n, o)))
             || (&& end == QueueFailure(NotFound) && pending != [] && !pending[0].status.Failed?
                 && pending[0].mutationId !in Ids(s.mutations))
    ensures Tells([], pending, n, o, end, s)
  {}

  lemma {:induction false} RoundsAfterOthers(sys: System, xs: seq<Turn>, ys: seq<Turn>, i: nat)
    requires AreOthers(xs, i)
    ensures Rounds(sys, xs + ys, i) == Rounds(AfterAll(sys, xs), ys, i)
    decreases |xs|
  {
    if xs == [] {
      assert xs + ys == ys;
    } else {
      assert (xs + ys)[1..] == xs[1..] + ys && xs[0] in xs;
      RoundsAfterOthers(Convergence.After(sys, xs[0]), xs[1..], ys, i);
    }
  }

  lemma RoundsOfTurn(sys: System, xs: seq<Turn>, t: Turn, rest: seq<Turn>, i: nat)
    requires AreOthers(xs, i) && t.client == i && Enabled(AfterAll(sys, xs), t)
    ensures var met := AfterAll(sys, xs);
            var r := Round(Mover(met, t), Answer(met, t), t.attempt);
            Rounds(sys, xs + [t] + rest, i) == [r] + Rounds(Convergence.After(met, t), rest, i)
  {
    assert xs + [t] + rest == xs + ([t] + rest) && ([t] + rest)[1..] == rest;
    RoundsAfterOthers(sys, xs, [t] + rest, i);
  }

  /** One more round in front, with an answer that lets the loop go on. */
  lemma TellsOneMore(r: Round, rounds: seq<Round>, pending: seq<PendingMutation>, n: nat, o: Options, end: End,
                     s: Store)
    requires pending != [] && !pending[0].status.Failed? && r.m == pending[0] && !AtLimit(n, o) && GoesOn(r, o)
    requires Tells(rounds, pending[1..], n + 1, o, end, s)
    ensures Tells([r] + rounds, pending, n, o, end, s)
  {
    var due := Sendable(pending[1..]);
    assert Sendable(pending) == [pending[0]] + due;
    OneMoreSent(r, rounds, due, n, o);
    OneMoreEnds(r, rounds, due, n, o, end, s);
  }

  lemma OneMoreSent(r: Round, rounds: seq<Round>, due: seq<PendingMutation>, n: nat, o: Options)
    requires SentInOrder(rounds, due, n + 1, o) && !AtLimit(n, o)
    ensures SentInOrder([r] + rounds, [r.m] + due, n, o)
  {
    forall k | 0 <= k < |[r] + rounds| ensures ([r] + rounds)[k].m == ([r.m] + due)[k] {
      assert k > 0 ==> ([r] + rounds)[k] == rounds[k - 1] && ([r.m] + due)[k] == due[k - 1];
    }
  }

  lemma OneMoreGoesOn(r: Round, rounds: seq<Round>, o: Options, lastToo: bool)
    requires GoesOn(r, o) && GoOn(rounds, o, lastToo)
    ensures GoOn([r] + rounds, o, lastToo)
  {
    forall k | 0 < k < |[r] + rounds| ensures ([r] + rounds)[k] == rounds[k - 1] {}
  }

  lemma OneMoreEnds(r: Round, rounds: seq<Round>, due: seq<PendingMutation>, n: nat, o: Options, end: End, s: Store)
    requires GoesOn(r, o) && |rounds| <= |due| && EndsAs(rounds, due, n + 1, o, end, s)
    ensures EndsAs([r] + rounds, [r.m] + due, n, o, end, s)
  {
    var all := [r] + rounds;
    if GoOn(rounds, o, true) {
      OneMoreGoesOn(r, rounds, o, true);
    }
    if GoOn(rounds, o, false) {
      OneMoreGoesOn(r, rounds, o, false);
    }
    assert rounds != [] ==> all[|all| - 1] == rounds[|rounds| - 1];
    assert |rounds| < |due| ==> ([r.m] + due)[|all|] == due[|rounds|];
  }

  /** What `EndAfter` decides, read off the answer. */
  lemma EndIsAsAnswered(m: PendingMutation, answer: Outcome<PushResponse>, a: Attempt, o: Options)
    ensures var r, end := Round(m, answer, a), EndAfter(m, answer, a, o.stopOnConflict);
            if end.None? then GoesOn(r, o)
            else
              || (end == Some(StoppedAtConflict) && o.stopOnConflict && IsRecorded(r))
              || (end == Some(QueueFailure(DecryptionFailed)) && IsUnrecordable(r))
              || (IsFatal(r) && end == Some(FatalAnswer(answer.error)))
  {}

  lemma TellsTheLast(r: Round, pending: seq<PendingMutation>, n: nat, o: Options, end: End, s: Store)
    requires pending != [] && !pending[0].status.Failed? && r.m == pending[0] && !AtLimit(n, o)
    requires Some(end) == EndAfter(r.m, r.answer, r.a, o.stopOnConflict)
    ensures Tells([r], pending, n, o, end, s)
  {
    EndIsAsAnswered(r.m, r.answer, r.a, o);
    assert Sendable(pending)[0] == pending[0];
  }

  /** The run is made of rounds from `n` on: what the others did before each, and one own turn with its fate. */
  ghost predicate AreRounds(turns: seq<Turn>, i: nat, n: nat, attempts: nat -> Attempt, w: Outside) {
    && Others(turns, i) == Meanwhile(w, n, |Own(turns, i)|)
    && forall k :: 0 <= k < |Own(turns, i)| ==>
         Own(turns, i)[k].fate == w.fates(n + k) && Own(turns, i)[k].attempt == attempts(n + k)
  }

  lemma {:induction false} SidesOfRound(xs: seq<Turn>, t: Turn, rest: seq<Turn>, i: nat)
    requires AreOthers(xs, i) && t.client == i
    ensures Own(xs + [t] + rest, i) == [t] + Own(rest, i) && Others(xs + [t] + rest, i) == xs + Others(rest, i)
    decreases |xs|
  {
    var run := xs + [t] + rest;
    if xs == [] {
      assert run[1..] == rest;
    } else {
      assert xs[0] in xs && run[1..] == xs[1..] + [t] + rest;
      SidesOfRound(xs[1..], t, rest, i);
    }
  }

  /**
   * A loop of client `i` while others take any turns between its rounds, whatever becomes of its requests, is a run
   * of turns: one of its own for each round, with that round's fate, and the others' as they came. Its rounds send
   * the snapshot in order, and what they are answered decides how the loop ends.
   */
  lemma {:induction false} LoopIsTurns(sys: System, i: nat, pending: seq<PendingMutation>, n: nat, o: Options,
                                       attempts: nat -> Attempt, w: Outside)
    returns (turns: seq<Turn>)
    requires i < |sys.clients| && DistinctIds(sys.clients[i].mutations) && LeavesAlone(w, i)
    requires Ready(sys.clients[i].mutations, pending, n, attempts)
    ensures AfterAll(sys, turns) == LoopIn(sys, i, pending, n, o, attempts, w).sys
    ensures LoopTells(Rounds(sys, turns, i), i, pending, n, o, LoopIn(sys, i, pending, n, o, attempts, w))
    ensures |Own(turns, i)| <= |pending| && AreRounds(turns, i, n, attempts, w)
    decreases |pending|, 1
  {
    turns := [];
    if pending == [] || AtLimit(n, o) {
      TellsNothing(pending, n, o, Finished, sys.clients[i]);
    } else if pending[0].status.Failed? {
      SkipKeepsSnapshot(sys.clients[i].mutations, pending, n, attempts);
      turns := LoopIsTurns(sys, i, pending[1..], n, o, attempts, w);
    } else if pending[0].mutationId in Ids(sys.clients[i].mutations) {
      turns := RoundIsTurn(sys, i, pending, n, o, attempts, w);
    } else {
      TellsNothing(pending, n, o, QueueFailure(NotFound), sys.clients[i]);
    }
  }

  /** The turns of one round. */
  lemma RoundIsOneTurn(sys: System, i: nat, m: PendingMutation, n: nat, attempts: nat -> Attempt, w: Outside)
    returns (t: Turn)
    requires i < |sys.clients| && AreOthers(w.others(n), i) && m in sys.clients[i].mutations
    ensures t.client == i && t.fate == w.fates(n) && t.attempt == attempts(n)
    ensures var met := AfterAll(sys, w.others(n));
            Enabled(met, t) && Mover(met, t) == m && Convergence.After(met, t) == RoundIn(sys, i, m, n, attempts, w)
    ensures AfterAll(sys, w.others(n) + [t]) == RoundIn(sys, i, m, n, attempts, w)
  {
    var met := AfterAll(sys, w.others(n));
    OthersLeaveStore(sys, w.others(n), i);
    var pos := PositionOf(met.clients[i].mutations, m);
    t := Turn(i, pos, w.fates(n), attempts(n));
    AfterAllOfConcat(sys, w.others(n), [t]);
    assert [t][1..] == [] && AfterAll(met, [t]) == AfterAll(After(met, t), []);
  }

  /** After a round this client can go on with the rest. */
  lemma RoundLeavesReady(sys: System, i: nat, pending: seq<PendingMutation>, n: nat, attempts: nat -> Attempt,
                         w: Outside)
    requires i < |sys.clients| && DistinctIds(sys.clients[i].mutations) && AreOthers(w.others(n), i)
    requires pending != [] && Ready(sys.clients[i].mutations, pending, n, attempts)
    ensures var sys' := RoundIn(sys, i, pending[0], n, attempts, w);
            && |sys'.clients| == |sys.clients| && DistinctIds(sys'.clients[i].mutations)
            && Ready(sys'.clients[i].mutations, pending[1..], n + 1, attempts)
  {
    var met, s, m := AfterAll(sys, w.others(n)), sys.clients[i], pending[0];
    OthersLeaveStore(sys, w.others(n), i);
    RoundTouches(met.server, s, m, w.fates(n), attempts(n));
    RoundStaysDistinct(met.server, s, m, w.fates(n), attempts(n));
    RoundKeepsSnapshot(s.mutations, StoreAfter(met.server, s, m, w.fates(n), attempts(n)).mutations, pending, n,
                       attempts);
  }

  /** A round and what follows it tell the loop. */
  lemma RoundTells(sys: System, i: nat, pending: seq<PendingMutation>, n: nat, o: Options, attempts: nat -> Attempt,
                   w: Outside, t: Turn, rest: seq<Turn>)
    requires i < |sys.clients| && AreOthers(w.others(n), i) && pending != [] && !pending[0].status.Failed?
    requires pending[0].mutationId in Ids(sys.clients[i].mutations) && !AtLimit(n, o)
    requires t.client == i && t.fate == w.fates(n) && t.attempt == attempts(n)
    requires var met, sys' := AfterAll(sys, w.others(n)), RoundIn(sys, i, pending[0], n, attempts, w);
             && Enabled(met, t) && Mover(met, t) == pending[0] && Convergence.After(met, t) == sys'
             && i < |sys'.clients|
             && var answer := AnswerTo(met.server, pending[0], w.fates(n));
                if EndAfter(pending[0], answer, attempts(n), o.stopOnConflict).Some? then rest == []
                else LoopTells(Rounds(sys', rest, i), i, pending[1..], n + 1, o,
                               LoopIn(sys', i, pending[1..], n + 1, o, attempts, w))
    ensures LoopTells(Rounds(sys, w.others(n) + [t] + rest, i), i, pending, n, o,
                      LoopIn(sys, i, pending, n, o, attempts, w))
  {
    var m, sys' := pending[0], RoundIn(sys, i, pending[0], n, attempts, w);
    var r := Round(m, AnswerTo(AfterAll(sys, w.others(n)).server, m, w.fates(n)), attempts(n));
    var end := EndAfter(m, r.answer, r.a, o.stopOnConflict);
    RoundsOfTurn(sys, w.others(n), t, rest, i);
    EndIsAsAnswered(m, r.answer, r.a, o);
    if end.None? {
      var l := LoopIn(sys', i, pending[1..], n + 1, o, attempts, w);
      TellsOneMore(r, Rounds(sys', rest, i), pending, n, o, l.end, l.sys.clients[i]);
    } else {
      TellsTheLast(r, pending, n, o, end.value, sys'.clients[i]);
    }
  }

  lemma {:induction false} RoundIsTurn(sys: System, i: nat, pending: seq<PendingMutation>, n: nat, o: Options,
                                       attempts: nat -> Attempt, w: Outside)
    returns (turns: seq<Turn>)
    requires i < |sys.clients| && DistinctIds(sys.clients[i].mutations) && LeavesAlone(w, i)
    requires Ready(sys.clients[i].mutations, pending, n, attempts)
    requires pending != [] && !pending[0].status.Failed? && pending[0].mutationId in Ids(sys.clients[i].mutations)
    requires !AtLimit(n, o)
    ensures AfterAll(sys, turns) == LoopIn(sys, i, pending, n, o, attempts, w).sys
    ensures LoopTells(Rounds(sys, turns, i), i, pending, n, o, LoopIn(sys, i, pending, n, o, attempts, w))
    ensures |Own(turns, i)| <= |pending| && AreRounds(turns, i, n, attempts, w)
    decreases |pending|, 0
  {
    var m, sys' := pending[0], RoundIn(sys, i, pending[0], n, attempts, w);
    assert AreOthers(w.others(n), i);
    var t := RoundIsOneTurn(sys, i, m, n, attempts, w);
    var rest := [];
    RoundLeavesReady(sys, i, pending, n, attempts, w);
    var end := EndAfter(m, AnswerTo(AfterAll(sys, w.others(n)).server, m, w.fates(n)), attempts(n), o.stopOnConflict);
    if end.None? {
      rest := LoopIsTurns(sys', i, pending[1..], n + 1, o, attempts, w);
    }
    RoundTells(sys, i, pending, n, o, attempts, w, t, rest);
    turns := w.others(n) + [t] + rest;
    AfterAllOfConcat(sys, w.others(n) + [t], rest);
    OneMoreRound(w, n, t, rest, i, attempts);
  }

  lemma OneMoreRound(w: Outside, n: nat, t: Turn, rest: seq<Turn>, i: nat, attempts: nat -> Attempt)
    requires AreOthers(w.others(n), i) && t.client == i && t.fate == w.fates(n) && t.attempt == attempts(n)
    requires AreRounds(rest, i, n + 1, attempts, w)
    ensures AreRounds(w.others(n) + [t] + rest, i, n, attempts, w)
    ensures |Own(w.others(n) + [t] + rest, i)| == 1 + |Own(rest, i)|
  {
    var own := Own(rest, i);
    SidesOfRound(w.others(n), t, rest, i);
    forall k | 0 <= k < 1 + |own|
      ensures ([t] + own)[k].fate == w.fates(n + k) && ([t] + own)[k].attempt == attempts(n + k)
    {
      if k > 0 {
        assert ([t] + own)[k] == own[k - 1] && n + 1 + (k - 1) == n + k;
      }
    }
  }

  /** The routine on its own: it is a run of this client's turns, and their rounds tell how it ended. */
  lemma PushFromTells(server: Server, s: Store, o: Options, attempts: nat -> Attempt) returns (turns: seq<Turn>)
    requires DistinctIds(s.mutations) && NewIds(s.mutations, s.mutations, 0, attempts)
    ensures var end := PushFrom(server, s, s.mutations, 0, o, attempts);
            && AfterAll(System(server, [s]), turns) == System(end.server, [end.store])
            && Tells(Rounds(System(server, [s]), turns, 0), s.mutations, 0, o, end.end, end.store)
  {
    var sys, w := System(server, [s]), Outside(n => Delivered, n => []);
    turns := LoopIsTurns(sys, 0, s.mutations, 0, o, attempts, w);
    QuietLoopIsPushFrom(sys, 0, s.mutations, 0, o, attempts, w);
    var end := PushFrom(server, s, s.mutations, 0, o, attempts);
    assert [s][0 := end.store] == [end.store];
  }

  lemma RoundStaysDistinct(server: Server, s: Store, m: PendingMutation, fate: Fate, a: Attempt)
    requires DistinctIds(s.mutations) && a.retryId !in Ids(s.mutations)
    ensures DistinctIds(StoreAfter(server, s, m, fate, a).mutations)
  {
    StatusStaysDistinct(s, m, InFlight, m.retryCount + 1);
    HandledStaysDistinct(InFlightStore(s, m), m, AnswerTo(server, m, fate), a);
  }
}
