/**
 * The single writes that make up a client's steps, in the order the program makes them. All writes of a step together
 * are that step; `Interruptions` says what a first part of them leaves.
 */
module Writes {
  import opened Text
  import opened Protocol
  import opened Storage
  import opened SyncServer
  import opened Conflicts
  import opened SyncPull
  import opened CursorSafety

  // ---------------------------------------------------------------- single writes

  datatype Write =
    | WriteHead(head: StoredObject)
    | RemoveHead(id: string)
    | WriteBase(id: string, revision: nat, e: Envelope)
    | PruneBelow(id: string, revision: nat)
    | ClearBases(id: string)
    | Queue(m: PendingMutation)
    | Drop(k: string)
    | SetStatus(k: string, status: MutationStatus, retries: nat)
    | WriteRecord(c: ConflictRecord)
    | CloseRecord(k: string, resolution: Envelope, now: string)
    | MoveCursor(to: nat)

  function Written(s: Store, w: Write): Store {
    match w
    case WriteHead(head) => PutObject(s, head)
    case RemoveHead(id) => s.(objects := s.objects - {id})
    case WriteBase(id, revision, e) => PutBase(s, id, revision, e)
    case PruneBelow(id, revision) => PruneBases(s, id, revision)
    case ClearBases(id) => s.(bases := map k | k in s.bases && k.0 != id :: s.bases[k])
    case Queue(m) => s.(mutations := s.mutations + [m])
    case Drop(k) => s.(mutations := DropIds(s.mutations, {k}))
    case SetStatus(k, status, retries) => s.(mutations := WithStatus(s.mutations, k, status, retries))
    case WriteRecord(c) => PutConflict(s, c)
    case CloseRecord(k, resolution, now) => Resolve(s, k, Some(resolution), now)
    case MoveCursor(to) => s.(cursor := to)
  }

  function WrittenAll(s: Store, ws: seq<Write>): Store
    decreases |ws|
  {
    if ws == [] then s else WrittenAll(Written(s, ws[0]), ws[1..])
  }

  lemma {:induction false} WrittenOfConcat(s: Store, xs: seq<Write>, ys: seq<Write>)
    ensures WrittenAll(s, xs + ys) == WrittenAll(WrittenAll(s, xs), ys)
    decreases |xs|
  {
    if xs == [] {
      assert xs + ys == ys;
    } else {
      assert (xs + ys)[1..] == xs[1..] + ys;
      WrittenOfConcat(Written(s, xs[0]), xs[1..], ys);
    }
  }

  function Part(ws: seq<Write>, n: nat): seq<Write> {
    if n < |ws| then ws[..n] else ws
  }

  /** A first part of two lists together. */
  lemma PartOfConcat(xs: seq<Write>, ys: seq<Write>, n: nat)
    ensures n <= |xs| ==> Part(xs + ys, n) == Part(xs, n)
    ensures n > |xs| ==> Part(xs + ys, n) == xs + Part(ys, n - |xs|)
  {}

  // ---------------------------------------------------------------- the writes of every step

  /** The removal loop. */
  function Drops(q: seq<PendingMutation>): (ws: seq<Write>)
    ensures |ws| == |q|
  {
    if q == [] then [] else [Drop(q[0].mutationId)] + Drops(q[1..])
  }

  function EditHead(s: Store, e: Edit): StoredObject {
    if e.id in s.objects then
      StoredObject(e.id, e.kind, s.objects[e.id].revision + 1, s.objects[e.id].serverSeq, e.isDeleted, e.envelope,
                   e.now)
    else StoredObject(e.id, e.kind, 1, 0, e.isDeleted, e.envelope, e.now)
  }

  function EditWrites(s: Store, e: Edit): seq<Write> {
    (if e.id in s.objects then [WriteBase(e.id, s.objects[e.id].revision, s.objects[e.id].envelope)] else [])
    + [WriteHead(EditHead(s, e)), Queue(EditMutation(s, e))]
  }

  function AckHead(m: PendingMutation, resp: PushResponse, now: string): StoredObject {
    StoredObject(m.objectId, m.objectKind, resp.revision, resp.serverSeq, m.mutationType.Delete?, m.envelope, now)
  }

  function AckWrites(m: PendingMutation, resp: PushResponse, now: string): seq<Write> {
    [WriteHead(AckHead(m, resp, now)), Drop(m.mutationId), PruneBelow(m.objectId, resp.revision)]
  }

  function LwwStart(s: Store, x: Clash): seq<Write> {
    if LocalSide(s, x) then
      [WriteBase(x.m.objectId, x.c.currentRevision, x.c.currentEnvelope),
       WriteHead(LwwHead(x.m, x.c, x.m.envelope, x.now))]
    else
      [WriteBase(x.m.objectId, x.m.expectedRevision, x.m.envelope),
       WriteHead(LwwHead(x.m, x.c, x.c.currentEnvelope, x.now))]
  }

  function LwwRetry(x: Clash): PendingMutation {
    Retry(x.retryId, x.m.objectId, x.m.objectKind, Upsert, x.m.envelope, x.c.currentRevision, x.now)
  }

  function LwwEnd(s: Store, x: Clash): seq<Write> {
    if LocalSide(s, x) then
      [Queue(LwwRetry(x)), WriteRecord(LwwRecord(s, x.m, x.c, x.conflictId, x.m.envelope, x.now))]
    else [WriteRecord(LwwRecord(s, x.m, x.c, x.conflictId, x.c.currentEnvelope, x.now))]
  }

  function LwwWrites(s: Store, x: Clash): seq<Write> {
    LwwStart(s, x) + (Drops(Queued(s.mutations, x.m.objectId)) + LwwEnd(s, x))
  }

  function RecordWrites(s: Store, m: PendingMutation, c: ConflictResponse, a: Attempt): seq<Write> {
    [SetStatus(m.mutationId, Pending, m.retryCount + 1)]
    + if RecordFails(m, c, a.merge) then []
      else [WriteRecord(RecordOf(Marked(s, m, Pending, m.retryCount + 1), m, c, a.merge, a.conflictId, a.now))]
  }

  function ClashOf(m: PendingMutation, c: ConflictResponse, a: Attempt): Clash {
    Clash(m, c, a.key, a.retryId, a.conflictId, a.now)
  }

  function AnswerWrites(s: Store, m: PendingMutation, outcome: Outcome<PushResponse>, a: Attempt): seq<Write> {
    match outcome
    case Ok(resp) => AckWrites(m, resp, a.now)
    case Err(Conflict(c)) => if SettlesItself(m, c, a) then LwwWrites(s, ClashOf(m, c, a)) else RecordWrites(s, m, c, a)
    case Err(ConnectionFailed) => [SetStatus(m.mutationId, Pending, m.retryCount + 1)]
    case Err(ServerError(_)) => [SetStatus(m.mutationId, Pending, m.retryCount + 1)]
    case Err(_) => [SetStatus(m.mutationId, Failed, m.retryCount + 1)]
  }

  /** The first write comes before the request is sent. */
  function PushWrites(s: Store, m: PendingMutation, outcome: Outcome<PushResponse>, a: Attempt): seq<Write> {
    [SetStatus(m.mutationId, InFlight, m.retryCount + 1)] + AnswerWrites(InFlightStore(s, m), m, outcome, a)
  }

  function ChosenHead(c: ConflictRecord, strategy: Strategy, now: string): StoredObject
    requires strategy.Merge? ==> strategy.sealed.Some?
  {
    StoredObject(c.objectId, c.objectKind, c.remoteRevision, 0, ChosenIsDeleted(c, strategy),
                 ChosenEnvelope(c, strategy), now)
  }

  function CopyWrites(s: Store, c: ConflictRecord, newId: string, e: Envelope, retryId: string,
                      now: string): seq<Write> {
    (if newId in s.objects && s.objects[newId].revision == 0 then [WriteBase(newId, 0, s.objects[newId].envelope)]
     else [])
    + [Queue(CopyRetry(c, newId, e, retryId, now)), WriteHead(StoredObject(newId, c.objectKind, 1, 0, false, e, now))]
  }

  /** What follows the chosen head; `s` is the store with it. */
  function DecisionEnd(s: Store, c: ConflictRecord, k: string, strategy: Strategy, retryId: string,
                       now: string): seq<Write>
    requires strategy.Merge? ==> strategy.sealed.Some?
  {
    if CopyError(strategy).Some? then []
    else
      (match strategy
       case KeepRemote => []
       case Duplicate(newId, copy) => CopyWrites(s, c, newId, copy.envelope, retryId, now)
       case _ => [Queue(ResolutionRetry(c, strategy, retryId, now))])
      + [CloseRecord(k, ChosenEnvelope(c, strategy), now)]
  }

  function DecisionWrites(s: Store, k: string, strategy: Strategy, retryId: string, now: string): seq<Write>
    requires StrategyError(s, k, strategy).None?
  {
    var c := s.conflicts[k];
    Drops(Queued(s.mutations, c.objectId))
    + ([WriteHead(ChosenHead(c, strategy, now))]
       + DecisionEnd(Chosen(s, c, strategy, now), c, k, strategy, retryId, now))
  }

  function WritesOf(x: Site, h: Happening): seq<Write> {
    match h
    case ApplyOne(now) =>
      if x.inbox == [] || x.inbox[0].serverSeq <= x.store.cursor then []
      else [WriteHead(StoredFrom(x.inbox[0], now)), MoveCursor(x.inbox[0].serverSeq)]
    case LocalEdit(e) => EditWrites(x.store, e)
    case PushQueued(pos, fate, a) =>
      if pos >= |x.store.mutations| then []
      else
        var m := x.store.mutations[pos];
        PushWrites(x.store, m, AnswerTo(x.server, m, fate), a)
    case Decide(k, strategy, retryId, now) =>
      if StrategyError(x.store, k, strategy).Some? then [] else DecisionWrites(x.store, k, strategy, retryId, now)
    case Purge(id) => if id in x.store.objects then [RemoveHead(id), ClearBases(id)] else []
    case _ => []
  }

  // ---------------------------------------------------------------- all writes together are the step

  lemma {:induction false} DropsWritten(s: Store, q: seq<PendingMutation>)
    ensures WrittenAll(s, Drops(q)) == s.(mutations := DropIds(s.mutations, Ids(q)))
    decreases |q|
  {
    if q == [] {
      DropIdsIsId(s.mutations, Ids(q));
    } else {
      DropsWritten(Written(s, Drop(q[0].mutationId)), q[1..]);
      DropIdsTwice(s.mutations, {q[0].mutationId}, Ids(q[1..]));
      IdsOfRest(q);
    }
  }

  lemma IdsOfRest(q: seq<PendingMutation>)
    requires q != []
    ensures Ids(q) == {q[0].mutationId} + Ids(q[1..])
  {
    forall k | k in {q[0].mutationId} + Ids(q[1..]) ensures k in Ids(q) {
      if k == q[0].mutationId {
        assert q[0].mutationId == k;
      } else {
        var i :| 0 <= i < |q[1..]| && q[1..][i].mutationId == k;
        assert q[i + 1].mutationId == k;
      }
    }
  }

  /** The whole removal loop. */
  lemma AllDropsWritten(s: Store, id: string)
    requires DistinctIds(s.mutations)
    ensures WrittenAll(s, Drops(Queued(s.mutations, id))) == s.(mutations := Without(s.mutations, id))
  {
    DropsWritten(s, Queued(s.mutations, id));
    DropQueuedIsWithout(s.mutations, id);
  }

  lemma TwoWrites(s: Store, a: Write, b: Write)
    ensures WrittenAll(s, [a]) == Written(s, a)
    ensures WrittenAll(s, [a, b]) == Written(Written(s, a), b)
  {
    assert [a, b][1..] == [b] && [b][1..] == [] && [a][1..] == [];
    assert WrittenAll(Written(s, a), [b]) == WrittenAll(Written(Written(s, a), b), []);
  }

  lemma ThreeWrites(s: Store, a: Write, b: Write, c: Write)
    ensures WrittenAll(s, [a, b, c]) == Written(Written(Written(s, a), b), c)
  {
    assert [a, b, c][1..] == [b, c];
    TwoWrites(Written(s, a), b, c);
  }

  lemma EditWritten(s: Store, e: Edit)
    ensures WrittenAll(s, EditWrites(s, e)) == Edited(s, e)
  {
    var head, queue := WriteHead(EditHead(s, e)), Queue(EditMutation(s, e));
    if e.id in s.objects {
      var base := WriteBase(e.id, s.objects[e.id].revision, s.objects[e.id].envelope);
      assert EditWrites(s, e) == [base, head, queue];
      ThreeWrites(s, base, head, queue);
    } else {
      assert EditWrites(s, e) == [head, queue];
      TwoWrites(s, head, queue);
    }
  }

  lemma AckWritten(s: Store, m: PendingMutation, resp: PushResponse, now: string)
    ensures WrittenAll(s, AckWrites(m, resp, now)) == Acknowledged(s, m, resp, now)
  {
    ThreeWrites(s, WriteHead(AckHead(m, resp, now)), Drop(m.mutationId), PruneBelow(m.objectId, resp.revision));
  }

  /** The store after base and head. */
  function LwwHeaded(s: Store, x: Clash): Store {
    if LocalSide(s, x) then
      PutObject(PutBase(s, x.m.objectId, x.c.currentRevision, x.c.currentEnvelope),
                LwwHead(x.m, x.c, x.m.envelope, x.now))
    else
      PutObject(PutBase(s, x.m.objectId, x.m.expectedRevision, x.m.envelope),
                LwwHead(x.m, x.c, x.c.currentEnvelope, x.now))
  }

  lemma LwwStartWritten(s: Store, x: Clash)
    ensures WrittenAll(s, LwwStart(s, x)) == LwwHeaded(s, x) && LwwHeaded(s, x).mutations == s.mutations
  {
    TwoWrites(s, LwwStart(s, x)[0], LwwStart(s, x)[1]);
  }

  /** The store after the removal loop. */
  function LwwDropped(s: Store, x: Clash): Store {
    LwwHeaded(s, x).(mutations := Without(s.mutations, x.m.objectId))
  }

  lemma LwwDroppedWritten(s: Store, x: Clash)
    requires DistinctIds(s.mutations)
    ensures WrittenAll(LwwHeaded(s, x), Drops(Queued(s.mutations, x.m.objectId))) == LwwDropped(s, x)
  {
    LwwStartWritten(s, x);
    AllDropsWritten(LwwHeaded(s, x), x.m.objectId);
  }

  lemma LwwEndWritten(s: Store, x: Clash)
    ensures WrittenAll(LwwDropped(s, x), LwwEnd(s, x)) == Lww(s, x)
  {
    if LocalSide(s, x) {
      TwoWrites(LwwDropped(s, x), LwwEnd(s, x)[0], LwwEnd(s, x)[1]);
    } else {
      TwoWrites(LwwDropped(s, x), LwwEnd(s, x)[0], LwwEnd(s, x)[0]);
    }
  }

  lemma LwwWritten(s: Store, x: Clash)
    requires DistinctIds(s.mutations)
    ensures WrittenAll(s, LwwWrites(s, x)) == Lww(s, x)
  {
    var drops := Drops(Queued(s.mutations, x.m.objectId));
    WrittenOfConcat(s, LwwStart(s, x), drops + LwwEnd(s, x));
    LwwStartWritten(s, x);
    WrittenOfConcat(LwwHeaded(s, x), drops, LwwEnd(s, x));
    LwwDroppedWritten(s, x);
    LwwEndWritten(s, x);
  }

  lemma RecordWritten(s: Store, m: PendingMutation, c: ConflictResponse, a: Attempt)
    requires !SettlesItself(m, c, a)
    ensures WrittenAll(s, RecordWrites(s, m, c, a)) == OnConflict(s, m, c, a)
  {
    var ws := RecordWrites(s, m, c, a);
    TwoWrites(s, ws[0], if |ws| == 2 then ws[1] else ws[0]);
    assert |ws| == 1 ==> ws == [ws[0]];
    assert |ws| == 2 ==> ws == [ws[0], ws[1]];
  }

  lemma AnswerWritten(s: Store, m: PendingMutation, outcome: Outcome<PushResponse>, a: Attempt)
    requires DistinctIds(s.mutations)
    ensures WrittenAll(s, AnswerWrites(s, m, outcome, a)) == Handled(s, m, outcome, a)
  {
    match outcome
    case Ok(resp) => AckWritten(s, m, resp, a.now);
    case Err(Conflict(c)) =>
      if SettlesItself(m, c, a) {
        LwwWritten(s, ClashOf(m, c, a));
      } else {
        RecordWritten(s, m, c, a);
      }
    case Err(_) =>
      var w := AnswerWrites(s, m, outcome, a)[0];
      assert AnswerWrites(s, m, outcome, a) == [w];
      TwoWrites(s, w, w);
  }

  lemma MarkedThenWritten(s: Store, m: PendingMutation, ws: seq<Write>)
    ensures WrittenAll(s, [SetStatus(m.mutationId, InFlight, m.retryCount + 1)] + ws)
            == WrittenAll(InFlightStore(s, m), ws)
  {
    var mark := SetStatus(m.mutationId, InFlight, m.retryCount + 1);
    WrittenOfConcat(s, [mark], ws);
    TwoWrites(s, mark, mark);
  }

  lemma PushWritten(s: Store, m: PendingMutation, outcome: Outcome<PushResponse>, a: Attempt)
    requires DistinctIds(InFlightStore(s, m).mutations)
    ensures WrittenAll(s, PushWrites(s, m, outcome, a)) == Handled(InFlightStore(s, m), m, outcome, a)
  {
    AnswerWritten(InFlightStore(s, m), m, outcome, a);
    MarkedThenWritten(s, m, AnswerWrites(InFlightStore(s, m), m, outcome, a));
  }

  lemma CopyWritten(s: Store, c: ConflictRecord, newId: string, e: Envelope, retryId: string, now: string)
    ensures WrittenAll(s, CopyWrites(s, c, newId, e, retryId, now)) == WithCopy(s, c, newId, e, retryId, now)
  {
    var ws := CopyWrites(s, c, newId, e, retryId, now);
    if |ws| == 3 {
      assert ws == [ws[0], ws[1], ws[2]];
      ThreeWrites(s, ws[0], ws[1], ws[2]);
    } else {
      assert ws == [ws[0], ws[1]];
      TwoWrites(s, ws[0], ws[1]);
    }
  }

  lemma DecisionEndWritten(s: Store, k: string, strategy: Strategy, retryId: string, now: string)
    requires StrategyError(s, k, strategy).None?
    ensures var c := s.conflicts[k];
            var chosen := Chosen(s, c, strategy, now);
            WrittenAll(chosen, DecisionEnd(chosen, c, k, strategy, retryId, now))
                == Resolved(s, k, strategy, retryId, now)
  {
    var c := s.conflicts[k];
    var chosen := Chosen(s, c, strategy, now);
    var ws := DecisionEnd(chosen, c, k, strategy, retryId, now);
    if CopyError(strategy).None? {
      var close := CloseRecord(k, ChosenEnvelope(c, strategy), now);
      if strategy.Duplicate? {
        var copy := CopyWrites(chosen, c, strategy.newObjectId, strategy.copy.envelope, retryId, now);
        WrittenOfConcat(chosen, copy, [close]);
        CopyWritten(chosen, c, strategy.newObjectId, strategy.copy.envelope, retryId, now);
        TwoWrites(WrittenAll(chosen, copy), close, close);
      } else if strategy.KeepRemote? {
        assert ws == [close];
        TwoWrites(chosen, close, close);
      } else {
        assert ws == [ws[0], close];
        TwoWrites(chosen, ws[0], close);
      }
    }
  }

  /** The store after the removal loop. */
  function DecisionDropped(s: Store, k: string): Store
    requires k in s.conflicts
  {
    s.(mutations := Without(s.mutations, s.conflicts[k].objectId))
  }

  lemma ChosenWritten(s: Store, k: string, strategy: Strategy, now: string)
    requires StrategyError(s, k, strategy).None?
    ensures var c := s.conflicts[k];
            WrittenAll(DecisionDropped(s, k), [WriteHead(ChosenHead(c, strategy, now))]) == Chosen(s, c, strategy, now)
  {
    var w := WriteHead(ChosenHead(s.conflicts[k], strategy, now));
    TwoWrites(DecisionDropped(s, k), w, w);
  }

  lemma DecisionWritten(s: Store, k: string, strategy: Strategy, retryId: string, now: string)
    requires StrategyError(s, k, strategy).None? && DistinctIds(s.mutations)
    ensures WrittenAll(s, DecisionWrites(s, k, strategy, retryId, now)) == Resolved(s, k, strategy, retryId, now)
  {
    var c := s.conflicts[k];
    var drops, head := Drops(Queued(s.mutations, c.objectId)), [WriteHead(ChosenHead(c, strategy, now))];
    var end := DecisionEnd(Chosen(s, c, strategy, now), c, k, strategy, retryId, now);
    WrittenOfConcat(s, drops, head + end);
    AllDropsWritten(s, c.objectId);
    WrittenOfConcat(DecisionDropped(s, k), head, end);
    ChosenWritten(s, k, strategy, now);
    DecisionEndWritten(s, k, strategy, retryId, now);
  }

  /** Uninterrupted, the writes of a step are that step. */
  lemma WritesMakeTheStep(x: Site, h: Happening)
    requires DistinctIds(x.store.mutations)
    ensures WrittenAll(x.store, WritesOf(x, h)) == Happen(x, h).store
  {
    match h
    case ApplyOne(now) =>
      if x.inbox != [] && x.inbox[0].serverSeq > x.store.cursor {
        TwoWrites(x.store, WriteHead(StoredFrom(x.inbox[0], now)), MoveCursor(x.inbox[0].serverSeq));
      }
    case LocalEdit(e) => EditWritten(x.store, e);
    case PushQueued(pos, fate, a) =>
      if pos < |x.store.mutations| {
        StatusStaysDistinct(x.store, x.store.mutations[pos], InFlight, x.store.mutations[pos].retryCount + 1);
        PushWritten(x.store, x.store.mutations[pos], AnswerTo(x.server, x.store.mutations[pos], fate), a);
      }
    case Decide(k, strategy, retryId, now) =>
      if StrategyError(x.store, k, strategy).None? {
        DecisionWritten(x.store, k, strategy, retryId, now);
      }
    case Purge(id) => TwoWrites(x.store, RemoveHead(id), ClearBases(id));
    case _ =>
  }
}
