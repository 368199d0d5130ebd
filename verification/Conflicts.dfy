/**
 * What a client does with a refused push: record it, resolve it explicitly, or apply guarded
 * last-write-wins. Each operation is a function on `Store` values, a method on the mutable store
 * proved to follow it, and lemmas about the function. Clock readings, fresh UUIDs and the results of
 * encryption are parameters.
 */
module Conflicts {
  import opened Text
  import opened Protocol
  import opened Storage
  import SyncServer

  datatype PlaintextNote = PlaintextNote(title: string, body: string, tags: seq<string>, updatedAt: string)

  /** What an unlocked vault key opens: the note inside an envelope, or a decryption failure. */
  type Opener = Envelope -> Option<PlaintextNote>

  datatype QueueError = NotFound | InvalidState | StorageFailed | DecryptionFailed | EncryptionFailed | Validation
  datatype QueueResult<+T> = Done(value: T) | Refused(error: QueueError)

  datatype Winner = Local | Remote

  datatype LwwOutcome = LwwOutcome(
    winner: Winner,
    winningRevision: nat,
    losingRevision: nat,
    retry: Option<PendingMutation>)

  // ---------------------------------------------------------------- guarded last-write-wins

  predicate IsDeletionConflict(m: PendingMutation, c: ConflictResponse) {
    c.isDeleted || m.mutationType.Delete?
  }

  predicate LaterCiphertext(m: PendingMutation, c: ConflictResponse) {
    Less(c.currentEnvelope.payload.ciphertext, m.envelope.payload.ciphertext)
  }

  /** The winner decision: note timestamps if both sides open, else the stored head's, else ciphertexts. */
  predicate LocalWins(s: Store, m: PendingMutation, c: ConflictResponse, key: Option<Opener>) {
    if key.Some? && key.value(m.envelope).Some? && key.value(c.currentEnvelope).Some? then
      var l, r := key.value(m.envelope).value.updatedAt, key.value(c.currentEnvelope).value.updatedAt;
      if l != r then Less(r, l) else LaterCiphertext(m, c)
    else if m.objectId in s.objects
            && s.objects[m.objectId].revision == c.currentRevision
            && m.createdAt != s.objects[m.objectId].updatedAt then
      Less(s.objects[m.objectId].updatedAt, m.createdAt)
    else LaterCiphertext(m, c)
  }

  function Retry(id: string, objectId: string, kind: nat, mutationType: MutationType, e: Envelope, revision: nat,
                 now: string): PendingMutation
  {
    PendingMutation(id, objectId, revision, kind, mutationType, e, now, 0, Pending)
  }

  function LwwRecord(s: Store, m: PendingMutation, c: ConflictResponse, conflictId: string, winner: Envelope,
                     now: string): ConflictRecord
  {
    ConflictRecord(conflictId, m.objectId, m.objectKind, m.expectedRevision, c.currentRevision,
      BaseAt(s, m.objectId, m.expectedRevision), m.envelope, c.currentEnvelope, Some(winner),
      true, false, false, now, Some(now))
  }

  function LwwHead(m: PendingMutation, c: ConflictResponse, winner: Envelope, now: string): StoredObject {
    StoredObject(m.objectId, m.objectKind, c.currentRevision, 0, false, winner, now)
  }

  /** A refused edit with everything the automatic decision reads: key, fresh ids and the clock. */
  datatype Clash = Clash(
    m: PendingMutation,
    c: ConflictResponse,
    key: Option<Opener>,
    retryId: string,
    conflictId: string,
    now: string)

  predicate LocalSide(s: Store, x: Clash) {
    LocalWins(s, x.m, x.c, x.key)
  }

  /** The store after guarded last-write-wins on an edit-versus-edit conflict. */
  function Lww(s: Store, x: Clash): Store {
    var Clash(m, c, _, retryId, conflictId, now) := x;
    var winner := if LocalSide(s, x) then m.envelope else c.currentEnvelope;
    var archived := if LocalSide(s, x)
                    then PutBase(s, m.objectId, c.currentRevision, c.currentEnvelope)
                    else PutBase(s, m.objectId, m.expectedRevision, m.envelope);
    var others := Without(s.mutations, m.objectId);
    var retry := Retry(retryId, m.objectId, m.objectKind, Upsert, m.envelope, c.currentRevision, now);
    var queued := PutObject(archived, LwwHead(m, c, winner, now))
                    .(mutations := if LocalSide(s, x) then others + [retry] else others);
    PutConflict(queued, LwwRecord(s, m, c, conflictId, winner, now))
  }

  /** A retry is queued exactly if the local edit wins. */
  lemma LwwQueuesIfLocal(s: Store, x: Clash)
    ensures Queued(Lww(s, x).mutations, x.m.objectId) != [] <==> LocalSide(s, x)
  {
    var others := Without(s.mutations, x.m.objectId);
    var retry := Retry(x.retryId, x.m.objectId, x.m.objectKind, Upsert, x.m.envelope, x.c.currentRevision, x.now);
    WithoutHasNone(s.mutations, x.m.objectId);
    QueuedOfConcat(others, [retry], x.m.objectId);
    assert Queued([retry], x.m.objectId) == [retry] + Queued([], x.m.objectId);
  }

  lemma FreshAfterRemoval(ms: seq<PendingMutation>, objectId: string, id: string)
    requires id !in Ids(ms)
    ensures id !in Ids(Without(ms, objectId))
  {
    WithoutMembers(ms, objectId);
  }

  method DecideWinner(st: MemoryStorage, m: PendingMutation, c: ConflictResponse, key: Option<Opener>)
    returns (localWins: bool)
    ensures localWins == LocalWins(st.View(), m, c, key)
  {
    if key.Some? && key.value(m.envelope).Some? && key.value(c.currentEnvelope).Some? {
      var l, r := key.value(m.envelope).value.updatedAt, key.value(c.currentEnvelope).value.updatedAt;
      localWins := if l != r then Less(r, l) else LaterCiphertext(m, c);
    } else {
      var head := st.GetObject(m.objectId);
      if head.Some? && head.value.revision == c.currentRevision && m.createdAt != head.value.updatedAt {
        localWins := Less(head.value.updatedAt, m.createdAt);
      } else {
        localWins := LaterCiphertext(m, c);
      }
    }
  }

  method KeepLocalWinner(st: MemoryStorage, x: Clash) returns (retry: PendingMutation)
    requires st.Valid() && x.retryId !in Ids(st.mutations) && LocalSide(st.View(), x)
    modifies st
    ensures st.Valid() && st.View() == Lww(old(st.View()), x)
    ensures st.mutations == Without(old(st.mutations), x.m.objectId) + [retry]
  {
    var Clash(m, c, _, retryId, conflictId, now) := x;
    var base := st.GetBase(m.objectId, m.expectedRevision);
    FreshAfterRemoval(st.mutations, m.objectId, retryId);
    st.PutBaseVersion(m.objectId, c.currentRevision, c.currentEnvelope);
    st.Put(LwwHead(m, c, m.envelope, now));
    st.RemoveAllFor(m.objectId);
    retry := Retry(retryId, m.objectId, m.objectKind, Upsert, m.envelope, c.currentRevision, now);
    var enqueued := st.Enqueue(retry);
    assert enqueued.Success?;
    st.PutRecord(ConflictRecord(conflictId, m.objectId, m.objectKind, m.expectedRevision, c.currentRevision, base,
      m.envelope, c.currentEnvelope, Some(m.envelope), true, false, false, now, Some(now)));
  }

  method KeepRemoteWinner(st: MemoryStorage, x: Clash)
    requires st.Valid() && !LocalSide(st.View(), x)
    modifies st
    ensures st.Valid() && st.View() == Lww(old(st.View()), x)
  {
    var Clash(m, c, _, _, conflictId, now) := x;
    var base := st.GetBase(m.objectId, m.expectedRevision);
    st.PutBaseVersion(m.objectId, m.expectedRevision, m.envelope);
    st.Put(LwwHead(m, c, c.currentEnvelope, now));
    st.RemoveAllFor(m.objectId);
    st.PutRecord(ConflictRecord(conflictId, m.objectId, m.objectKind, m.expectedRevision, c.currentRevision, base,
      m.envelope, c.currentEnvelope, Some(c.currentEnvelope), true, false, false, now, Some(now)));
  }

  method EvaluateGuardedLww(st: MemoryStorage, m: PendingMutation, c: ConflictResponse, key: Option<Opener>,
                            retryId: string, conflictId: string, now: string)
    returns (r: QueueResult<LwwOutcome>)
    requires st.Valid() && retryId !in Ids(st.mutations)
    modifies st
    ensures st.Valid()
    ensures r.Refused? <==> IsDeletionConflict(m, c)
    ensures r.Refused? ==> st.View() == old(st.View())
    ensures r.Done? ==> st.View() == Lww(old(st.View()), Clash(m, c, key, retryId, conflictId, now))
    ensures r.Done? ==> (r.value.winner.Local? <==> LocalWins(old(st.View()), m, c, key))
    ensures r.Done? ==> r.value.winningRevision == c.currentRevision
    ensures r.Done? ==> r.value.losingRevision
                          == if r.value.winner.Local? then c.currentRevision else m.expectedRevision
    ensures r.Done? ==> (r.value.retry.Some? <==> r.value.winner.Local?)
    ensures r.Done? ==> (r.value.winner.Local? <==> Queued(st.mutations, m.objectId) != [])
    ensures r.Done? && r.value.retry.Some? ==>
              st.mutations == Without(old(st.mutations), m.objectId) + [r.value.retry.value]
  {
    if c.isDeleted || m.mutationType.Delete? {
      return Refused(InvalidState);
    }
    var localWins := DecideWinner(st, m, c, key);
    var x := Clash(m, c, key, retryId, conflictId, now);
    LwwQueuesIfLocal(st.View(), x);
    if localWins {
      var retry := KeepLocalWinner(st, x);
      r := Done(LwwOutcome(Local, c.currentRevision, c.currentRevision, Some(retry)));
    } else {
      KeepRemoteWinner(st, x);
      r := Done(LwwOutcome(Remote, c.currentRevision, m.expectedRevision, None));
    }
  }

  // ---------------------------------------------------------------- last-write-wins loses nothing

  ghost function RecordHolds(c: ConflictRecord): set<Envelope> {
    {c.localEnvelope, c.remoteEnvelope}
      + (if c.baseEnvelope.Some? then {c.baseEnvelope.value} else {})
      + (if c.candidateEnvelope.Some? then {c.candidateEnvelope.value} else {})
  }

  ghost predicate HeldAsHead(s: Store, e: Envelope) {
    exists id :: id in s.objects && s.objects[id].envelope == e
  }

  ghost predicate HeldInQueue(s: Store, e: Envelope) {
    exists q :: q in s.mutations && q.envelope == e
  }

  ghost predicate HeldAsBase(s: Store, e: Envelope) {
    exists k :: k in s.bases && s.bases[k] == e
  }

  ghost predicate HeldInRecord(s: Store, e: Envelope) {
    exists id :: id in s.conflicts && e in RecordHolds(s.conflicts[id])
  }

  /** Some part of the store holds envelope `e`. */
  ghost predicate Holds(s: Store, e: Envelope) {
    HeldAsHead(s, e) || HeldInQueue(s, e) || HeldAsBase(s, e) || HeldInRecord(s, e)
  }

  /** The only places last-write-wins can take an envelope from. */
  ghost predicate MayBeReplaced(s: Store, x: Clash, e: Envelope) {
    || (x.m.objectId in s.objects && s.objects[x.m.objectId].envelope == e)
    || (exists q :: q in Queued(s.mutations, x.m.objectId) && q.envelope == e)
    || (LocalSide(s, x) && BaseAt(s, x.m.objectId, x.c.currentRevision) == Some(e))
    || (x.conflictId in s.conflicts && e in RecordHolds(s.conflicts[x.conflictId]))
  }

  /** Winner is head, loser is archived, and the resolved record keeps base, local and remote. */
  lemma LwwKeepsBothSides(s: Store, x: Clash)
    ensures var s' := Lww(s, x);
            var id := x.m.objectId;
            && id in s'.objects
            && s'.objects[id].envelope == (if LocalSide(s, x) then x.m.envelope else x.c.currentEnvelope)
            && s'.objects[id].revision == x.c.currentRevision
            && (exists revision :: BaseAt(s', id, revision)
                                     == Some(if LocalSide(s, x) then x.c.currentEnvelope else x.m.envelope))
            && x.conflictId in s'.conflicts
            && s'.conflicts[x.conflictId].resolved
            && s'.conflicts[x.conflictId].baseEnvelope == BaseAt(s, id, x.m.expectedRevision)
            && s'.conflicts[x.conflictId].localEnvelope == x.m.envelope
            && s'.conflicts[x.conflictId].remoteEnvelope == x.c.currentEnvelope
  {
    if LocalSide(s, x) {
      assert BaseAt(Lww(s, x), x.m.objectId, x.c.currentRevision) == Some(x.c.currentEnvelope);
    } else {
      assert BaseAt(Lww(s, x), x.m.objectId, x.m.expectedRevision) == Some(x.m.envelope);
    }
  }

  lemma LwwRecordHoldsAll(s: Store, x: Clash)
    ensures HeldInRecord(Lww(s, x), x.m.envelope) && HeldInRecord(Lww(s, x), x.c.currentEnvelope)
    ensures var base := BaseAt(s, x.m.objectId, x.m.expectedRevision);
            base.Some? ==> HeldInRecord(Lww(s, x), base.value)
  {
    assert x.conflictId in Lww(s, x).conflicts;
    assert {x.m.envelope, x.c.currentEnvelope} <= RecordHolds(Lww(s, x).conflicts[x.conflictId]);
  }

  lemma LwwKeepsHeads(s: Store, x: Clash, e: Envelope)
    requires HeldAsHead(s, e)
    ensures HeldAsHead(Lww(s, x), e) || MayBeReplaced(s, x, e)
  {
    var id :| id in s.objects && s.objects[id].envelope == e;
    if id != x.m.objectId {
      assert id in Lww(s, x).objects && Lww(s, x).objects[id].envelope == e;
    }
  }

  lemma LwwKeepsQueue(s: Store, x: Clash, e: Envelope)
    requires HeldInQueue(s, e)
    ensures HeldInQueue(Lww(s, x), e) || MayBeReplaced(s, x, e)
  {
    QueuedMembers(s.mutations, x.m.objectId);
    WithoutMembers(s.mutations, x.m.objectId);
    var q :| q in s.mutations && q.envelope == e;
    if q.objectId == x.m.objectId {
      assert q in Queued(s.mutations, x.m.objectId);
    } else {
      assert q in Without(s.mutations, x.m.objectId);
      assert q in Lww(s, x).mutations;
    }
  }

  lemma LwwKeepsBases(s: Store, x: Clash, e: Envelope)
    requires HeldAsBase(s, e)
    ensures HeldAsBase(Lww(s, x), e) || HeldInRecord(Lww(s, x), e) || MayBeReplaced(s, x, e)
  {
    LwwRecordHoldsAll(s, x);
    var k :| k in s.bases && s.bases[k] == e;
    var slot := (x.m.objectId, if LocalSide(s, x) then x.c.currentRevision else x.m.expectedRevision);
    if k != slot {
      assert k in Lww(s, x).bases && Lww(s, x).bases[k] == e;
    }
  }

  lemma LwwKeepsRecords(s: Store, x: Clash, e: Envelope)
    requires HeldInRecord(s, e)
    ensures HeldInRecord(Lww(s, x), e) || MayBeReplaced(s, x, e)
  {
    var id :| id in s.conflicts && e in RecordHolds(s.conflicts[id]);
    if id != x.conflictId {
      assert id in Lww(s, x).conflicts && e in RecordHolds(Lww(s, x).conflicts[id]);
    }
  }

  /** On any store: every envelope held before is held after, or is one of the replaced. */
  lemma LwwLosesAtMostTheReplaced(s: Store, x: Clash, e: Envelope)
    requires Holds(s, e)
    ensures Holds(Lww(s, x), e) || MayBeReplaced(s, x, e)
  {
    if HeldAsHead(s, e) {
      LwwKeepsHeads(s, x, e);
    } else if HeldInQueue(s, e) {
      LwwKeepsQueue(s, x, e);
    } else if HeldAsBase(s, e) {
      LwwKeepsBases(s, x, e);
    } else {
      LwwKeepsRecords(s, x, e);
    }
  }

  /**
   * Last-write-wins loses nothing when the conflicting mutation is the object's only queued one, the old head
   * is the local edit, the remote version or the retained base, and (local winning) the slot for the remote
   * revision is free or already holds it.
   */
  lemma LwwLosesNothing(s: Store, x: Clash, e: Envelope)
    requires Holds(s, e) && x.conflictId !in s.conflicts
    requires forall q :: q in Queued(s.mutations, x.m.objectId) ==> q.envelope == x.m.envelope
    requires x.m.objectId in s.objects ==>
               var head := s.objects[x.m.objectId].envelope;
               head == x.m.envelope || head == x.c.currentEnvelope
               || BaseAt(s, x.m.objectId, x.m.expectedRevision) == Some(head)
    requires LocalSide(s, x) ==>
               var slot := BaseAt(s, x.m.objectId, x.c.currentRevision);
               slot == None || slot == Some(x.c.currentEnvelope)
    ensures Holds(Lww(s, x), e)
  {
    LwwLosesAtMostTheReplaced(s, x, e);
    LwwRecordHoldsAll(s, x);
  }

  // ---------------------------------------------------------------- recording a conflict

  /** The attempt to build a merge candidate: no key, a decryption failure, or the encrypted candidate. */
  datatype MergeAttempt = NoKey | MergeFailed | Candidate(envelope: Envelope)

  function RecordOf(s: Store, m: PendingMutation, c: ConflictResponse, merge: MergeAttempt, conflictId: string,
                    now: string): ConflictRecord
  {
    var candidate := if IsDeletionConflict(m, c) || !merge.Candidate? then None else Some(merge.envelope);
    ConflictRecord(conflictId, m.objectId, m.objectKind, m.expectedRevision, c.currentRevision,
      BaseAt(s, m.objectId, m.expectedRevision), m.envelope, c.currentEnvelope, candidate,
      false, c.isDeleted, m.mutationType.Delete?, now, None)
  }

  predicate RecordFails(m: PendingMutation, c: ConflictResponse, merge: MergeAttempt) {
    !IsDeletionConflict(m, c) && merge.MergeFailed?
  }

  method RecordConflict(st: MemoryStorage, m: PendingMutation, c: ConflictResponse, merge: MergeAttempt,
                        conflictId: string, now: string)
    returns (r: QueueResult<ConflictRecord>)
    requires st.Valid()
    modifies st
    ensures st.Valid()
    ensures r == if RecordFails(m, c, merge) then Refused(DecryptionFailed)
                 else Done(RecordOf(old(st.View()), m, c, merge, conflictId, now))
    ensures st.View() == if r.Done? then PutConflict(old(st.View()), r.value) else old(st.View())
  {
    var base := st.GetBase(m.objectId, m.expectedRevision);
    var localDeleted, remoteDeleted := m.mutationType.Delete?, c.isDeleted;
    var candidate: Option<Envelope> := None;
    if !localDeleted && !remoteDeleted {
      match merge
      case NoKey =>
      case MergeFailed => return Refused(DecryptionFailed);
      case Candidate(e) => candidate := Some(e);
    }
    var record := ConflictRecord(conflictId, m.objectId, m.objectKind, m.expectedRevision, c.currentRevision, base,
      m.envelope, c.currentEnvelope, candidate, false, remoteDeleted, localDeleted, now, None);
    st.PutRecord(record);
    r := Done(record);
  }

  // ---------------------------------------------------------------- explicit resolution

  /** The copy of the local note under a new id: it may fail to open or to encrypt. */
  datatype Copying = Unopened | Unsealed | Copied(envelope: Envelope)

  /**
   * `Merge` carries the merged note as encrypted for the conflict's object, or the failure to encrypt it;
   * `Duplicate` the local note as encrypted for the new object.
   */
  datatype Strategy =
    | KeepLocal
    | RestoreResurrect
    | KeepRemote
    | Merge(sealed: Option<Envelope>)
    | Duplicate(newObjectId: string, copy: Copying)

  /** The remote version becomes the head and nothing is queued for the object. */
  predicate TakesRemote(strategy: Strategy) {
    strategy.KeepRemote? || strategy.Duplicate?
  }

  /** Refusals that come before any write. */
  function StrategyError(s: Store, conflictId: string, strategy: Strategy): Option<QueueError> {
    if conflictId !in s.conflicts then Some(NotFound)
    else if s.conflicts[conflictId].resolved then Some(InvalidState)
    else if strategy.Merge? && (s.conflicts[conflictId].remoteIsDeleted || s.conflicts[conflictId].localIsDeleted) then
      Some(InvalidState)
    else if strategy.Merge? && strategy.sealed.None? then Some(EncryptionFailed)
    else None
  }

  /** Failures of a duplication, found after the remote version has been written. */
  function CopyError(strategy: Strategy): Option<QueueError> {
    if !strategy.Duplicate? then None
    else
      match strategy.copy
      case Unopened => Some(DecryptionFailed)
      case Unsealed => Some(EncryptionFailed)
      case Copied(e) => if e.objectId != strategy.newObjectId then Some(Validation) else None
  }

  function ChosenEnvelope(c: ConflictRecord, strategy: Strategy): Envelope
    requires strategy.Merge? ==> strategy.sealed.Some?
  {
    match strategy
    case KeepRemote => c.remoteEnvelope
    case Duplicate(_, _) => c.remoteEnvelope
    case Merge(sealed) => sealed.value
    case _ => c.localEnvelope
  }

  predicate ChosenIsDeleted(c: ConflictRecord, strategy: Strategy) {
    match strategy
    case KeepRemote => c.remoteIsDeleted
    case Duplicate(_, _) => c.remoteIsDeleted
    case Merge(_) => false
    case _ => c.localIsDeleted
  }

  function ResolutionRetry(c: ConflictRecord, strategy: Strategy, retryId: string, now: string): PendingMutation
    requires strategy.Merge? ==> strategy.sealed.Some?
  {
    Retry(retryId, c.objectId, c.objectKind, if ChosenIsDeleted(c, strategy) then Delete else Upsert,
          ChosenEnvelope(c, strategy), c.remoteRevision, now)
  }

  /** The object at the chosen version and the remote revision, nothing queued for it. */
  function Chosen(s: Store, c: ConflictRecord, strategy: Strategy, now: string): Store
    requires strategy.Merge? ==> strategy.sealed.Some?
  {
    var head := StoredObject(c.objectId, c.objectKind, c.remoteRevision, 0, ChosenIsDeleted(c, strategy),
                             ChosenEnvelope(c, strategy), now);
    PutObject(s, head).(mutations := Without(s.mutations, c.objectId))
  }

  function CopyRetry(c: ConflictRecord, newId: string, e: Envelope, retryId: string, now: string): PendingMutation {
    Retry(retryId, newId, c.objectKind, Upsert, e, 0, now)
  }

  /** Queueing an upsert of a stored object keeps its version at the expected revision as the base. */
  function WithBase(s: Store, id: string, expected: nat): Store {
    if id in s.objects && s.objects[id].revision == expected then PutBase(s, id, expected, s.objects[id].envelope)
    else s
  }

  /** The new object with the copy, at revision 1 and queued as a creation. */
  function WithCopy(s: Store, c: ConflictRecord, newId: string, e: Envelope, retryId: string, now: string): Store {
    var based := WithBase(s, newId, 0);
    PutObject(based.(mutations := based.mutations + [CopyRetry(c, newId, e, retryId, now)]),
              StoredObject(newId, c.objectKind, 1, 0, false, e, now))
  }

  /** The store after a resolution that is not refused up front. */
  function Resolved(s: Store, conflictId: string, strategy: Strategy, retryId: string, now: string): Store
    requires StrategyError(s, conflictId, strategy).None?
  {
    var c := s.conflicts[conflictId];
    var chosen := Chosen(s, c, strategy, now);
    if CopyError(strategy).Some? then chosen
    else
      var queued := match strategy
                    case KeepRemote => chosen
                    case Duplicate(newId, copy) => WithCopy(chosen, c, newId, copy.envelope, retryId, now)
                    case _ => chosen.(mutations := chosen.mutations + [ResolutionRetry(c, strategy, retryId, now)]);
      Resolve(queued, conflictId, Some(ChosenEnvelope(c, strategy)), now)
  }

  /** The mutation a successful resolution reports. */
  function QueuedBy(c: ConflictRecord, strategy: Strategy, retryId: string, now: string): Option<PendingMutation>
    requires CopyError(strategy).None? && (strategy.Merge? ==> strategy.sealed.Some?)
  {
    match strategy
    case KeepRemote => None
    case Duplicate(newId, copy) => Some(CopyRetry(c, newId, copy.envelope, retryId, now))
    case _ => Some(ResolutionRetry(c, strategy, retryId, now))
  }

  /** The start all strategies share: drop the object's mutations, write the chosen version. */
  method TakeVersion(st: MemoryStorage, c: ConflictRecord, isDeleted: bool, e: Envelope, now: string)
    requires st.Valid()
    modifies st
    ensures st.Valid()
    ensures st.View() == PutObject(old(st.View()),
                                   StoredObject(c.objectId, c.objectKind, c.remoteRevision, 0, isDeleted, e, now))
                           .(mutations := Without(old(st.mutations), c.objectId))
  {
    st.RemoveAllFor(c.objectId);
    st.Put(StoredObject(c.objectId, c.objectKind, c.remoteRevision, 0, isDeleted, e, now));
  }

  method QueueCopy(st: MemoryStorage, c: ConflictRecord, newId: string, e: Envelope, retryId: string, now: string)
    returns (retry: PendingMutation)
    requires st.Valid() && retryId !in Ids(st.mutations)
    modifies st
    ensures st.Valid() && st.View() == WithCopy(old(st.View()), c, newId, e, retryId, now)
    ensures retry == CopyRetry(c, newId, e, retryId, now)
  {
    var current := st.GetObject(newId);
    if current.Some? && current.value.revision == 0 {
      st.PutBaseVersion(newId, 0, current.value.envelope);
    }
    retry := CopyRetry(c, newId, e, retryId, now);
    var enqueued := st.Enqueue(retry);
    assert enqueued.Success?;
    st.Put(StoredObject(newId, c.objectKind, 1, 0, false, e, now));
  }

  method ResolveConflict(st: MemoryStorage, conflictId: string, strategy: Strategy, retryId: string, now: string)
    returns (r: QueueResult<Option<PendingMutation>>)
    requires st.Valid() && retryId !in Ids(st.mutations)
    modifies st
    ensures st.Valid()
    ensures var refusal := StrategyError(old(st.View()), conflictId, strategy);
            if refusal.Some? then
              r == Refused(refusal.value) && st.View() == old(st.View())
            else
              && st.View() == Resolved(old(st.View()), conflictId, strategy, retryId, now)
              && r == if CopyError(strategy).Some? then Refused(CopyError(strategy).value)
                      else Done(QueuedBy(old(st.conflicts)[conflictId], strategy, retryId, now))
  {
    if conflictId !in st.conflicts {
      return Refused(NotFound);
    }
    var c := st.conflicts[conflictId];
    if c.resolved {
      return Refused(InvalidState);
    }
    FreshAfterRemoval(st.mutations, c.objectId, retryId);
    match strategy {
      case KeepLocal | RestoreResurrect =>
        TakeVersion(st, c, c.localIsDeleted, c.localEnvelope, now);
        var retry := Retry(retryId, c.objectId, c.objectKind, if c.localIsDeleted then Delete else Upsert,
                           c.localEnvelope, c.remoteRevision, now);
        var enqueued := st.Enqueue(retry);
        assert enqueued.Success?;
        var _ := st.ResolveRecord(conflictId, Some(c.localEnvelope), now);
        r := Done(Some(retry));
      case KeepRemote =>
        TakeVersion(st, c, c.remoteIsDeleted, c.remoteEnvelope, now);
        var _ := st.ResolveRecord(conflictId, Some(c.remoteEnvelope), now);
        r := Done(None);
      case Merge(sealed) =>
        if c.remoteIsDeleted || c.localIsDeleted {
          return Refused(InvalidState);
        }
        if sealed.None? {
          return Refused(EncryptionFailed);
        }
        TakeVersion(st, c, false, sealed.value, now);
        var retry := Retry(retryId, c.objectId, c.objectKind, Upsert, sealed.value, c.remoteRevision, now);
        var enqueued := st.Enqueue(retry);
        assert enqueued.Success?;
        var _ := st.ResolveRecord(conflictId, sealed, now);
        r := Done(Some(retry));
      case Duplicate(newId, copy) =>
        TakeVersion(st, c, c.remoteIsDeleted, c.remoteEnvelope, now);
        var failed := CopyError(strategy);
        if failed.Some? {
          return Refused(failed.value);
        }
        var retry := QueueCopy(st, c, newId, copy.envelope, retryId, now);
        var _ := st.ResolveRecord(conflictId, Some(c.remoteEnvelope), now);
        r := Done(Some(retry));
    }
  }

  /** All conflict records but one are the same in both stores. */
  ghost predicate SameOtherRecords(s: Store, s': Store, conflictId: string) {
    forall k :: k != conflictId ==>
      (k in s'.conflicts <==> k in s.conflicts) && (k in s.conflicts ==> s'.conflicts[k] == s.conflicts[k])
  }

  /** The conflict's object has exactly one queued mutation, based on the remote revision; the rest is untouched. */
  lemma ResolutionQueuesOneRetry(s: Store, conflictId: string, strategy: Strategy, retryId: string, now: string,
                                 other: string)
    requires StrategyError(s, conflictId, strategy).None? && !TakesRemote(strategy)
    requires other != s.conflicts[conflictId].objectId
    ensures var c := s.conflicts[conflictId];
            var s' := Resolved(s, conflictId, strategy, retryId, now);
            && |Queued(s'.mutations, c.objectId)| == 1
            && Queued(s'.mutations, c.objectId)[0].mutationId == retryId
            && Queued(s'.mutations, c.objectId)[0].expectedRevision == c.remoteRevision
            && Queued(s'.mutations, c.objectId)[0].envelope == s'.objects[c.objectId].envelope
            && conflictId in s'.conflicts && s'.conflicts[conflictId].resolved
            && SameOtherRecords(s, s', conflictId)
            && Queued(s'.mutations, other) == Queued(s.mutations, other)
            && (other in s'.objects <==> other in s.objects)
            && (other in s.objects ==> s'.objects[other] == s.objects[other])
            && s'.bases == s.bases && s'.cursor == s.cursor
  {
    var c := s.conflicts[conflictId];
    var others := Without(s.mutations, c.objectId);
    var retry := ResolutionRetry(c, strategy, retryId, now);
    WithoutHasNone(s.mutations, c.objectId);
    QueuedOfConcat(others, [retry], c.objectId);
    QueuedOfConcat(others, [retry], other);
    assert Queued([retry], c.objectId) == [retry] + Queued([], c.objectId);
    assert Queued([retry], other) == Queued([], other);
    var q := Queued(Resolved(s, conflictId, strategy, retryId, now).mutations, c.objectId);
    assert q == [] + [retry];
  }

  /** The object itself, after a duplication that succeeds or fails. */
  lemma DuplicateTakesRemote(s: Store, conflictId: string, strategy: Strategy, retryId: string, now: string)
    requires StrategyError(s, conflictId, strategy).None? && strategy.Duplicate?
    requires strategy.newObjectId != s.conflicts[conflictId].objectId
    ensures var c, s' := s.conflicts[conflictId], Resolved(s, conflictId, strategy, retryId, now);
            && Queued(s'.mutations, c.objectId) == []
            && c.objectId in s'.objects && s'.objects[c.objectId].envelope == c.remoteEnvelope
            && s'.objects[c.objectId].revision == c.remoteRevision
  {
    var c := s.conflicts[conflictId];
    WithoutHasNone(s.mutations, c.objectId);
    if CopyError(strategy).None? {
      CopyQueue(s, c, strategy.newObjectId, strategy.copy.envelope, retryId, now);
    }
  }

  lemma ResolutionKeepsRecords(s: Store, conflictId: string, strategy: Strategy, retryId: string, now: string)
    requires StrategyError(s, conflictId, strategy).None?
    ensures var s' := Resolved(s, conflictId, strategy, retryId, now);
            && SameOtherRecords(s, s', conflictId) && conflictId in s'.conflicts
            && s'.conflicts[conflictId].localEnvelope == s.conflicts[conflictId].localEnvelope
            && (CopyError(strategy).Some? ==> s'.conflicts == s.conflicts)
            && (CopyError(strategy).None? ==> s'.conflicts[conflictId].resolved)
  {}

  /**
   * A duplication keeps both versions: the object holds the remote one with nothing queued, the new object the
   * local one, queued as a creation. If the copy fails, the local version is still in the unresolved record.
   */
  lemma DuplicateKeepsBoth(s: Store, conflictId: string, strategy: Strategy, retryId: string, now: string)
    requires StrategyError(s, conflictId, strategy).None? && strategy.Duplicate?
    requires strategy.newObjectId != s.conflicts[conflictId].objectId
    ensures var c := s.conflicts[conflictId];
            var s' := Resolved(s, conflictId, strategy, retryId, now);
            && Queued(s'.mutations, c.objectId) == []
            && c.objectId in s'.objects && s'.objects[c.objectId].envelope == c.remoteEnvelope
            && s'.objects[c.objectId].revision == c.remoteRevision
            && SameOtherRecords(s, s', conflictId)
            && conflictId in s'.conflicts && s'.conflicts[conflictId].localEnvelope == c.localEnvelope
            && if CopyError(strategy).Some? then s'.conflicts == s.conflicts
               else
                 && strategy.newObjectId in s'.objects
                 && s'.objects[strategy.newObjectId].envelope == strategy.copy.envelope
                 && Queued(s'.mutations, strategy.newObjectId)
                      == Queued(s.mutations, strategy.newObjectId)
                         + [CopyRetry(c, strategy.newObjectId, strategy.copy.envelope, retryId, now)]
                 && s'.conflicts[conflictId].resolved
  {
    DuplicateTakesRemote(s, conflictId, strategy, retryId, now);
    ResolutionKeepsRecords(s, conflictId, strategy, retryId, now);
    if CopyError(strategy).None? {
      CopyQueue(s, s.conflicts[conflictId], strategy.newObjectId, strategy.copy.envelope, retryId, now);
    }
  }

  lemma CopyQueue(s: Store, c: ConflictRecord, newId: string, e: Envelope, retryId: string, now: string)
    requires newId != c.objectId
    ensures var ms := Without(s.mutations, c.objectId) + [CopyRetry(c, newId, e, retryId, now)];
            && Queued(ms, c.objectId) == []
            && Queued(ms, newId) == Queued(s.mutations, newId) + [CopyRetry(c, newId, e, retryId, now)]
  {
    var others, retry := Without(s.mutations, c.objectId), CopyRetry(c, newId, e, retryId, now);
    WithoutHasNone(s.mutations, c.objectId);
    QueuedOfConcat(others, [retry], c.objectId);
    QueuedOfConcat(others, [retry], newId);
    assert Queued([retry], newId) == [retry] + Queued([], newId);
    assert Queued([retry], c.objectId) == Queued([], c.objectId);
  }

  // ---------------------------------------------------------------- pushing a queued mutation

  function RequestOf(m: PendingMutation): PushRequest {
    PushRequest(m.mutationId, m.objectId, m.expectedRevision, m.objectKind, m.envelope, m.mutationType.Delete?)
  }

  /** A retry is accepted exactly when the server is still at the revision it was resolved against. */
  lemma RetryAcceptedIff(server: SyncServer.Server, retry: PendingMutation)
    requires server.failNext.None? && retry.mutationId !in server.processed
    ensures SyncServer.Push(server, RequestOf(retry)).outcome.Ok?
            <==> SyncServer.CurrentRevision(server, retry.objectId) == retry.expectedRevision
  {}

  /** The store after the server accepted mutation `m`: head written, mutation removed, older bases pruned. */
  function Acknowledged(s: Store, m: PendingMutation, resp: PushResponse, now: string): Store {
    var head := StoredObject(m.objectId, m.objectKind, resp.revision, resp.serverSeq, m.mutationType.Delete?,
                             m.envelope, now);
    PruneBases(PutObject(s, head).(mutations := DropIds(s.mutations, {m.mutationId})), m.objectId, resp.revision)
  }

  method AcknowledgeAccepted(st: MemoryStorage, mutationId: string, revision: nat, serverSeq: nat, now: string)
    returns (r: QueueResult<StoredObject>)
    requires st.Valid()
    modifies st
    ensures st.Valid()
    ensures r.Refused? <==> mutationId !in Ids(old(st.mutations))
    ensures r.Refused? ==> st.View() == old(st.View())
    ensures r.Done? ==>
              (forall m :: m in old(st.mutations) && m.mutationId == mutationId
                 ==> st.View() == Acknowledged(old(st.View()), m, PushResponse(m.objectId, revision, serverSeq), now))
  {
    var found := st.GetMutation(mutationId);
    if found.None? {
      return Refused(NotFound);
    }
    var m := found.value;
    var head := StoredObject(m.objectId, m.objectKind, revision, serverSeq, m.mutationType.Delete?, m.envelope, now);
    st.Put(head);
    var _ := st.Remove(mutationId);
    st.PruneBaseVersions(m.objectId, revision);
    forall q | q in old(st.mutations) && q.mutationId == mutationId ensures q == m {
      UniqueById(old(st.mutations), q, m);
    }
    r := Done(head);
  }

  datatype Policy = Manual | GuardedLww

  /** Everything one push attempt reads besides the server and the store. */
  datatype Attempt = Attempt(
    policy: Policy,
    key: Option<Opener>,
    merge: MergeAttempt,
    retryId: string,
    conflictId: string,
    now: string)

  function Marked(s: Store, m: PendingMutation, status: MutationStatus, retries: nat): Store {
    s.(mutations := WithStatus(s.mutations, m.mutationId, status, retries))
  }

  /** The server refuses this mutation. */
  predicate IsRefused(server: SyncServer.Server, m: PendingMutation) {
    && server.failNext.None? && m.mutationId !in server.processed
    && m.expectedRevision != SyncServer.CurrentRevision(server, m.objectId)
  }

  predicate SettlesItself(m: PendingMutation, c: ConflictResponse, a: Attempt) {
    a.policy.GuardedLww? && !IsDeletionConflict(m, c)
  }

  /** A refused mutation: settled by last-write-wins, or recorded and left pending. */
  function OnConflict(s: Store, m: PendingMutation, c: ConflictResponse, a: Attempt): Store {
    if SettlesItself(m, c, a) then
      Lww(s, Clash(m, c, a.key, a.retryId, a.conflictId, a.now))
    else
      var s1 := Marked(s, m, Pending, m.retryCount + 1);
      if RecordFails(m, c, a.merge) then s1
      else PutConflict(s1, RecordOf(s1, m, c, a.merge, a.conflictId, a.now))
  }

  /** The store after mutation `m`, already marked in flight in `s`, was answered with `outcome`. */
  function Handled(s: Store, m: PendingMutation, outcome: Outcome<PushResponse>, a: Attempt): Store {
    match outcome
    case Ok(resp) => Acknowledged(s, m, resp, a.now)
    case Err(Conflict(c)) => OnConflict(s, m, c, a)
    case Err(ConnectionFailed) => Marked(s, m, Pending, m.retryCount + 1)
    case Err(ServerError(_)) => Marked(s, m, Pending, m.retryCount + 1)
    case Err(_) => Marked(s, m, Failed, m.retryCount + 1)
  }

  function InFlightStore(s: Store, m: PendingMutation): Store {
    Marked(s, m, InFlight, m.retryCount + 1)
  }

  /** What becomes of a request: answered, answered into the void, or never received. */
  datatype Fate = Delivered | AnswerLost | RequestLost

  function ServerAfter(server: SyncServer.Server, m: PendingMutation, fate: Fate): SyncServer.Server {
    if fate.RequestLost? then server else SyncServer.Push(server, RequestOf(m)).server
  }

  function AnswerTo(server: SyncServer.Server, m: PendingMutation, fate: Fate): Outcome<PushResponse> {
    if fate.Delivered? then SyncServer.Push(server, RequestOf(m)).outcome else Err(ConnectionFailed)
  }

  /** The client's store after one round with mutation `m`. */
  function StoreAfter(server: SyncServer.Server, s: Store, m: PendingMutation, fate: Fate, a: Attempt): Store {
    Handled(InFlightStore(s, m), m, AnswerTo(server, m, fate), a)
  }

  method HandleConflict(st: MemoryStorage, m: PendingMutation, c: ConflictResponse, a: Attempt)
    returns (r: QueueResult<()>)
    requires st.Valid() && a.retryId !in Ids(st.mutations)
    modifies st
    ensures st.Valid() && st.View() == OnConflict(old(st.View()), m, c, a)
    ensures r.Refused? <==> a.policy.Manual? && RecordFails(m, c, a.merge)
  {
    if a.policy.GuardedLww? && !(c.isDeleted || m.mutationType.Delete?) {
      var _ := EvaluateGuardedLww(st, m, c, a.key, a.retryId, a.conflictId, a.now);
      return Done(());
    }
    var _ := st.UpdateStatus(m.mutationId, Pending, m.retryCount + 1);
    var recorded := RecordConflict(st, m, c, a.merge, a.conflictId, a.now);
    if recorded.Refused? {
      return Refused(recorded.error);
    }
    return Done(());
  }

  /** The queue holds `m`, whatever its status. */
  ghost predicate HeldAs(ms: seq<PendingMutation>, m: PendingMutation) {
    exists q :: q in ms && q == m.(status := q.status, retryCount := q.retryCount)
  }

  method MarkInFlight(st: MemoryStorage, m: PendingMutation)
    requires st.Valid() && m in st.mutations
    modifies st
    ensures st.Valid() && st.View() == InFlightStore(old(st.View()), m)
    ensures Ids(st.mutations) == Ids(old(st.mutations)) && HeldAs(st.mutations, m)
  {
    var _ := st.UpdateStatus(m.mutationId, InFlight, m.retryCount + 1);
    StatusKeepsTheRest(old(st.mutations), m, InFlight, m.retryCount + 1);
    ghost var marked := StatusedMember(old(st.mutations), m, InFlight, m.retryCount + 1);
  }

  method HandleAnswer(st: MemoryStorage, m: PendingMutation, outcome: Outcome<PushResponse>, a: Attempt)
    returns (r: QueueResult<()>)
    requires st.Valid() && a.retryId !in Ids(st.mutations)
    requires HeldAs(st.mutations, m)
    modifies st
    ensures st.Valid() && st.View() == Handled(old(st.View()), m, outcome, a)
    ensures r.Refused? <==> HandlingFails(m, outcome, a)
  {
    r := Done(());
    match outcome {
      case Ok(resp) =>
        var _ := AcknowledgeAccepted(st, m.mutationId, resp.revision, resp.serverSeq, a.now);
      case Err(error) =>
        if error.Conflict? {
          r := HandleConflict(st, m, error.response, a);
        } else if error.ConnectionFailed? || error.ServerError? {
          var _ := st.UpdateStatus(m.mutationId, Pending, m.retryCount + 1);
        } else {
          var _ := st.UpdateStatus(m.mutationId, Failed, m.retryCount + 1);
        }
    }
  }

  /** Recording a conflict fails if its merge candidate cannot be decrypted. */
  predicate HandlingFails(m: PendingMutation, outcome: Outcome<PushResponse>, a: Attempt) {
    outcome.Err? && outcome.error.Conflict? && a.policy.Manual? && RecordFails(m, outcome.error.response, a.merge)
  }

  /** One round of the push loop: mark in flight, send, handle the answer. */
  method PushOne(adapter: SyncServer.Adapter, st: MemoryStorage, m: PendingMutation, a: Attempt)
    returns (outcome: Outcome<PushResponse>, r: QueueResult<()>)
    requires st.Valid() && m in st.mutations && a.retryId !in Ids(st.mutations)
    modifies adapter, st
    ensures st.Valid()
    ensures adapter.View() == ServerAfter(old(adapter.View()), m, Delivered)
    ensures outcome == AnswerTo(old(adapter.View()), m, Delivered)
    ensures st.View() == StoreAfter(old(adapter.View()), old(st.View()), m, Delivered, a)
    ensures r.Refused? <==> HandlingFails(m, outcome, a)
  {
    MarkInFlight(st, m);
    outcome := adapter.PushMutation(RequestOf(m));
    r := HandleAnswer(st, m, outcome, a);
  }

  // ---------------------------------------------------------------- mutation ids stay distinct

  lemma AppendStaysDistinct(ms: seq<PendingMutation>, q: PendingMutation)
    requires DistinctIds(ms) && q.mutationId !in Ids(ms)
    ensures DistinctIds(ms + [q])
  {
    assert forall i :: 0 <= i < |ms| ==> ms[i].mutationId in Ids(ms);
  }

  lemma StatusStaysDistinct(s: Store, m: PendingMutation, status: MutationStatus, retries: nat)
    requires DistinctIds(s.mutations)
    ensures DistinctIds(Marked(s, m, status, retries).mutations)
    ensures Ids(Marked(s, m, status, retries).mutations) == Ids(s.mutations)
  {
    StatusKeepsTheRest(s.mutations, m, status, retries);
    var ws := WithStatus(s.mutations, m.mutationId, status, retries);
    forall i, j | 0 <= i < j < |ws| ensures ws[i].mutationId != ws[j].mutationId {
      assert ws[i].mutationId == s.mutations[i].mutationId && ws[j].mutationId == s.mutations[j].mutationId;
    }
  }

  lemma LwwStaysDistinct(s: Store, x: Clash)
    requires DistinctIds(s.mutations) && x.retryId !in Ids(s.mutations)
    ensures DistinctIds(Lww(s, x).mutations)
  {
    WithoutStaysDistinct(s.mutations, x.m.objectId);
    FreshAfterRemoval(s.mutations, x.m.objectId, x.retryId);
    AppendStaysDistinct(Without(s.mutations, x.m.objectId),
      Retry(x.retryId, x.m.objectId, x.m.objectKind, Upsert, x.m.envelope, x.c.currentRevision, x.now));
  }

  lemma HandledStaysDistinct(s: Store, m: PendingMutation, outcome: Outcome<PushResponse>, a: Attempt)
    requires DistinctIds(s.mutations) && a.retryId !in Ids(s.mutations)
    ensures DistinctIds(Handled(s, m, outcome, a).mutations) && Handled(s, m, outcome, a).cursor == s.cursor
  {
    StatusStaysDistinct(s, m, Pending, m.retryCount + 1);
    StatusStaysDistinct(s, m, Failed, m.retryCount + 1);
    DropIdsStaysDistinct(s.mutations, {m.mutationId});
    if outcome.Err? && outcome.error.Conflict? {
      LwwStaysDistinct(s, Clash(m, outcome.error.response, a.key, a.retryId, a.conflictId, a.now));
    }
  }
}
