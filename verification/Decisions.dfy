/**
 * Which version comes out of a conflict, in terms of the edit and the server's object alone: what the object holds and
 * what is queued after every strategy and after last-write-wins, with the vault open or locked, and what the server
 * holds once the retry has been delivered.
 */
module Decisions {
  import opened Text
  import opened Protocol
  import opened Storage
  import opened SyncServer
  import opened Conflicts
  import opened Timestamps
  import Retries
  import CursorSafety

  datatype Version = Version(kind: nat, envelope: Envelope, isDeleted: bool)

  /** The object's head is this version at this revision, written at `at`. */
  predicate HeadIs(s: Store, o: string, revision: nat, v: Version, at: string) {
    && o in s.objects && s.objects[o].revision == revision && s.objects[o].updatedAt == at
    && v == Version(s.objects[o].objectKind, s.objects[o].envelope, s.objects[o].isDeleted)
  }

  predicate ServerHolds(server: Server, o: string, revision: nat, v: Version) {
    && o in server.objects && server.objects[o].revision == revision
    && v == Version(server.objects[o].objectKind, server.objects[o].envelope, server.objects[o].isDeleted)
  }

  /** One mutation is queued for the object: this version, new at `at`, based on this revision. */
  predicate QueuesOnly(s: Store, o: string, k: string, expected: nat, v: Version, at: string) {
    Queued(s.mutations, o)
    == [PendingMutation(k, o, expected, v.kind, if v.isDeleted then Delete else Upsert, v.envelope, at, 0, Pending)]
  }

  function LocalVersion(c: ConflictRecord): Version {
    Version(c.objectKind, c.localEnvelope, c.localIsDeleted)
  }

  function RemoteVersion(c: ConflictRecord): Version {
    Version(c.objectKind, c.remoteEnvelope, c.remoteIsDeleted)
  }

  /** The record is closed with this choice. */
  predicate ClosedWith(s: Store, k: string, e: Envelope, at: string) {
    && k in s.conflicts && s.conflicts[k].resolved && s.conflicts[k].resolvedAt == Some(at)
    && s.conflicts[k].candidateEnvelope == Some(e)
  }

  // ---------------------------------------------------------------- every strategy, over the record's fields

  lemma QueuedAlone(ms: seq<PendingMutation>, q: PendingMutation, o: string)
    requires q.objectId == o
    ensures Queued(Without(ms, o) + [q], o) == [q]
  {
    Retries.QueuedOfAppended(ms, q, o);
  }

  /** Keeping the local side, or restoring it: the record's local version, its deletion included. */
  lemma KeepingLocalTakesLocal(s: Store, k: string, strategy: Strategy, retryId: string, now: string)
    requires StrategyError(s, k, strategy).None? && (strategy.KeepLocal? || strategy.RestoreResurrect?)
    ensures var c, s' := s.conflicts[k], Resolved(s, k, strategy, retryId, now);
            && HeadIs(s', c.objectId, c.remoteRevision, LocalVersion(c), now)
            && QueuesOnly(s', c.objectId, retryId, c.remoteRevision, LocalVersion(c), now)
            && ClosedWith(s', k, c.localEnvelope, now)
  {
    var c := s.conflicts[k];
    QueuedAlone(s.mutations, ResolutionRetry(c, strategy, retryId, now), c.objectId);
  }

  lemma KeepingRemoteTakesRemote(s: Store, k: string, retryId: string, now: string)
    requires StrategyError(s, k, KeepRemote).None?
    ensures var c, s' := s.conflicts[k], Resolved(s, k, KeepRemote, retryId, now);
            && HeadIs(s', c.objectId, c.remoteRevision, RemoteVersion(c), now)
            && Queued(s'.mutations, c.objectId) == []
            && ClosedWith(s', k, c.remoteEnvelope, now)
  {
    WithoutHasNone(s.mutations, s.conflicts[k].objectId);
  }

  lemma MergingTakesTheMerge(s: Store, k: string, e: Envelope, retryId: string, now: string)
    requires StrategyError(s, k, Merge(Some(e))).None?
    ensures var c, s' := s.conflicts[k], Resolved(s, k, Merge(Some(e)), retryId, now);
            && !c.localIsDeleted && !c.remoteIsDeleted
            && HeadIs(s', c.objectId, c.remoteRevision, Version(c.objectKind, e, false), now)
            && QueuesOnly(s', c.objectId, retryId, c.remoteRevision, Version(c.objectKind, e, false), now)
            && ClosedWith(s', k, e, now)
  {
    var c := s.conflicts[k];
    QueuedAlone(s.mutations, ResolutionRetry(c, Merge(Some(e)), retryId, now), c.objectId);
  }

  lemma CopiedStore(s: Store, k: string, newId: string, e: Envelope, retryId: string, now: string)
    requires StrategyError(s, k, Duplicate(newId, Copied(e))).None? && e.objectId == newId
    requires newId != s.conflicts[k].objectId
    ensures var c, s' := s.conflicts[k], Resolved(s, k, Duplicate(newId, Copied(e)), retryId, now);
            && HeadIs(s', c.objectId, c.remoteRevision, RemoteVersion(c), now)
            && HeadIs(s', newId, 1, Version(c.objectKind, e, false), now)
            && s'.mutations == Without(s.mutations, c.objectId) + [CopyRetry(c, newId, e, retryId, now)]
  {}

  /** Duplicating: the remote version stays with the object, the copy is created under the new id. */
  lemma DuplicatingCreatesTheCopy(s: Store, k: string, newId: string, e: Envelope, retryId: string, now: string)
    requires StrategyError(s, k, Duplicate(newId, Copied(e))).None? && e.objectId == newId
    requires newId != s.conflicts[k].objectId && Queued(s.mutations, newId) == []
    ensures var c, s' := s.conflicts[k], Resolved(s, k, Duplicate(newId, Copied(e)), retryId, now);
            && HeadIs(s', c.objectId, c.remoteRevision, RemoteVersion(c), now)
            && Queued(s'.mutations, c.objectId) == []
            && HeadIs(s', newId, 1, Version(c.objectKind, e, false), now)
                && QueuesOnly(s', newId, retryId, 0, Version(c.objectKind, e, false), now)
  {
    CopiedStore(s, k, newId, e, retryId, now);
    CopyQueue(s, s.conflicts[k], newId, e, retryId, now);
    var q := CopyRetry(s.conflicts[k], newId, e, retryId, now);
    assert [] + [q] == [q];
  }

  // ---------------------------------------------------------------- delivered

  /**
   * A queued version delivered to a server still at the revision it is based on: the server holds exactly that
   * version, one revision up, and so does the client, with nothing queued.
   */
  lemma RetryReachesServer(server: Server, s: Store, o: string, k: string, expected: nat, v: Version, at: string,
                           a: Attempt)
    requires QueuesOnly(s, o, k, expected, v, at)
    requires server.failNext.None? && k !in server.processed && CurrentRevision(server, o) == expected
    ensures var m := Queued(s.mutations, o)[0];
            var s' := StoreAfter(server, s, m, Delivered, a);
            var server' := ServerAfter(server, m, Delivered);
            && ServerHolds(server', o, expected + 1, v)
            && HeadIs(s', o, expected + 1, v, a.now) && Queued(s'.mutations, o) == []
            && s'.objects[o].serverSeq == server'.objects[o].serverSeq == server.counter + 1
  {
    var m := Queued(s.mutations, o)[0];
    assert Queued(s.mutations, o) == [m];
    RetryAcceptedIff(server, m);
    Retries.UnrefusedQueue(server, s, m, Delivered, a);
  }

  function EditOf(m: PendingMutation): Version {
    Version(m.objectKind, m.envelope, m.mutationType.Delete?)
  }

  /** What the record of a refused mutation holds: the edit, and the server's object as it is. */
  predicate RecordsRefusal(c: ConflictRecord, server: Server, m: PendingMutation) {
    && c.objectId == m.objectId && c.objectKind == m.objectKind && !c.resolved
    && c.baseRevision == m.expectedRevision && c.remoteRevision == CurrentRevision(server, m.objectId)
    && c.localEnvelope == m.envelope && c.localIsDeleted == m.mutationType.Delete?
    && (m.objectId in server.objects ==>
          && c.remoteEnvelope == server.objects[m.objectId].envelope
          && c.remoteIsDeleted == server.objects[m.objectId].isDeleted)
  }

  lemma RefusalIsRecorded(server: Server, s: Store, m: PendingMutation, a: Attempt)
    requires IsRefused(server, m) && a.policy.Manual? && !a.merge.MergeFailed?
    ensures var s' := StoreAfter(server, s, m, Delivered, a);
            && a.conflictId in s'.conflicts && RecordsRefusal(s'.conflicts[a.conflictId], server, m)
            && s'.conflicts[a.conflictId].baseEnvelope == BaseAt(s, m.objectId, m.expectedRevision)
            && ServerAfter(server, m, Delivered) == server
  {}

  /**
   * From the refused push to the server: a client that keeps its side makes the server hold the very edit that was
   * refused, one revision above the version it lost against.
   */
  lemma KeptEditReachesServer(server: Server, s: Store, m: PendingMutation, a: Attempt, strategy: Strategy, k: string,
                              now: string, b: Attempt)
    requires IsRefused(server, m) && a.policy.Manual? && !a.merge.MergeFailed?
    requires (strategy.KeepLocal? || strategy.RestoreResurrect?) && k !in server.processed
    ensures var s1 := StoreAfter(server, s, m, Delivered, a);
            && StrategyError(s1, a.conflictId, strategy).None?
            && var s2 := Resolved(s1, a.conflictId, strategy, k, now);
               var revision, v := CurrentRevision(server, m.objectId), EditOf(m);
               && QueuesOnly(s2, m.objectId, k, revision, v, now)
               && var q := Queued(s2.mutations, m.objectId)[0];
                  && ServerHolds(ServerAfter(server, q, Delivered), m.objectId, revision + 1, v)
                  && HeadIs(StoreAfter(server, s2, q, Delivered, b), m.objectId, revision + 1, v, b.now)
  {
    RefusalIsRecorded(server, s, m, a);
    var s1 := StoreAfter(server, s, m, Delivered, a);
    KeepingLocalTakesLocal(s1, a.conflictId, strategy, k, now);
    RetryReachesServer(server, Resolved(s1, a.conflictId, strategy, k, now), m.objectId, k,
                       CurrentRevision(server, m.objectId), EditOf(m), now, b);
  }

  /** And a client that gives way holds the server's version, with nothing left to send. */
  lemma GivingWayTakesServersVersion(server: Server, s: Store, m: PendingMutation, a: Attempt, k: string, now: string)
    requires IsRefused(server, m) && a.policy.Manual? && !a.merge.MergeFailed? && m.objectId in server.objects
    ensures var s1 := StoreAfter(server, s, m, Delivered, a);
            && StrategyError(s1, a.conflictId, KeepRemote).None?
            && var s2 := Resolved(s1, a.conflictId, KeepRemote, k, now);
               var held := server.objects[m.objectId];
               && HeadIs(s2, m.objectId, held.revision, Version(m.objectKind, held.envelope, held.isDeleted), now)
               && Queued(s2.mutations, m.objectId) == []
  {
    RefusalIsRecorded(server, s, m, a);
    KeepingRemoteTakesRemote(StoreAfter(server, s, m, Delivered, a), a.conflictId, k, now);
  }

  // ---------------------------------------------------------------- last-write-wins, by its outcome

  /** The edit is head and queued again. */
  predicate LocalTaken(s: Store, x: Clash) {
    && HeadIs(s, x.m.objectId, x.c.currentRevision, Version(x.m.objectKind, x.m.envelope, false), x.now)
    && QueuesOnly(s, x.m.objectId, x.retryId, x.c.currentRevision, Version(x.m.objectKind, x.m.envelope, false), x.now)
  }

  /** The server's version is head, and nothing is queued. */
  predicate RemoteTaken(s: Store, x: Clash) {
    && HeadIs(s, x.m.objectId, x.c.currentRevision, Version(x.m.objectKind, x.c.currentEnvelope, false), x.now)
    && Queued(s.mutations, x.m.objectId) == []
  }

  lemma LwwTakesASide(s: Store, x: Clash)
    ensures if LocalSide(s, x) then LocalTaken(Lww(s, x), x) else RemoteTaken(Lww(s, x), x)
  {
    var retry := Retry(x.retryId, x.m.objectId, x.m.objectKind, Upsert, x.m.envelope, x.c.currentRevision, x.now);
    QueuedAlone(s.mutations, retry, x.m.objectId);
    WithoutHasNone(s.mutations, x.m.objectId);
  }

  predicate Opens(x: Clash) {
    x.key.Some? && x.key.value(x.m.envelope).Some? && x.key.value(x.c.currentEnvelope).Some?
  }

  /** The object's head is the version the refusal reported. */
  predicate HeadAtRefusal(s: Store, x: Clash) {
    x.m.objectId in s.objects && s.objects[x.m.objectId].revision == x.c.currentRevision
  }

  predicate GreaterCiphertext(x: Clash) {
    Less(x.c.currentEnvelope.payload.ciphertext, x.m.envelope.payload.ciphertext)
  }

  /** With both notes open the one stamped later wins; at the same instant the greater ciphertext. */
  lemma OpenLaterEditWins(st: Store, x: Clash, s: nat, ms: nat, s': nat, ms': nat)
    requires s < YEAR_10000 && s' < YEAR_10000 && ms < 1000 && ms' < 1000 && Opens(x)
    requires x.key.value(x.m.envelope).value.updatedAt == FormatRfc3339(s, ms)
    requires x.key.value(x.c.currentEnvelope).value.updatedAt == FormatRfc3339(s', ms')
    ensures var after := Lww(st, x);
            if Earlier(s', ms', s, ms) || ((s, ms) == (s', ms') && GreaterCiphertext(x)) then LocalTaken(after, x)
            else RemoteTaken(after, x)
  {
    FormatPreservesOrder(s', ms', s, ms);
    LwwTakesASide(st, x);
  }

  /**
   * With the vault locked, or one side not opening, and the head at the reported revision: the edit wins exactly if
   * it was queued later than the head was stored; at the same instant the greater ciphertext wins.
   */
  lemma LockedLaterEditWins(st: Store, x: Clash, s: nat, ms: nat, s': nat, ms': nat)
    requires s < YEAR_10000 && s' < YEAR_10000 && ms < 1000 && ms' < 1000 && !Opens(x) && HeadAtRefusal(st, x)
    requires x.m.createdAt == FormatRfc3339(s, ms) && st.objects[x.m.objectId].updatedAt == FormatRfc3339(s', ms')
    ensures var after := Lww(st, x);
            if Earlier(s', ms', s, ms) || ((s, ms) == (s', ms') && GreaterCiphertext(x)) then LocalTaken(after, x)
            else RemoteTaken(after, x)
  {
    FormatPreservesOrder(s', ms', s, ms);
    LwwTakesASide(st, x);
  }

  /** With neither the notes nor a head at that revision to go by, the greater ciphertext wins. */
  lemma BlindGreaterCiphertextWins(st: Store, x: Clash)
    requires !Opens(x) && !HeadAtRefusal(st, x)
    ensures var after := Lww(st, x); if GreaterCiphertext(x) then LocalTaken(after, x) else RemoteTaken(after, x)
  {
    LwwTakesASide(st, x);
  }

  /** Once the winning edit's retry is delivered, the server holds it. */
  lemma WinningEditReachesServer(server: Server, s: Store, x: Clash, a: Attempt)
    requires LocalTaken(Lww(s, x), x) && server.failNext.None? && x.retryId !in server.processed
    requires CurrentRevision(server, x.m.objectId) == x.c.currentRevision
    ensures var q := Queued(Lww(s, x).mutations, x.m.objectId)[0];
            ServerHolds(ServerAfter(server, q, Delivered), x.m.objectId, x.c.currentRevision + 1,
                        Version(x.m.objectKind, x.m.envelope, false))
  {
    RetryReachesServer(server, Lww(s, x), x.m.objectId, x.retryId, x.c.currentRevision,
                       Version(x.m.objectKind, x.m.envelope, false), x.now, a);
  }

  // ---------------------------------------------------------------- a local edit

  /** An edit of an object with nothing queued: it is head and queued on the version it replaced, which is kept. */
  lemma EditQueuesItself(s: Store, e: CursorSafety.Edit)
    requires Queued(s.mutations, e.id) == []
    ensures var s', revision := CursorSafety.Edited(s, e), if e.id in s.objects then s.objects[e.id].revision else 0;
            && HeadIs(s', e.id, revision + 1, Version(e.kind, e.envelope, e.isDeleted), e.now)
            && QueuesOnly(s', e.id, e.mutationId, revision, Version(e.kind, e.envelope, e.isDeleted), e.now)
            && (e.id in s.objects ==> BaseAt(s', e.id, revision) == Some(s.objects[e.id].envelope))
  {
    var q := CursorSafety.EditMutation(s, e);
    QueuedOfConcat(s.mutations, [q], e.id);
    assert Queued([q], e.id) == [q] + Queued([], e.id);
  }

  /** Delivered to a server at that revision, the edit is what the server holds. */
  lemma EditReachesServer(server: Server, s: Store, e: CursorSafety.Edit, a: Attempt)
    requires Queued(s.mutations, e.id) == [] && server.failNext.None? && e.mutationId !in server.processed
    requires CurrentRevision(server, e.id) == if e.id in s.objects then s.objects[e.id].revision else 0
    ensures var s', revision := CursorSafety.Edited(s, e), CurrentRevision(server, e.id);
            var v := Version(e.kind, e.envelope, e.isDeleted);
            && QueuesOnly(s', e.id, e.mutationId, revision, v, e.now)
            && var q := Queued(s'.mutations, e.id)[0];
               && ServerHolds(ServerAfter(server, q, Delivered), e.id, revision + 1, v)
               && HeadIs(StoreAfter(server, s', q, Delivered, a), e.id, revision + 1, v, a.now)
  {
    EditQueuesItself(s, e);
    RetryReachesServer(server, CursorSafety.Edited(s, e), e.id, e.mutationId, CurrentRevision(server, e.id),
                       Version(e.kind, e.envelope, e.isDeleted), e.now, a);
  }

  /** An acknowledgement forgets the object's versions below the accepted revision and no others. */
  lemma AcknowledgementPrunesBelow(s: Store, m: PendingMutation, resp: PushResponse, now: string, id: string,
                                   revision: nat)
    ensures BaseAt(Acknowledged(s, m, resp, now), id, revision)
         == if id == m.objectId && revision < resp.revision then None else BaseAt(s, id, revision)
  {}

  // ---------------------------------------------------------------- which decisions are taken at all

  /** Only an open record can be decided, and a merge needs two live sides and a sealed result. */
  lemma DecisionIsRefusedIff(s: Store, k: string, strategy: Strategy)
    ensures StrategyError(s, k, strategy).Some? <==>
              || k !in s.conflicts || s.conflicts[k].resolved
              || (strategy.Merge?
                  && (s.conflicts[k].remoteIsDeleted || s.conflicts[k].localIsDeleted || strategy.sealed.None?))
    ensures k !in s.conflicts ==> StrategyError(s, k, strategy) == Some(NotFound)
    ensures k in s.conflicts && s.conflicts[k].resolved ==> StrategyError(s, k, strategy) == Some(InvalidState)
  {}

  /** A record is decided once: after a decision that succeeded every further one is refused. */
  lemma DecidedOnce(s: Store, k: string, strategy: Strategy, retryId: string, now: string, again: Strategy)
    requires StrategyError(s, k, strategy).None?
    ensures var s' := Resolved(s, k, strategy, retryId, now);
            StrategyError(s', k, again)
            == if CopyError(strategy).None? then Some(InvalidState) else StrategyError(s, k, again)
  {
    ResolutionKeepsRecords(s, k, strategy, retryId, now);
  }

  /**
   * A deletion on either side is never settled automatically: whatever the policy, the refused mutation stays queued
   * and the conflict is recorded with no candidate.
   */
  lemma DeletionsAreRecorded(server: Server, s: Store, m: PendingMutation, a: Attempt)
    requires IsRefused(server, m) && Queued(s.mutations, m.objectId) == [m]
    requires m.mutationType.Delete? || (m.objectId in server.objects && server.objects[m.objectId].isDeleted)
    ensures var s' := StoreAfter(server, s, m, Delivered, a);
            && Retries.SameRequests(Queued(s'.mutations, m.objectId), [m]) && s'.objects == s.objects
            && a.conflictId in s'.conflicts && RecordsRefusal(s'.conflicts[a.conflictId], server, m)
            && s'.conflicts[a.conflictId].candidateEnvelope == None
  {
    Retries.MarkedKeepsRequests(s, m, InFlight, m.retryCount + 1, m.objectId);
    Retries.MarkedKeepsRequests(InFlightStore(s, m), m, Pending, m.retryCount + 1, m.objectId);
  }

  /** Between two live versions without a key nothing is merged; a candidate that was made is kept in the record. */
  lemma CandidateIsKept(server: Server, s: Store, m: PendingMutation, a: Attempt)
    requires IsRefused(server, m) && a.policy.Manual? && !a.merge.MergeFailed?
    requires m.mutationType.Upsert? && m.objectId in server.objects && !server.objects[m.objectId].isDeleted
    ensures var s' := StoreAfter(server, s, m, Delivered, a);
            && a.conflictId in s'.conflicts
            && s'.conflicts[a.conflictId].candidateEnvelope
               == if a.merge.Candidate? then Some(a.merge.envelope) else None
  {}

  /** A candidate that cannot be decrypted: the mutation is pending again, and nothing is recorded. */
  lemma UnmergeableIsNotRecorded(server: Server, s: Store, m: PendingMutation, a: Attempt)
    requires IsRefused(server, m) && a.policy.Manual? && a.merge.MergeFailed?
    requires m.mutationType.Upsert? && m.objectId in server.objects && !server.objects[m.objectId].isDeleted
    ensures StoreAfter(server, s, m, Delivered, a).conflicts == s.conflicts
  {}

  // ---------------------------------------------------------------- whether it will be sent again

  lemma {:induction false} StatusOfTheOne(ms: seq<PendingMutation>, o: string, m: PendingMutation, q: PendingMutation,
                                          status: MutationStatus, retries: nat)
    requires DistinctIds(ms) && Queued(ms, o) == [q] && q.mutationId == m.mutationId
    ensures Queued(WithStatus(ms, m.mutationId, status, retries), o) == [q.(status := status, retryCount := retries)]
  {
    QueuedMembers(ms, o);
    assert q in Queued(ms, o);
    if ms[0].objectId == o {
      assert ms[0] == Queued(ms, o)[0] && Queued(ms[1..], o) == [];
    } else {
      assert ms[0] != q && q in ms[1..];
      TailStaysDistinct(ms);
      assert ms[0].mutationId != q.mutationId;
      StatusOfTheOne(ms[1..], o, m, q, status, retries);
    }
  }

  /**
   * The mutation after an answer that did not settle it: pending again after a failure of the transport, so the next
   * loop sends it; failed after a fatal answer, so no loop does. Each counts one more attempt.
   */
  lemma UnsettledIsMarked(server: Server, s: Store, m: PendingMutation, fate: Fate, a: Attempt)
    requires DistinctIds(s.mutations) && Queued(s.mutations, m.objectId) == [m]
    requires AnswerTo(server, m, fate).Err? && !AnswerTo(server, m, fate).error.Conflict?
    ensures var error, s' := AnswerTo(server, m, fate).error, StoreAfter(server, s, m, fate, a);
            var status := if error.ConnectionFailed? || error.ServerError? then Pending else Failed;
            && Queued(s'.mutations, m.objectId) == [m.(status := status, retryCount := m.retryCount + 1)]
            && s'.objects == s.objects && s'.conflicts == s.conflicts && s'.bases == s.bases && s'.cursor == s.cursor
  {
    var status := if AnswerTo(server, m, fate).error.ConnectionFailed? || AnswerTo(server, m, fate).error.ServerError?
                  then Pending else Failed;
    MarkedTwice(s, m, status);
  }

  lemma MarkedTwice(s: Store, m: PendingMutation, status: MutationStatus)
    requires DistinctIds(s.mutations) && Queued(s.mutations, m.objectId) == [m]
    ensures Queued(Marked(InFlightStore(s, m), m, status, m.retryCount + 1).mutations, m.objectId)
         == [m.(status := status, retryCount := m.retryCount + 1)]
  {
    var q := m.(status := InFlight, retryCount := m.retryCount + 1);
    StatusOfTheOne(s.mutations, m.objectId, m, m, InFlight, m.retryCount + 1);
    StatusStaysDistinct(s, m, InFlight, m.retryCount + 1);
    StatusOfTheOne(InFlightStore(s, m).mutations, m.objectId, m, q, status, m.retryCount + 1);
  }

  /** A recorded conflict leaves the mutation pending. */
  lemma RecordedIsPending(server: Server, s: Store, m: PendingMutation, a: Attempt)
    requires DistinctIds(s.mutations) && Queued(s.mutations, m.objectId) == [m]
    requires IsRefused(server, m) && a.policy.Manual?
    ensures Queued(StoreAfter(server, s, m, Delivered, a).mutations, m.objectId)
         == [m.(status := Pending, retryCount := m.retryCount + 1)]
  {
    MarkedTwice(s, m, Pending);
  }
}
