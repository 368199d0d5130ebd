/**
 * The client's in-memory store: object heads, the queue of pending mutations, retained base versions,
 * the pull cursor and conflict records. `Store` is its value; `MemoryStorage` the mutable object.
 */
module Storage {
  import opened Text
  import opened Protocol

  datatype StoredObject = StoredObject(
    objectId: string,
    objectKind: nat,
    revision: nat,
    serverSeq: nat,
    isDeleted: bool,
    envelope: Envelope,
    updatedAt: string)

  datatype MutationType = Upsert | Delete
  datatype MutationStatus = Pending | InFlight | Failed

  datatype PendingMutation = PendingMutation(
    mutationId: string,
    objectId: string,
    expectedRevision: nat,
    objectKind: nat,
    mutationType: MutationType,
    envelope: Envelope,
    createdAt: string,
    retryCount: nat,
    status: MutationStatus)

  datatype ConflictRecord = ConflictRecord(
    conflictId: string,
    objectId: string,
    objectKind: nat,
    baseRevision: nat,
    remoteRevision: nat,
    baseEnvelope: Option<Envelope>,
    localEnvelope: Envelope,
    remoteEnvelope: Envelope,
    candidateEnvelope: Option<Envelope>,
    resolved: bool,
    remoteIsDeleted: bool,
    localIsDeleted: bool,
    createdAt: string,
    resolvedAt: Option<string>)

  datatype StorageError = AlreadyQueued | NotQueued
  datatype Result<+T> = Success(value: T) | Failure(error: StorageError)

  datatype Store = Store(
    objects: map<string, StoredObject>,
    mutations: seq<PendingMutation>,
    bases: map<(string, nat), Envelope>,
    cursor: nat,
    conflicts: map<string, ConflictRecord>)

  // ---------------------------------------------------------------- the queue as a value

  ghost predicate DistinctIds(ms: seq<PendingMutation>) {
    forall i, j :: 0 <= i < j < |ms| ==> ms[i].mutationId != ms[j].mutationId
  }

  /** The queue without the mutations whose id is in `ids`. */
  function DropIds(ms: seq<PendingMutation>, ids: set<string>): seq<PendingMutation> {
    if ms == [] then []
    else if ms[0].mutationId in ids then DropIds(ms[1..], ids)
    else [ms[0]] + DropIds(ms[1..], ids)
  }

  /** The queue without the mutations of object `objectId`, in order. */
  function Without(ms: seq<PendingMutation>, objectId: string): seq<PendingMutation> {
    if ms == [] then []
    else if ms[0].objectId == objectId then Without(ms[1..], objectId)
    else [ms[0]] + Without(ms[1..], objectId)
  }

  /** The queued mutations of object `objectId`, in order. */
  function Queued(ms: seq<PendingMutation>, objectId: string): seq<PendingMutation> {
    if ms == [] then []
    else if ms[0].objectId == objectId then [ms[0]] + Queued(ms[1..], objectId)
    else Queued(ms[1..], objectId)
  }

  function Ids(ms: seq<PendingMutation>): set<string> {
    set i | 0 <= i < |ms| :: ms[i].mutationId
  }

  function WithStatus(ms: seq<PendingMutation>, id: string, status: MutationStatus,
                      retries: nat): seq<PendingMutation> {
    if ms == [] then []
    else if ms[0].mutationId == id then [ms[0].(status := status, retryCount := retries)] + ms[1..]
    else [ms[0]] + WithStatus(ms[1..], id, status, retries)
  }

  lemma {:induction false} DropIdsMembers(ms: seq<PendingMutation>, ids: set<string>)
    ensures forall m :: m in DropIds(ms, ids) <==> m in ms && m.mutationId !in ids
  {
    if ms != [] {
      DropIdsMembers(ms[1..], ids);
      assert ms == [ms[0]] + ms[1..];
    }
  }

  lemma {:induction false} QueuedMembers(ms: seq<PendingMutation>, objectId: string)
    ensures forall m :: m in Queued(ms, objectId) <==> m in ms && m.objectId == objectId
  {
    if ms != [] {
      QueuedMembers(ms[1..], objectId);
      assert ms == [ms[0]] + ms[1..];
    }
  }

  lemma {:induction false} WithoutMembers(ms: seq<PendingMutation>, objectId: string)
    ensures forall m :: m in Without(ms, objectId) <==> m in ms && m.objectId != objectId
  {
    if ms != [] {
      WithoutMembers(ms[1..], objectId);
      assert ms == [ms[0]] + ms[1..];
    }
  }

  lemma TailStaysDistinct(ms: seq<PendingMutation>)
    requires DistinctIds(ms) && ms != []
    ensures DistinctIds(ms[1..]) && ms[0].mutationId !in Ids(ms[1..])
  {}

  lemma {:induction false} DropIdsStaysDistinct(ms: seq<PendingMutation>, ids: set<string>)
    requires DistinctIds(ms)
    ensures DistinctIds(DropIds(ms, ids))
  {
    if ms != [] {
      TailStaysDistinct(ms);
      DropIdsStaysDistinct(ms[1..], ids);
      DropIdsMembers(ms[1..], ids);
      var rest := DropIds(ms[1..], ids);
      forall i | 0 <= i < |rest| ensures rest[i].mutationId != ms[0].mutationId {
        assert rest[i] in ms[1..];
      }
    }
  }

  lemma {:induction false} WithoutStaysDistinct(ms: seq<PendingMutation>, objectId: string)
    requires DistinctIds(ms)
    ensures DistinctIds(Without(ms, objectId))
  {
    if ms != [] {
      TailStaysDistinct(ms);
      WithoutStaysDistinct(ms[1..], objectId);
      WithoutMembers(ms[1..], objectId);
      var rest := Without(ms[1..], objectId);
      forall i | 0 <= i < |rest| ensures rest[i].mutationId != ms[0].mutationId {
        assert rest[i] in ms[1..];
      }
    }
  }

  lemma {:induction false} DropIdsIsId(ms: seq<PendingMutation>, ids: set<string>)
    requires Ids(ms) !! ids
    ensures DropIds(ms, ids) == ms
  {
    if ms != [] {
      assert ms[0].mutationId in Ids(ms);
      assert Ids(ms[1..]) <= Ids(ms) by {
        forall x | x in Ids(ms[1..]) ensures x in Ids(ms) {
          var i :| 0 <= i < |ms[1..]| && ms[1..][i].mutationId == x;
          assert ms[i + 1].mutationId == x;
        }
      }
      DropIdsIsId(ms[1..], ids);
    }
  }

  /** Removing the entry at `pos` of a distinct queue is dropping its id. */
  lemma {:induction false} RemoveAtDropsId(ms: seq<PendingMutation>, pos: nat)
    requires DistinctIds(ms) && pos < |ms|
    ensures ms[..pos] + ms[pos + 1..] == DropIds(ms, {ms[pos].mutationId})
  {
    TailStaysDistinct(ms);
    if pos == 0 {
      DropIdsIsId(ms[1..], {ms[0].mutationId});
    } else {
      RemoveAtDropsId(ms[1..], pos - 1);
      assert ms[..pos] + ms[pos + 1..] == [ms[0]] + (ms[1..][..pos - 1] + ms[1..][pos..]);
    }
  }

  lemma {:induction false} DropIdsTwice(ms: seq<PendingMutation>, a: set<string>, b: set<string>)
    ensures DropIds(DropIds(ms, a), b) == DropIds(ms, a + b)
  {
    if ms != [] {
      DropIdsTwice(ms[1..], a, b);
      var rest := DropIds(ms[1..], a);
      if ms[0].mutationId !in a {
        assert ([ms[0]] + rest)[1..] == rest;
      }
    }
  }

  lemma {:induction false} DropIdsOfObject(ms: seq<PendingMutation>, objectId: string, ids: set<string>)
    requires forall m :: m in ms ==> (m.mutationId in ids <==> m.objectId == objectId)
    ensures DropIds(ms, ids) == Without(ms, objectId)
  {
    if ms != [] {
      assert ms[0] in ms;
      DropIdsOfObject(ms[1..], objectId, ids);
    }
  }

  /** Dropping the ids of an object's queued mutations leaves exactly the other objects' mutations. */
  lemma DropQueuedIsWithout(ms: seq<PendingMutation>, objectId: string)
    requires DistinctIds(ms)
    ensures DropIds(ms, Ids(Queued(ms, objectId))) == Without(ms, objectId)
  {
    QueuedMembers(ms, objectId);
    var q := Queued(ms, objectId);
    forall m | m in ms ensures m.mutationId in Ids(q) <==> m.objectId == objectId {
      if m.objectId == objectId {
        var i :| 0 <= i < |q| && q[i] == m;
        assert q[i].mutationId in Ids(q);
      }
    }
    DropIdsOfObject(ms, objectId, Ids(q));
  }

  lemma {:induction false} WithoutHasNone(ms: seq<PendingMutation>, objectId: string)
    ensures Queued(Without(ms, objectId), objectId) == []
    ensures forall other :: other != objectId ==> Queued(Without(ms, objectId), other) == Queued(ms, other)
  {
    if ms != [] {
      WithoutHasNone(ms[1..], objectId);
      var rest := Without(ms[1..], objectId);
      if ms[0].objectId != objectId {
        assert ([ms[0]] + rest)[1..] == rest;
      }
    }
  }

  lemma {:induction false} QueuedOfConcat(xs: seq<PendingMutation>, ys: seq<PendingMutation>, objectId: string)
    ensures Queued(xs + ys, objectId) == Queued(xs, objectId) + Queued(ys, objectId)
  {
    if xs == [] {
      assert xs + ys == ys;
    } else {
      assert (xs + ys)[1..] == xs[1..] + ys;
      QueuedOfConcat(xs[1..], ys, objectId);
    }
  }

  // ---------------------------------------------------------------- operations on store values

  function PutObject(s: Store, o: StoredObject): Store {
    s.(objects := s.objects[o.objectId := o])
  }

  function PutBase(s: Store, id: string, revision: nat, e: Envelope): Store {
    s.(bases := s.bases[(id, revision) := e])
  }

  function BaseAt(s: Store, id: string, revision: nat): Option<Envelope> {
    if (id, revision) in s.bases then Some(s.bases[(id, revision)]) else None
  }

  function PruneBases(s: Store, id: string, olderThan: nat): Store {
    s.(bases := map k | k in s.bases && !(k.0 == id && k.1 < olderThan) :: s.bases[k])
  }

  function PutConflict(s: Store, c: ConflictRecord): Store {
    s.(conflicts := s.conflicts[c.conflictId := c])
  }

  function Resolve(s: Store, id: string, resolution: Option<Envelope>, at: string): Store {
    if id !in s.conflicts then s
    else
      var c := s.conflicts[id].(resolved := true, resolvedAt := Some(at));
      s.(conflicts := s.conflicts[id := if resolution.Some? then c.(candidateEnvelope := resolution) else c])
  }

  // ---------------------------------------------------------------- the mutable store

  class MemoryStorage {
    var objects: map<string, StoredObject>
    var mutations: seq<PendingMutation>
    var bases: map<(string, nat), Envelope>
    var cursor: nat
    var conflicts: map<string, ConflictRecord>

    constructor ()
      ensures Valid() && View() == Store(map[], [], map[], 0, map[])
    {
      objects, mutations, bases, cursor, conflicts := map[], [], map[], 0, map[];
    }

    ghost predicate Valid()
      reads this
    {
      DistinctIds(mutations)
    }

    ghost function View(): Store
      reads this
    {
      Store(objects, mutations, bases, cursor, conflicts)
    }

    method GetObject(id: string) returns (r: Option<StoredObject>)
      ensures r == if id in objects then Some(objects[id]) else None
    {
      r := if id in objects then Some(objects[id]) else None;
    }

    method Put(o: StoredObject)
      modifies this
      ensures View() == PutObject(old(View()), o)
    {
      objects := objects[o.objectId := o];
    }

    /** Appends the mutation, unless its id is already queued. */
    method Enqueue(m: PendingMutation) returns (r: Result<()>)
      requires Valid()
      modifies this
      ensures Valid()
      ensures r.Success? <==> m.mutationId !in Ids(old(mutations))
      ensures View() == if r.Success? then old(View()).(mutations := old(mutations) + [m]) else old(View())
    {
      var i := 0;
      while i < |mutations|
        invariant 0 <= i <= |mutations|
        invariant forall j :: 0 <= j < i ==> mutations[j].mutationId != m.mutationId
      {
        if mutations[i].mutationId == m.mutationId {
          return Failure(AlreadyQueued);
        }
        i := i + 1;
      }
      mutations := mutations + [m];
      r := Success(());
    }

    /** The first queued mutation with this id. */
    method GetMutation(id: string) returns (r: Option<PendingMutation>)
      ensures r.None? <==> id !in Ids(mutations)
      ensures r.Some? ==> r.value in mutations && r.value.mutationId == id
    {
      var i := 0;
      while i < |mutations|
        invariant 0 <= i <= |mutations|
        invariant forall j :: 0 <= j < i ==> mutations[j].mutationId != id
      {
        if mutations[i].mutationId == id {
          return Some(mutations[i]);
        }
        i := i + 1;
      }
      r := None;
    }

    method ListForObject(objectId: string) returns (r: seq<PendingMutation>)
      ensures r == Queued(mutations, objectId)
    {
      r := [];
      var i := 0;
      while i < |mutations|
        invariant 0 <= i <= |mutations|
        invariant r == Queued(mutations[..i], objectId)
      {
        assert mutations[..i + 1] == mutations[..i] + [mutations[i]];
        QueuedOfConcat(mutations[..i], [mutations[i]], objectId);
        if mutations[i].objectId == objectId {
          r := r + [mutations[i]];
        }
        i := i + 1;
      }
      assert mutations[..i] == mutations;
    }

    method Remove(id: string) returns (removed: bool)
      requires Valid()
      modifies this
      ensures Valid()
      ensures removed <==> id in Ids(old(mutations))
      ensures View() == old(View()).(mutations := DropIds(old(mutations), {id}))
    {
      var i := 0;
      while i < |mutations|
        invariant 0 <= i <= |mutations|
        invariant mutations == old(mutations) && View() == old(View())
        invariant forall j :: 0 <= j < i ==> mutations[j].mutationId != id
      {
        if mutations[i].mutationId == id {
          RemoveAtDropsId(mutations, i);
          DropIdsStaysDistinct(mutations, {id});
          mutations := mutations[..i] + mutations[i + 1..];
          return true;
        }
        i := i + 1;
      }
      DropIdsIsId(mutations, {id});
      removed := false;
    }

    /** The loop every resolution starts with: list the object's mutations, remove each by its id. */
    method RemoveAllFor(objectId: string)
      requires Valid()
      modifies this
      ensures Valid()
      ensures View() == old(View()).(mutations := Without(old(mutations), objectId))
    {
      var existing := ListForObject(objectId);
      ghost var before := mutations;
      var i := 0;
      DropIdsIsId(before, Ids(existing[..0]));
      while i < |existing|
        invariant 0 <= i <= |existing|
        invariant Valid()
        invariant View() == old(View()).(mutations := DropIds(before, Ids(existing[..i])))
      {
        DropNext(before, existing, i);
        var _ := Remove(existing[i].mutationId);
        i := i + 1;
      }
      assert existing[..i] == existing;
      DropQueuedIsWithout(before, objectId);
    }

    method UpdateStatus(id: string, status: MutationStatus, retries: nat) returns (r: Result<()>)
      requires Valid()
      modifies this
      ensures Valid()
      ensures r.Success? <==> id in Ids(old(mutations))
      ensures View() == old(View()).(mutations := WithStatus(old(mutations), id, status, retries))
    {
      var i := 0;
      while i < |mutations|
        invariant 0 <= i <= |mutations|
        invariant View() == old(View())
        invariant forall j :: 0 <= j < i ==> mutations[j].mutationId != id
      {
        if mutations[i].mutationId == id {
          StatusAt(mutations, i, status, retries);
          mutations := mutations[i := mutations[i].(status := status, retryCount := retries)];
          return Success(());
        }
        i := i + 1;
      }
      StatusOfAbsent(mutations, id, status, retries);
      r := Failure(NotQueued);
    }

    method GetBase(id: string, revision: nat) returns (r: Option<Envelope>)
      ensures r == BaseAt(View(), id, revision)
    {
      r := if (id, revision) in bases then Some(bases[(id, revision)]) else None;
    }

    method PutBaseVersion(id: string, revision: nat, e: Envelope)
      modifies this
      ensures View() == PutBase(old(View()), id, revision, e)
    {
      bases := bases[(id, revision) := e];
    }

    method PruneBaseVersions(id: string, olderThan: nat)
      modifies this
      ensures View() == PruneBases(old(View()), id, olderThan)
    {
      bases := map k | k in bases && !(k.0 == id && k.1 < olderThan) :: bases[k];
    }

    method PutRecord(c: ConflictRecord)
      modifies this
      ensures View() == PutConflict(old(View()), c)
    {
      conflicts := conflicts[c.conflictId := c];
    }

    method ResolveRecord(id: string, resolution: Option<Envelope>, at: string) returns (found: bool)
      modifies this
      ensures found <==> id in old(conflicts)
      ensures View() == Resolve(old(View()), id, resolution, at)
    {
      if id in conflicts {
        var c := conflicts[id].(resolved := true, resolvedAt := Some(at));
        if resolution.Some? {
          c := c.(candidateEnvelope := resolution);
        }
        conflicts := conflicts[id := c];
        found := true;
      } else {
        found := false;
      }
    }

    method SetCursor(c: nat)
      modifies this
      ensures View() == old(View()).(cursor := c)
    {
      cursor := c;
    }
  }

  lemma DropNext(ms: seq<PendingMutation>, existing: seq<PendingMutation>, i: nat)
    requires i < |existing|
    ensures DropIds(DropIds(ms, Ids(existing[..i])), {existing[i].mutationId}) == DropIds(ms, Ids(existing[..i + 1]))
  {
    DropIdsTwice(ms, Ids(existing[..i]), {existing[i].mutationId});
    IdsOfExtended(existing[..i], existing[i]);
    assert existing[..i + 1] == existing[..i] + [existing[i]];
  }

  lemma IdsOfExtended(ms: seq<PendingMutation>, m: PendingMutation)
    ensures Ids(ms + [m]) == Ids(ms) + {m.mutationId}
  {
    var xs := ms + [m];
    forall x | x in Ids(ms) + {m.mutationId} ensures x in Ids(xs) {
      if x == m.mutationId {
        assert xs[|ms|].mutationId == x;
      } else {
        var i :| 0 <= i < |ms| && ms[i].mutationId == x;
        assert xs[i].mutationId == x;
      }
    }
  }

  lemma {:induction false} StatusAt(ms: seq<PendingMutation>, i: nat, status: MutationStatus, retries: nat)
    requires i < |ms|
    requires forall j :: 0 <= j < i ==> ms[j].mutationId != ms[i].mutationId
    ensures WithStatus(ms, ms[i].mutationId, status, retries)
         == ms[i := ms[i].(status := status, retryCount := retries)]
    decreases i
  {
    if i > 0 {
      StatusAt(ms[1..], i - 1, status, retries);
    }
  }

  lemma {:induction false} StatusOfAbsent(ms: seq<PendingMutation>, id: string, status: MutationStatus, retries: nat)
    requires forall j :: 0 <= j < |ms| ==> ms[j].mutationId != id
    ensures WithStatus(ms, id, status, retries) == ms
  {
    if ms != [] {
      StatusOfAbsent(ms[1..], id, status, retries);
    }
  }

  /** A status update renames nothing: ids stay, and each entry keeps all but status and retry count. */
  lemma {:induction false} StatusKeepsTheRest(ms: seq<PendingMutation>, m: PendingMutation, status: MutationStatus,
                                              retries: nat)
    ensures |WithStatus(ms, m.mutationId, status, retries)| == |ms|
    ensures forall i :: 0 <= i < |ms| ==>
              var q := WithStatus(ms, m.mutationId, status, retries)[i];
              q == ms[i].(status := q.status, retryCount := q.retryCount)
    ensures Ids(WithStatus(ms, m.mutationId, status, retries)) == Ids(ms)
  {
    if ms != [] && ms[0].mutationId != m.mutationId {
      StatusKeepsTheRest(ms[1..], m, status, retries);
    }
    var ws := WithStatus(ms, m.mutationId, status, retries);
    assert |ws| == |ms|;
    assert forall i :: 0 <= i < |ms| ==> ws[i].mutationId == ms[i].mutationId;
  }

  lemma UniqueById(ms: seq<PendingMutation>, a: PendingMutation, b: PendingMutation)
    requires DistinctIds(ms) && a in ms && b in ms && a.mutationId == b.mutationId
    ensures a == b
  {}

  /** After a status update the queue holds `m` with that status. */
  lemma StatusedMember(ms: seq<PendingMutation>, m: PendingMutation, status: MutationStatus, retries: nat)
    returns (q: PendingMutation)
    requires m in ms
    ensures q in WithStatus(ms, m.mutationId, status, retries)
    ensures q == m.(status := q.status, retryCount := q.retryCount)
  {
    StatusKeepsTheRest(ms, m, status, retries);
    var i :| 0 <= i < |ms| && ms[i] == m;
    q := WithStatus(ms, m.mutationId, status, retries)[i];
  }
}
