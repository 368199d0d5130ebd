/**
 * The Worker's blob store: SQL tables that change in atomic batches and an object bucket that changes on its
 * own. `Tables` and the functions on it are the batches with their triggers; `World` adds the bucket, the puts
 * on their way to it, and the cleanup runs; a run is any interleaving of `Move`s.
 */
module Blobs {
  import opened Text

  type Bytes = seq<bv8>

  datatype Upload = Upload(account: string, blob: string, size: nat, expiresAt: nat)
  datatype Row = Row(key: string, size: nat)
  datatype Mark = Mark(forever: bool, nextAttempt: nat)
  datatype Usage = Usage(blobBytes: int, reservedBytes: int)

  datatype Tables = Tables(
    uploads: map<string, Upload>,
    blobs: map<(string, string), Row>,
    garbage: map<string, Mark>,
    accounts: map<string, Usage>)

  const RESERVATION_SECONDS: nat := 3600
  const RETRY_SECONDS: nat := 86400
  const BATCH_LIMIT: nat := 8

  // ---------------------------------------------------------------- the batches

  function Charge(t: Tables, account: string, blob: int, reserved: int): Tables {
    if account !in t.accounts then t
    else
      var u := t.accounts[account];
      t.(accounts := t.accounts[account := Usage(u.blobBytes + blob, u.reservedBytes + reserved)])
  }

  /** `INSERT OR IGNORE` of a cleanup row. */
  function Discard(t: Tables, key: string, forever: bool, now: nat): Tables {
    if key in t.garbage then t else t.(garbage := t.garbage[key := Mark(forever, now)])
  }

  function DropUpload(t: Tables, key: string): Tables {
    if key !in t.uploads then t
    else Charge(t.(uploads := t.uploads - {key}), t.uploads[key].account, 0, 0 - t.uploads[key].size)
  }

  predicate IsLive(t: Tables, key: string) {
    exists slot :: slot in t.blobs && t.blobs[slot].key == key
  }

  predicate HasRoom(t: Tables, account: string, size: nat, quota: nat) {
    account in t.accounts && t.accounts[account].blobBytes + t.accounts[account].reservedBytes + size <= quota
  }

  /** The reservation insert with its trigger; only when the quota guard holds. */
  function Reserved(t: Tables, key: string, account: string, blob: string, size: nat, now: nat): Tables {
    Charge(t.(uploads := t.uploads[key := Upload(account, blob, size, now + RESERVATION_SECONDS)]), account, 0, size)
  }

  /** Insert or replace the blobs row of an unexpired reservation; a replaced key becomes garbage. */
  function PointAt(t: Tables, key: string, now: nat): Tables {
    if key !in t.uploads || t.uploads[key].expiresAt <= now then t
    else
      var u := t.uploads[key];
      var slot := (u.account, u.blob);
      var pointed := t.(blobs := t.blobs[slot := Row(key, u.size)]);
      if slot in t.blobs then
        Discard(Charge(pointed, u.account, u.size - t.blobs[slot].size, 0), t.blobs[slot].key, false, now)
      else Charge(pointed, u.account, u.size, 0)
  }

  function Published(t: Tables, key: string, now: nat): Tables {
    var t1 := PointAt(t, key, now);
    if IsLive(t1, key) then DropUpload(t1, key) else t1
  }

  function Cancelled(t: Tables, key: string, now: nat): Tables {
    DropUpload(if key in t.uploads then Discard(t, key, true, now) else t, key)
  }

  function Deleted(t: Tables, account: string, blob: string, now: nat): Tables {
    var slot := (account, blob);
    if slot !in t.blobs then t
    else Discard(Charge(t.(blobs := t.blobs - {slot}), account, 0 - t.blobs[slot].size, 0), t.blobs[slot].key,
                 false, now)
  }

  /** First statement of the expiry batch: mark the selected reservations for cleanup. */
  function MarkAll(t: Tables, keys: seq<string>, now: nat): Tables {
    if keys == [] then t else Discard(MarkAll(t, keys[..|keys| - 1], now), keys[|keys| - 1], true, now)
  }

  /** Second statement: drop the selected reservations. */
  function DropAll(t: Tables, keys: seq<string>): Tables {
    if keys == [] then t else DropUpload(DropAll(t, keys[..|keys| - 1]), keys[|keys| - 1])
  }

  /** What `WHERE expires_at <= now ORDER BY expires_at LIMIT 8` may select. */
  ghost predicate Oldest(t: Tables, now: nat, keys: seq<string>) {
    && |keys| <= BATCH_LIMIT
    && (forall i, j :: 0 <= i < j < |keys| ==> keys[i] != keys[j])
    && (forall k :: k in keys ==> k in t.uploads && t.uploads[k].expiresAt <= now)
    && (forall k :: k in t.uploads && k !in keys && t.uploads[k].expiresAt <= now ==>
          |keys| == BATCH_LIMIT && forall i :: i in keys ==> t.uploads[i].expiresAt <= t.uploads[k].expiresAt)
  }

  /** After the bucket delete: a permanent row is rescheduled, any other removed. */
  function Swept(t: Tables, key: string, forever: bool, now: nat): Tables {
    if !forever then t.(garbage := t.garbage - {key})
    else if key in t.garbage then t.(garbage := t.garbage[key := Mark(t.garbage[key].forever, now + RETRY_SECONDS)])
    else t
  }

  /** A swept row is gone, or not due again for a day; all other rows are as they were. */
  lemma SweptRow(t: Tables, key: string, forever: bool, now: nat, other: string)
    ensures var t' := Swept(t, key, forever, now);
            && (!forever ==> key !in t'.garbage)
            && (forever && key in t.garbage ==> key in t'.garbage && t'.garbage[key].nextAttempt == now + 86400)
            && (other != key ==> (other in t'.garbage <==> other in t.garbage))
            && (other != key && other in t.garbage ==> t'.garbage[other] == t.garbage[other])
            && t'.uploads == t.uploads && t'.blobs == t.blobs && t'.accounts == t.accounts
  {}

  // ---------------------------------------------------------------- the world

  /**
   * `data` gives each key ever generated the bytes uploaded under it. A put is `issued` once; while `inFlight` it
   * may land, any number of times and however late; once `acked` its uploader knows it landed and it cannot land
   * again. `cleaning` are the rows read by cleanup runs, `cleaned` those whose bucket delete has been done.
   */
  datatype World = World(
    t: Tables,
    bucket: map<string, Bytes>,
    now: nat,
    data: map<string, Bytes>,
    issued: set<string>,
    inFlight: set<string>,
    landed: set<string>,
    acked: set<string>,
    ever: set<string>,
    cleaning: map<string, bool>,
    cleaned: set<string>)

  datatype Move =
    | Tick(seconds: nat)
    | Reserve(key: string, account: string, blob: string, bytes: Bytes, quota: nat)
    | Issue(key: string)
    | Land(key: string)
    | Acknowledge(key: string)
    | Publish(key: string)
    | Cancel(key: string)
    | DeleteBlob(account: string, blob: string)
    | Expire(keys: seq<string>)
    | Select(key: string)
    | Erase(key: string)
    | Finish(key: string)

  ghost predicate Allowed(x: World, m: Move) {
    match m
    case Tick(_) => true
    case Reserve(key, account, _, bytes, quota) => key !in x.data && HasRoom(x.t, account, |bytes|, quota)
    case Issue(key) => key in x.data && key !in x.issued
    case Land(key) => key in x.inFlight
    case Acknowledge(key) => key in x.inFlight && key in x.landed
    case Publish(key) => key in x.acked
    case Cancel(key) => key !in x.acked
    case DeleteBlob(_, _) => true
    case Expire(keys) => Oldest(x.t, x.now, keys)
    case Select(key) => key in x.t.garbage && x.t.garbage[key].nextAttempt <= x.now
    case Erase(key) => key in x.cleaning
    case Finish(key) => key in x.cleaned
  }

  function WithTables(x: World, t: Tables): World {
    x.(t := t, ever := x.ever + t.garbage.Keys)
  }

  function Apply(x: World, m: Move): World {
    match m
    case Tick(seconds) => x.(now := x.now + seconds)
    case Reserve(key, account, blob, bytes, _) =>
      WithTables(x, Reserved(x.t, key, account, blob, |bytes|, x.now)).(data := x.data[key := bytes])
    case Issue(key) => x.(issued := x.issued + {key}, inFlight := x.inFlight + {key})
    case Land(key) =>
      if key in x.data then x.(bucket := x.bucket[key := x.data[key]], landed := x.landed + {key}) else x
    case Acknowledge(key) => x.(inFlight := x.inFlight - {key}, acked := x.acked + {key})
    case Publish(key) => WithTables(x, Published(x.t, key, x.now))
    case Cancel(key) => WithTables(x, Cancelled(x.t, key, x.now))
    case DeleteBlob(account, blob) => WithTables(x, Deleted(x.t, account, blob, x.now))
    case Expire(keys) => WithTables(x, DropAll(MarkAll(x.t, keys, x.now), keys))
    case Select(key) =>
      if key in x.t.garbage then x.(cleaning := x.cleaning[key := x.t.garbage[key].forever]) else x
    case Erase(key) => x.(bucket := x.bucket - {key}, cleaned := x.cleaned + {key})
    case Finish(key) =>
      if key in x.cleaning then WithTables(x, Swept(x.t, key, x.cleaning[key], x.now)) else x
  }

  // ---------------------------------------------------------------- the invariant

  /** No key is in two of the three tables, and no two rows share one. */
  ghost predicate Separate(t: Tables) {
    && (forall k :: k in t.uploads ==> k !in t.garbage)
    && (forall s :: s in t.blobs ==> t.blobs[s].key !in t.uploads && t.blobs[s].key !in t.garbage)
    && (forall a, b :: a in t.blobs && b in t.blobs && t.blobs[a].key == t.blobs[b].key ==> a == b)
  }

  /** Garbage stays out of the reservations and the rows for good. */
  ghost predicate Retired(x: World) {
    && x.t.garbage.Keys <= x.ever
    && (forall k :: k in x.ever ==> k in x.data && k !in x.t.uploads)
    && (forall s :: s in x.t.blobs ==> x.t.blobs[s].key !in x.ever)
  }

  ghost predicate PutsFit(x: World) {
    && x.inFlight <= x.issued && x.issued <= x.data.Keys && x.acked <= x.landed <= x.issued
    && (forall k :: k in x.inFlight ==> k !in x.acked)
  }

  /** Rows were published after their put was acknowledged, with its size. */
  ghost predicate RowsFit(x: World) {
    && (forall k :: k in x.t.uploads ==> k in x.data && x.t.uploads[k].size == |x.data[k]|)
    && (forall s :: s in x.t.blobs ==>
          x.t.blobs[s].key in x.acked && x.t.blobs[s].key in x.data && x.t.blobs[s].size == |x.data[x.t.blobs[s].key]|)
  }

  /** The bucket only holds uploaded bytes, and holds every landed put until its key is garbage. */
  ghost predicate BucketFits(x: World) {
    && (forall k :: k in x.bucket ==> k in x.landed && k in x.data && x.bucket[k] == x.data[k])
    && (forall k :: k in x.landed && k !in x.ever ==> k in x.bucket)
  }

  ghost predicate Tracked(t: Tables, k: string) {
    k in t.uploads || k in t.garbage || IsLive(t, k)
  }

  /** A put that might still land has a reservation or a permanent cleanup row; stored bytes are tracked. */
  ghost predicate NothingLeaks(x: World) {
    && (forall k :: k in x.data && k !in x.acked ==> k in x.t.uploads || (k in x.t.garbage && x.t.garbage[k].forever))
    && (forall k :: k in x.bucket && k in x.acked ==> Tracked(x.t, k))
  }

  /** Rows that cleanup may remove belong to acknowledged puts; once erased, their bytes are gone. */
  ghost predicate CleaningFits(x: World) {
    && (forall k :: k in x.t.garbage && !x.t.garbage[k].forever ==> k in x.acked)
    && (forall k :: k in x.cleaning ==> k in x.ever && (!x.cleaning[k] ==> k in x.acked))
    && (forall k :: k in x.cleaning && k in x.t.garbage ==> x.cleaning[k] == x.t.garbage[k].forever)
    && x.cleaned <= x.cleaning.Keys
    && (forall k :: k in x.cleaned && !x.cleaning[k] ==> k !in x.bucket)
  }

  ghost predicate Inv(x: World) {
    Separate(x.t) && Retired(x) && PutsFit(x) && RowsFit(x) && BucketFits(x) && NothingLeaks(x) && CleaningFits(x)
  }

  ghost predicate Fresh(x: World) {
    x.t.uploads == map[] && x.t.blobs == map[] && x.t.garbage == map[] && x.bucket == map[] && x.data == map[]
    && x.issued == x.inFlight == x.landed == x.acked == x.ever == x.cleaned == {} && x.cleaning == map[]
  }

  lemma FreshIsInv(x: World)
    requires Fresh(x)
    ensures Inv(x)
  {}

  // What the batches do to the three tables.

  lemma PublishedTables(t: Tables, key: string, now: nat)
    requires Separate(t)
    ensures var t' := Published(t, key, now);
            if key in t.uploads && t.uploads[key].expiresAt > now then
              var slot := (t.uploads[key].account, t.uploads[key].blob);
              && t'.uploads == t.uploads - {key}
              && t'.blobs == t.blobs[slot := Row(key, t.uploads[key].size)]
              && t'.garbage == (if slot in t.blobs then t.garbage[t.blobs[slot].key := Mark(false, now)] else t.garbage)
            else t' == t
  {
    if key in t.uploads && t.uploads[key].expiresAt > now {
      var slot := (t.uploads[key].account, t.uploads[key].blob);
      var t1 := PointAt(t, key, now);
      assert slot in t1.blobs && t1.blobs[slot].key == key;
      assert IsLive(t1, key);
    }
  }

  lemma CancelledTables(t: Tables, key: string, now: nat)
    requires Separate(t)
    ensures var t' := Cancelled(t, key, now);
            if key in t.uploads then
              && t'.uploads == t.uploads - {key} && t'.blobs == t.blobs
              && t'.garbage == t.garbage[key := Mark(true, now)]
            else t' == t
  {}

  lemma DeletedTables(t: Tables, account: string, blob: string, now: nat)
    requires Separate(t)
    ensures var t', slot := Deleted(t, account, blob, now), (account, blob);
            if slot in t.blobs then
              && t'.uploads == t.uploads && t'.blobs == t.blobs - {slot}
              && t'.garbage == t.garbage[t.blobs[slot].key := Mark(false, now)]
            else t' == t
  {}

  lemma {:induction false} MarkAllTables(t: Tables, keys: seq<string>, now: nat)
    ensures var t' := MarkAll(t, keys, now);
            && t'.uploads == t.uploads && t'.blobs == t.blobs && t'.accounts == t.accounts
            && (forall k :: k in t'.garbage <==> k in t.garbage || k in keys)
            && (forall k :: k in t'.garbage ==>
                  t'.garbage[k] == if k in t.garbage then t.garbage[k] else Mark(true, now))
  {
    if keys != [] {
      MarkAllTables(t, keys[..|keys| - 1], now);
      assert keys == keys[..|keys| - 1] + [keys[|keys| - 1]];
    }
  }

  lemma {:induction false} DropAllTables(t: Tables, keys: seq<string>)
    ensures var t' := DropAll(t, keys);
            && t'.blobs == t.blobs && t'.garbage == t.garbage
            && (forall k :: k in t'.uploads <==> k in t.uploads && k !in keys)
            && (forall k :: k in t'.uploads ==> t'.uploads[k] == t.uploads[k])
  {
    if keys != [] {
      DropAllTables(t, keys[..|keys| - 1]);
      assert keys == keys[..|keys| - 1] + [keys[|keys| - 1]];
    }
  }

  // ---------------------------------------------------------------- every move keeps the invariant

  lemma LiveStays(t: Tables, t': Tables, k: string)
    requires IsLive(t, k) && forall s :: s in t.blobs ==> s in t'.blobs && t'.blobs[s] == t.blobs[s]
    ensures IsLive(t', k)
  {
    var s :| s in t.blobs && t.blobs[s].key == k;
    assert s in t'.blobs && t'.blobs[s].key == k;
  }

  lemma ReserveKeepsInv(x: World, m: Move)
    requires Inv(x) && m.Reserve? && Allowed(x, m)
    ensures Inv(Apply(x, m))
  {
    var x' := Apply(x, m);
    forall k | k in x'.bucket && k in x'.acked ensures Tracked(x'.t, k) {
      if IsLive(x.t, k) {
        LiveStays(x.t, x'.t, k);
      }
    }
  }

  lemma IssueKeepsInv(x: World, key: string)
    requires Inv(x) && Allowed(x, Issue(key))
    ensures Inv(Apply(x, Issue(key)))
  {}

  lemma LandKeepsInv(x: World, key: string)
    requires Inv(x) && Allowed(x, Land(key))
    ensures Inv(Apply(x, Land(key)))
  {}

  lemma AcknowledgeKeepsInv(x: World, key: string)
    requires Inv(x) && Allowed(x, Acknowledge(key))
    ensures Inv(Apply(x, Acknowledge(key)))
  {
    assert key in x.data && key !in x.acked;
    assert Tracked(x.t, key);
  }

  lemma SelectKeepsInv(x: World, key: string)
    requires Inv(x) && Allowed(x, Select(key))
    ensures Inv(Apply(x, Select(key)))
  {}

  lemma EraseKeepsInv(x: World, key: string)
    requires Inv(x) && Allowed(x, Erase(key))
    ensures Inv(Apply(x, Erase(key)))
  {}

  lemma PublishKeepsTables(x: World, key: string)
    requires Inv(x) && Allowed(x, Publish(key))
    ensures Separate(Apply(x, Publish(key)).t) && Retired(Apply(x, Publish(key)))
  {
    PublishedTables(x.t, key, x.now);
  }

  lemma PublishKeepsRows(x: World, key: string)
    requires Inv(x) && Allowed(x, Publish(key))
    ensures PutsFit(Apply(x, Publish(key))) && RowsFit(Apply(x, Publish(key))) && BucketFits(Apply(x, Publish(key)))
  {
    PublishedTables(x.t, key, x.now);
  }

  lemma PublishKeepsTracks(x: World, key: string)
    requires Inv(x) && Allowed(x, Publish(key))
    ensures NothingLeaks(Apply(x, Publish(key)))
  {
    var x' := Apply(x, Publish(key));
    PublishedTables(x.t, key, x.now);
    if key in x.t.uploads && x.t.uploads[key].expiresAt > x.now {
      var slot := (x.t.uploads[key].account, x.t.uploads[key].blob);
      forall k | k in x'.bucket && k in x'.acked ensures Tracked(x'.t, k) {
        if k == key {
          assert slot in x'.t.blobs && x'.t.blobs[slot].key == key;
        } else if IsLive(x.t, k) {
          var s :| s in x.t.blobs && x.t.blobs[s].key == k;
          assert s != slot ==> s in x'.t.blobs && x'.t.blobs[s].key == k;
        }
      }
    }
  }

  lemma PublishKeepsCleaning(x: World, key: string)
    requires Inv(x) && Allowed(x, Publish(key))
    ensures CleaningFits(Apply(x, Publish(key)))
  {
    PublishedTables(x.t, key, x.now);
  }

  lemma PublishKeepsInv(x: World, key: string)
    requires Inv(x) && Allowed(x, Publish(key))
    ensures Inv(Apply(x, Publish(key)))
  {
    PublishKeepsTables(x, key);
    PublishKeepsRows(x, key);
    PublishKeepsTracks(x, key);
    PublishKeepsCleaning(x, key);
  }

  lemma CancelKeepsInv(x: World, key: string)
    requires Inv(x) && Allowed(x, Cancel(key))
    ensures Inv(Apply(x, Cancel(key)))
  {
    var x' := Apply(x, Cancel(key));
    CancelledTables(x.t, key, x.now);
    forall k | k in x'.bucket && k in x'.acked ensures Tracked(x'.t, k) {
      if IsLive(x.t, k) {
        LiveStays(x.t, x'.t, k);
      }
    }
  }

  lemma DeleteKeepsTables(x: World, account: string, blob: string)
    requires Inv(x)
    ensures Separate(Apply(x, DeleteBlob(account, blob)).t) && Retired(Apply(x, DeleteBlob(account, blob)))
  {
    DeletedTables(x.t, account, blob, x.now);
  }

  lemma DeleteKeepsRows(x: World, account: string, blob: string)
    requires Inv(x)
    ensures PutsFit(Apply(x, DeleteBlob(account, blob))) && RowsFit(Apply(x, DeleteBlob(account, blob)))
            && BucketFits(Apply(x, DeleteBlob(account, blob)))
  {
    DeletedTables(x.t, account, blob, x.now);
  }

  lemma DeleteKeepsTracks(x: World, account: string, blob: string)
    requires Inv(x)
    ensures NothingLeaks(Apply(x, DeleteBlob(account, blob)))
  {
    var x' := Apply(x, DeleteBlob(account, blob));
    DeletedTables(x.t, account, blob, x.now);
    var slot := (account, blob);
    if slot in x.t.blobs {
      forall k | k in x'.bucket && k in x'.acked ensures Tracked(x'.t, k) {
        if IsLive(x.t, k) {
          var s :| s in x.t.blobs && x.t.blobs[s].key == k;
          assert s != slot ==> s in x'.t.blobs && x'.t.blobs[s].key == k;
        }
      }
    }
  }

  lemma DeleteKeepsCleaning(x: World, account: string, blob: string)
    requires Inv(x)
    ensures CleaningFits(Apply(x, DeleteBlob(account, blob)))
  {
    DeletedTables(x.t, account, blob, x.now);
  }

  lemma DeleteKeepsInv(x: World, account: string, blob: string)
    requires Inv(x)
    ensures Inv(Apply(x, DeleteBlob(account, blob)))
  {
    DeleteKeepsTables(x, account, blob);
    DeleteKeepsRows(x, account, blob);
    DeleteKeepsTracks(x, account, blob);
    DeleteKeepsCleaning(x, account, blob);
  }

  /** The expiry batch in general: `marked` by the first statement, `dropped` by the second. */
  function ExpiryBatch(x: World, marked: seq<string>, dropped: seq<string>): World {
    WithTables(x, DropAll(MarkAll(x.t, marked, x.now), dropped))
  }

  lemma ExpiryKeepsTables(x: World, keys: seq<string>)
    requires Inv(x) && forall k :: k in keys ==> k in x.t.uploads
    ensures Separate(ExpiryBatch(x, keys, keys).t) && Retired(ExpiryBatch(x, keys, keys))
  {
    MarkAllTables(x.t, keys, x.now);
    DropAllTables(MarkAll(x.t, keys, x.now), keys);
  }

  lemma ExpiryKeepsRows(x: World, keys: seq<string>)
    requires Inv(x) && forall k :: k in keys ==> k in x.t.uploads
    ensures PutsFit(ExpiryBatch(x, keys, keys)) && RowsFit(ExpiryBatch(x, keys, keys))
            && BucketFits(ExpiryBatch(x, keys, keys))
  {
    MarkAllTables(x.t, keys, x.now);
    DropAllTables(MarkAll(x.t, keys, x.now), keys);
  }

  lemma ExpiryKeepsTracks(x: World, keys: seq<string>)
    requires Inv(x) && forall k :: k in keys ==> k in x.t.uploads
    ensures NothingLeaks(ExpiryBatch(x, keys, keys))
  {
    var x' := ExpiryBatch(x, keys, keys);
    MarkAllTables(x.t, keys, x.now);
    DropAllTables(MarkAll(x.t, keys, x.now), keys);
    forall k | k in x'.bucket && k in x'.acked ensures Tracked(x'.t, k) {
      if IsLive(x.t, k) {
        LiveStays(x.t, x'.t, k);
      }
    }
  }

  lemma ExpiryKeepsCleaning(x: World, keys: seq<string>)
    requires Inv(x) && forall k :: k in keys ==> k in x.t.uploads
    ensures CleaningFits(ExpiryBatch(x, keys, keys))
  {
    MarkAllTables(x.t, keys, x.now);
    DropAllTables(MarkAll(x.t, keys, x.now), keys);
  }

  lemma ExpiryKeepsInv(x: World, keys: seq<string>)
    requires Inv(x) && forall k :: k in keys ==> k in x.t.uploads
    ensures Inv(ExpiryBatch(x, keys, keys))
  {
    ExpiryKeepsTables(x, keys);
    ExpiryKeepsRows(x, keys);
    ExpiryKeepsTracks(x, keys);
    ExpiryKeepsCleaning(x, keys);
  }

  lemma FinishKeepsTables(x: World, key: string)
    requires Inv(x) && Allowed(x, Finish(key))
    ensures Separate(Apply(x, Finish(key)).t) && Retired(Apply(x, Finish(key)))
  {
    assert key in x.cleaning;
  }

  lemma FinishKeepsRows(x: World, key: string)
    requires Inv(x) && Allowed(x, Finish(key))
    ensures PutsFit(Apply(x, Finish(key))) && RowsFit(Apply(x, Finish(key))) && BucketFits(Apply(x, Finish(key)))
  {
    assert key in x.cleaning;
  }

  lemma FinishKeepsTracks(x: World, key: string)
    requires Inv(x) && Allowed(x, Finish(key))
    ensures NothingLeaks(Apply(x, Finish(key)))
  {
    var x' := Apply(x, Finish(key));
    assert key in x.cleaning;
    forall k | k in x'.bucket && k in x'.acked ensures Tracked(x'.t, k) {
      if IsLive(x.t, k) {
        LiveStays(x.t, x'.t, k);
      }
    }
  }

  lemma FinishKeepsCleaning(x: World, key: string)
    requires Inv(x) && Allowed(x, Finish(key))
    ensures CleaningFits(Apply(x, Finish(key)))
  {
    assert key in x.cleaning;
  }

  lemma FinishKeepsInv(x: World, key: string)
    requires Inv(x) && Allowed(x, Finish(key))
    ensures Inv(Apply(x, Finish(key)))
  {
    FinishKeepsTables(x, key);
    FinishKeepsRows(x, key);
    FinishKeepsTracks(x, key);
    FinishKeepsCleaning(x, key);
  }

  lemma MoveKeepsInv(x: World, m: Move)
    requires Inv(x) && Allowed(x, m)
    ensures Inv(Apply(x, m))
  {
    match m
    case Reserve(_, _, _, _, _) => ReserveKeepsInv(x, m);
    case Publish(key) => PublishKeepsInv(x, key);
    case Cancel(key) => CancelKeepsInv(x, key);
    case DeleteBlob(account, blob) => DeleteKeepsInv(x, account, blob);
    case Expire(keys) => ExpiryKeepsInv(x, keys);
    case Finish(key) => FinishKeepsInv(x, key);
    case Issue(key) => IssueKeepsInv(x, key);
    case Land(key) => LandKeepsInv(x, key);
    case Acknowledge(key) => AcknowledgeKeepsInv(x, key);
    case Select(key) => SelectKeepsInv(x, key);
    case Erase(key) => EraseKeepsInv(x, key);
    case Tick(_) =>
  }

  function ApplyAll(x: World, moves: seq<Move>): World
    decreases |moves|
  {
    if moves == [] then x else ApplyAll(Apply(x, moves[0]), moves[1..])
  }

  ghost predicate AllAllowed(x: World, moves: seq<Move>)
    decreases |moves|
  {
    moves != [] ==> Allowed(x, moves[0]) && AllAllowed(Apply(x, moves[0]), moves[1..])
  }

  lemma {:induction false} RunKeepsInv(x: World, moves: seq<Move>)
    requires Inv(x) && AllAllowed(x, moves)
    ensures Inv(ApplyAll(x, moves)) && x.ever <= ApplyAll(x, moves).ever
    decreases |moves|
  {
    if moves != [] {
      MoveKeepsInv(x, moves[0]);
      RunKeepsInv(Apply(x, moves[0]), moves[1..]);
    }
  }

  /** In every reachable state each published row names a key whose uploaded bytes are in the bucket. */
  lemma PublishedBytesAreStored(x: World, moves: seq<Move>, slot: (string, string))
    requires Fresh(x) && AllAllowed(x, moves)
    requires slot in ApplyAll(x, moves).t.blobs
    ensures var end := ApplyAll(x, moves);
            var row := end.t.blobs[slot];
            && row.key in end.bucket && row.key in end.data
            && end.bucket[row.key] == end.data[row.key] && row.size == |end.bucket[row.key]|
  {
    FreshIsInv(x);
    RunKeepsInv(x, moves);
  }

  /** A key that has been garbage at some point of a run is never reserved or live at any later point. */
  lemma GarbageNeverComesBack(x: World, before: seq<Move>, after: seq<Move>, key: string)
    requires Fresh(x) && AllAllowed(x, before) && AllAllowed(ApplyAll(x, before), after)
    requires key in ApplyAll(x, before).t.garbage
    ensures var end := ApplyAll(ApplyAll(x, before), after);
            key !in end.t.uploads && !IsLive(end.t, key)
  {
    FreshIsInv(x);
    RunKeepsInv(x, before);
    RunKeepsInv(ApplyAll(x, before), after);
  }

  /** No stored object leaks: every key in the bucket is live, reserved or marked for cleanup, however late its put. */
  lemma NoStoredObjectLeaks(x: World, moves: seq<Move>, key: string)
    requires Fresh(x) && AllAllowed(x, moves) && key in ApplyAll(x, moves).bucket
    ensures Tracked(ApplyAll(x, moves).t, key)
  {
    FreshIsInv(x);
    RunKeepsInv(x, moves);
    assert key in ApplyAll(x, moves).data;
  }

  /**
   * The expiry batch keeps the invariant exactly when its two statements select the same reservations. When they
   * do, in terms of the table and the clock, is what `ExpiryIsSafeIff` says.
   */
  lemma ExpiryNeedsOneSelection(x: World, marked: seq<string>, dropped: seq<string>)
    requires Inv(x)
    requires forall k :: k in marked || k in dropped ==> k in x.t.uploads
    ensures Inv(ExpiryBatch(x, marked, dropped)) <==> (forall k :: k in marked <==> k in dropped)
  {
    var x' := ExpiryBatch(x, marked, dropped);
    MarkAllTables(x.t, marked, x.now);
    DropAllTables(MarkAll(x.t, marked, x.now), dropped);
    if forall k :: k in marked <==> k in dropped {
      ExpiryKeepsInv(x, marked);
      MarkAllTables(x.t, marked, x.now);
      DropAllTables(MarkAll(x.t, marked, x.now), marked);
      ExpirySetwise(x, marked, dropped);
    } else if k :| k in marked && k !in dropped {
      assert k in x'.t.uploads && k in x'.t.garbage;
    } else {
      var k :| k in dropped && k !in marked;
      DroppedUnmarkedIsLost(x, marked, dropped, k);
    }
  }

  lemma DroppedUnmarkedIsLost(x: World, marked: seq<string>, dropped: seq<string>, k: string)
    requires Inv(x) && k in x.t.uploads && k in dropped && k !in marked
    ensures !Tracked(ExpiryBatch(x, marked, dropped).t, k)
    ensures !Inv(ExpiryBatch(x, marked, dropped))
  {
    var x' := ExpiryBatch(x, marked, dropped);
    MarkAllTables(x.t, marked, x.now);
    DropAllTables(MarkAll(x.t, marked, x.now), dropped);
    assert k in x'.data && k !in x'.ever;
    if k in x.acked {
      assert k in x.bucket;
    }
  }

  lemma ExpirySetwise(x: World, marked: seq<string>, dropped: seq<string>)
    requires Inv(ExpiryBatch(x, marked, marked)) && forall k :: k in marked <==> k in dropped
    ensures Inv(ExpiryBatch(x, marked, dropped))
  {
    var a, b := ExpiryBatch(x, marked, marked), ExpiryBatch(x, marked, dropped);
    DropAllTables(MarkAll(x.t, marked, x.now), marked);
    DropAllTables(MarkAll(x.t, marked, x.now), dropped);
    assert a.t.uploads == b.t.uploads && a.t.blobs == b.t.blobs && a.t.garbage == b.t.garbage;
    forall k | k in b.bucket && k in b.acked ensures Tracked(b.t, k) {
      assert Tracked(a.t, k);
    }
  }

  // The same condition in terms of the table and the two clock readings.

  predicate IsExpired(t: Tables, now: nat, k: string) {
    k in t.uploads && t.uploads[k].expiresAt <= now
  }

  ghost predicate Distinct(keys: seq<string>) {
    forall i, j :: 0 <= i < j < |keys| ==> keys[i] != keys[j]
  }

  lemma {:induction false} DistinctFit(keys: seq<string>, bound: set<string>)
    requires Distinct(keys) && forall k :: k in keys ==> k in bound
    ensures |keys| <= |bound|
  {
    if keys != [] {
      DistinctFit(keys[1..], bound - {keys[0]});
    }
  }

  lemma {:induction false} FewerThanPlaces(keys: seq<string>)
    ensures |set k | k in keys| <= |keys|
  {
    if keys != [] {
      FewerThanPlaces(keys[1..]);
      assert (set k | k in keys) == (set k | k in keys[1..]) + {keys[0]};
    }
  }

  /** Pigeonhole: distinct keys that all occur among `others` are no more than these, and one less if one is spared. */
  lemma NoMoreThan(keys: seq<string>, others: seq<string>)
    requires Distinct(keys) && forall k :: k in keys ==> k in others
    ensures |keys| <= |others|
    ensures forall k :: k in others && k !in keys ==> |keys| < |others|
  {
    var bound := set k | k in others;
    FewerThanPlaces(others);
    DistinctFit(keys, bound);
    forall k | k in others && k !in keys ensures |keys| < |others| {
      DistinctFit(keys, bound - {k});
    }
  }

  /**
   * The second statement can only take what the first one took: whatever else has expired by its clock reading
   * comes after a full selection, strictly.
   */
  ghost predicate Settled(t: Tables, marked: seq<string>, second: nat) {
    forall k :: IsExpired(t, second, k) && k !in marked ==>
      && |marked| == BATCH_LIMIT
      && forall i :: i in marked && i in t.uploads ==> t.uploads[i].expiresAt < t.uploads[k].expiresAt
  }

  lemma SettledSelectsTheSame(t: Tables, marked: seq<string>, dropped: seq<string>, first: nat, second: nat)
    requires first <= second && Oldest(t, first, marked) && Oldest(t, second, dropped) && Settled(t, marked, second)
    ensures forall k :: k in marked <==> k in dropped
  {
    if k :| k in marked && k !in dropped {
      assert IsExpired(t, second, k);
      assert forall d :: d in dropped ==> IsExpired(t, second, d) && d in marked;
      NoMoreThan(dropped, marked);
    } else if k :| k in dropped && k !in marked {
      assert IsExpired(t, second, k);
      assert forall i :: i in marked ==> IsExpired(t, second, i) && i in dropped;
      NoMoreThan(marked, dropped);
    }
  }

  // A selection exists at every clock reading.

  lemma {:induction false} EarliestOf(t: Tables, keys: set<string>) returns (k: string)
    requires keys != {} && keys <= t.uploads.Keys
    ensures k in keys && forall i :: i in keys ==> t.uploads[k].expiresAt <= t.uploads[i].expiresAt
    decreases |keys|
  {
    k :| k in keys;
    if keys != {k} {
      var earliest := EarliestOf(t, keys - {k});
      if t.uploads[earliest].expiresAt <= t.uploads[k].expiresAt {
        k := earliest;
      }
    }
  }

  lemma {:induction false} SelectionExists(t: Tables, now: nat, n: nat) returns (keys: seq<string>)
    requires n <= BATCH_LIMIT
    ensures |keys| <= n && Distinct(keys) && forall k :: k in keys ==> IsExpired(t, now, k)
    ensures forall k :: IsExpired(t, now, k) && k !in keys ==>
              && |keys| == n
              && forall i :: i in keys && i in t.uploads ==> t.uploads[i].expiresAt <= t.uploads[k].expiresAt
  {
    keys := [];
    if n > 0 {
      keys := SelectionExists(t, now, n - 1);
      var rest := set k | k in t.uploads && IsExpired(t, now, k) && k !in keys;
      assert forall k :: IsExpired(t, now, k) && k !in keys ==> k in rest;
      if rest != {} {
        var next := EarliestOf(t, rest);
        assert |keys| == n - 1;
        var grown := keys + [next];
        assert forall k :: k in grown <==> k in keys || k == next;
        forall k | IsExpired(t, now, k) && k !in grown
          ensures forall i :: i in grown && i in t.uploads ==> t.uploads[i].expiresAt <= t.uploads[k].expiresAt
        {
          assert k in rest;
        }
        keys := grown;
      }
    }
  }

  /** Short of the limit the first selection is everything expired, so anything else expired later goes unmarked. */
  lemma ShortSelectionIsMissed(t: Tables, marked: seq<string>, dropped: seq<string>, second: nat, k: string)
    requires Oldest(t, second, dropped) && IsExpired(t, second, k) && k !in marked && |marked| < BATCH_LIMIT
    ensures exists d :: d in dropped && d !in marked
  {
    if k !in dropped && forall d :: d in dropped ==> d in marked {
      NoMoreThan(dropped, marked);
    }
  }

  /** At the limit a tie lets the second statement take another reservation in place of a marked one. */
  lemma TieAllowsExchange(t: Tables, marked: seq<string>, first: nat, second: nat, i: nat, k: string)
    requires first <= second && Oldest(t, first, marked) && |marked| == BATCH_LIMIT && i < |marked|
    requires IsExpired(t, second, k) && k !in marked && t.uploads[k].expiresAt <= t.uploads[marked[i]].expiresAt
    ensures Oldest(t, second, marked[i := k])
  {
    var dropped := marked[i := k];
    assert forall d :: d in dropped ==> d == k || d in marked;
    assert t.uploads[k].expiresAt == t.uploads[marked[i]].expiresAt;
    forall j | j in t.uploads && j !in dropped && t.uploads[j].expiresAt <= second
      ensures forall d :: d in dropped ==> t.uploads[d].expiresAt <= t.uploads[j].expiresAt
    {
      assert forall at :: 0 <= at < |marked| && at != i ==> dropped[at] == marked[at];
      assert j in marked ==> j == marked[i];
    }
  }

  /**
   * The expiry batch over the table and its two clock readings: after the first statement marked its selection at
   * `first`, every selection the second may make at `second` keeps the invariant exactly when the marked ones are
   * the only choice left. Below the limit that means nothing expires in between; at the limit, that the last
   * marked reservation ties with no other.
   */
  lemma ExpiryIsSafeIff(x: World, marked: seq<string>, first: nat, second: nat)
    requires Inv(x) && first <= second && Oldest(x.t, first, marked)
    ensures (forall dropped :: Oldest(x.t, second, dropped) ==> Inv(ExpiryBatch(x, marked, dropped)))
              <==> Settled(x.t, marked, second)
  {
    if Settled(x.t, marked, second) {
      forall dropped | Oldest(x.t, second, dropped) ensures Inv(ExpiryBatch(x, marked, dropped)) {
        SettledSelectsTheSame(x.t, marked, dropped, first, second);
        ExpiryNeedsOneSelection(x, marked, dropped);
      }
    } else {
      var dropped := UnsettledLeaks(x, marked, first, second);
      ExpiryNeedsOneSelection(x, marked, dropped);
    }
  }

  lemma UnsettledLeaks(x: World, marked: seq<string>, first: nat, second: nat) returns (dropped: seq<string>)
    requires first <= second && Oldest(x.t, first, marked) && !Settled(x.t, marked, second)
    ensures Oldest(x.t, second, dropped) && exists d :: d in dropped && d !in marked
  {
    var k :| IsExpired(x.t, second, k) && k !in marked
             && !(|marked| == BATCH_LIMIT
                  && forall i :: i in marked && i in x.t.uploads ==>
                       x.t.uploads[i].expiresAt < x.t.uploads[k].expiresAt);
    if |marked| < BATCH_LIMIT {
      dropped := SelectionExists(x.t, second, BATCH_LIMIT);
      ShortSelectionIsMissed(x.t, marked, dropped, second, k);
    } else {
      var i :| 0 <= i < |marked| && x.t.uploads[k].expiresAt <= x.t.uploads[marked[i]].expiresAt;
      TieAllowsExchange(x.t, marked, first, second, i, k);
      dropped := marked[i := k];
      assert dropped[i] == k;
    }
  }

  /** Below the limit, whatever the second statement selects: safe exactly when no reservation expires in between. */
  lemma ExpiryBelowTheLimitIff(x: World, marked: seq<string>, dropped: seq<string>, first: nat, second: nat)
    requires Inv(x) && first <= second && Oldest(x.t, first, marked) && Oldest(x.t, second, dropped)
    requires |marked| < BATCH_LIMIT
    ensures Inv(ExpiryBatch(x, marked, dropped)) <==>
              forall k :: k in x.t.uploads ==> !(first < x.t.uploads[k].expiresAt <= second)
  {
    ExpiryNeedsOneSelection(x, marked, dropped);
    if k :| k in x.t.uploads && first < x.t.uploads[k].expiresAt <= second {
      ShortSelectionIsMissed(x.t, marked, dropped, second, k);
    } else {
      SettledSelectsTheSame(x.t, marked, dropped, first, second);
    }
  }

  /**
   * Two clock readings can differ: a reservation that expires between them is dropped without being marked, and a
   * put of it that lands afterwards is stored with nothing tracking it.
   */
  lemma TwoClockReadingsLeak(x: World, key: string, first: nat, second: nat)
    requires Inv(x) && x.t.uploads.Keys == {key} && key in x.inFlight
    requires first < x.t.uploads[key].expiresAt <= second
    ensures Oldest(x.t, first, []) && Oldest(x.t, second, [key])
    ensures var x' := Apply(ExpiryBatch(x, [], [key]), Land(key));
            key in x'.bucket && !Tracked(x'.t, key)
  {
    DroppedUnmarkedIsLost(x, [], [key], key);
  }

  /** From an account with room, three steps lead there: the reservation, its put on the way, and an hour. */
  function RunToExpiry(key: string, account: string, blob: string, bytes: Bytes, quota: nat): seq<Move> {
    [Reserve(key, account, blob, bytes, quota), Issue(key), Tick(RESERVATION_SECONDS)]
  }

  lemma ThreeMoves(x: World, m: seq<Move>)
    requires |m| == 3
    ensures ApplyAll(x, m) == Apply(Apply(Apply(x, m[0]), m[1]), m[2])
    ensures AllAllowed(x, m) <==>
              Allowed(x, m[0]) && Allowed(Apply(x, m[0]), m[1]) && Allowed(Apply(Apply(x, m[0]), m[1]), m[2])
  {
    var y, z := Apply(x, m[0]), Apply(Apply(x, m[0]), m[1]);
    assert m[1..][1..] == m[2..] && m[2..][1..] == [];
    assert ApplyAll(z, m[2..]) == ApplyAll(Apply(z, m[2]), []) && ApplyAll(y, m[1..]) == ApplyAll(z, m[2..]);
    assert AllAllowed(Apply(z, m[2]), []);
    assert AllAllowed(z, m[2..]) <==> Allowed(z, m[2]);
    assert AllAllowed(y, m[1..]) <==> Allowed(y, m[1]) && AllAllowed(z, m[2..]);
  }

  lemma TwoClockReadingsLeakInARun(x: World, key: string, account: string, blob: string, bytes: Bytes, quota: nat)
    requires Fresh(x) && HasRoom(x.t, account, |bytes|, quota)
    ensures AllAllowed(x, RunToExpiry(key, account, blob, bytes, quota))
    ensures var y := ApplyAll(x, RunToExpiry(key, account, blob, bytes, quota));
            && y.now > 0 && Oldest(y.t, y.now - 1, []) && Oldest(y.t, y.now, [key])
            && var x' := Apply(ExpiryBatch(y, [], [key]), Land(key)); key in x'.bucket && !Tracked(x'.t, key)
  {
    var run := RunToExpiry(key, account, blob, bytes, quota);
    ThreeMoves(x, run);
    FreshIsInv(x);
    RunKeepsInv(x, run);
    var y := ApplyAll(x, run);
    assert y.t.uploads == map[key := Upload(account, blob, |bytes|, y.now)];
    TwoClockReadingsLeak(y, key, y.now - 1, y.now);
  }

  // ---------------------------------------------------------------- the mutable store

  datatype PutResult = Stored | PutFailed(bytesArrived: bool)

  /** A database batch is answered, or fails with an error that does not say whether it was committed. */
  datatype Batch = Answered | Ambiguous(committed: bool)

  predicate Commits(b: Batch) {
    b.Answered? || b.committed
  }

  /** What `WHERE next_attempt <= now ORDER BY next_attempt LIMIT 8` may select from the cleanup rows. */
  ghost predicate SelectsDue(t: Tables, now: nat, rows: seq<(string, bool)>) {
    && |rows| <= BATCH_LIMIT
    && (forall i, j :: 0 <= i < j < |rows| ==> rows[i].0 != rows[j].0)
    && (forall i :: 0 <= i < |rows| ==> IsDue(t, now, rows[i].0) && t.garbage[rows[i].0].forever == rows[i].1)
    && (forall k :: IsDue(t, now, k) && k !in KeysOf(rows) ==>
          |rows| == BATCH_LIMIT && forall i :: 0 <= i < |rows| ==>
            IsDue(t, now, rows[i].0) && t.garbage[rows[i].0].nextAttempt <= t.garbage[k].nextAttempt)
  }

  predicate IsDue(t: Tables, now: nat, key: string) {
    key in t.garbage && t.garbage[key].nextAttempt <= now
  }

  datatype Status = Created | QuotaExceeded | ServerFailure | Done | BlobNotFound

  /** The rows swept in order, each at its own clock reading. */
  ghost function SweptAll(t: Tables, rows: seq<(string, bool)>, clock: seq<nat>): Tables
    requires |clock| == |rows|
  {
    if rows == [] then t
    else
      var n := |rows| - 1;
      Swept(SweptAll(t, rows[..n], clock[..n]), rows[n].0, rows[n].1, clock[n])
  }

  ghost function KeysOf(rows: seq<(string, bool)>): set<string> {
    set i | 0 <= i < |rows| :: rows[i].0
  }

  class BlobStore {
    var uploads: map<string, Upload>
    var blobs: map<(string, string), Row>
    var garbage: map<string, Mark>
    var accounts: map<string, Usage>
    var bucket: map<string, Bytes>

    constructor ()
      ensures View() == Tables(map[], map[], map[], map[]) && bucket == map[]
    {
      uploads, blobs, garbage, accounts, bucket := map[], map[], map[], map[], map[];
    }

    ghost function View(): Tables
      reads this
    {
      Tables(uploads, blobs, garbage, accounts)
    }

    method Commit(t: Tables)
      modifies this`uploads, this`blobs, this`garbage, this`accounts
      ensures View() == t
    {
      uploads, blobs, garbage, accounts := t.uploads, t.blobs, t.garbage, t.accounts;
    }

    /** The two statements of the publishing batch; whether the first one wrote a row. */
    method PublishBatch(key: string, now: nat) returns (pointed: bool)
      requires Separate(View())
      modifies this`uploads, this`blobs, this`garbage, this`accounts
      ensures View() == Published(old(View()), key, now)
      ensures pointed <==> key in old(uploads) && old(uploads)[key].expiresAt > now
      ensures pointed ==>
                var u := old(uploads)[key];
                (u.account, u.blob) in blobs && blobs[(u.account, u.blob)] == Row(key, u.size)
    {
      ghost var before := View();
      PublishedTables(before, key, now);
      pointed := key in uploads && uploads[key].expiresAt > now;
      Commit(PointAt(Tables(uploads, blobs, garbage, accounts), key, now));
      var t := Tables(uploads, blobs, garbage, accounts);
      if IsLive(t, key) {
        Commit(DropUpload(t, key));
      }
    }

    /**
     * The PUT arm run to its end: reserve at `reservedAt`, put, and publish at `publishedAt` or cancel. The last
     * batch may fail, committed or not: a failed cancel is ignored, a failed publication is reported as a failure.
     */
    method PutBlob(account: string, blob: string, bytes: Bytes, quota: nat, key: string, put: PutResult, last: Batch,
                   reservedAt: nat, publishedAt: nat)
      returns (status: Status)
      requires reservedAt <= publishedAt && Separate(View())
      requires key !in uploads && key !in garbage && !IsLive(View(), key) && key !in bucket
      modifies this
      ensures status == QuotaExceeded <==> !HasRoom(old(View()), account, |bytes|, quota)
      ensures status == QuotaExceeded ==> View() == old(View()) && bucket == old(bucket)
      ensures status != QuotaExceeded ==>
                var reserved := Reserved(old(View()), key, account, blob, |bytes|, reservedAt);
                if put.PutFailed? then
                  && status == ServerFailure
                  && View() == (if Commits(last) then Cancelled(reserved, key, publishedAt) else reserved)
                  && bucket == if put.bytesArrived then old(bucket)[key := bytes] else old(bucket)
                else
                  && View() == (if Commits(last) then Published(reserved, key, publishedAt) else reserved)
                  && bucket == old(bucket)[key := bytes]
                  && (status == Created <==> last.Answered? && publishedAt < reservedAt + 3600)
      ensures status == Created ==> (account, blob) in blobs && blobs[(account, blob)] == Row(key, |bytes|)
      ensures status in {Created, QuotaExceeded, ServerFailure}
    {
      var t := Tables(uploads, blobs, garbage, accounts);
      if !HasRoom(t, account, |bytes|, quota) {
        return QuotaExceeded;
      }
      Commit(Reserved(t, key, account, blob, |bytes|, reservedAt));
      status := ServerFailure;
      match put {
        case PutFailed(bytesArrived) =>
          if bytesArrived {
            bucket := bucket[key := bytes];
          }
          if Commits(last) {
            Commit(Cancelled(Tables(uploads, blobs, garbage, accounts), key, publishedAt));
          }
        case Stored =>
          bucket := bucket[key := bytes];
          if Commits(last) {
            var pointed := PublishBatch(key, publishedAt);
            if pointed && last.Answered? {
              status := Created;
            }
          }
      }
    }

    method Delete(account: string, blob: string, now: nat) returns (status: Status)
      modifies this`uploads, this`blobs, this`garbage, this`accounts
      ensures View() == Deleted(old(View()), account, blob, now)
      ensures status == (if (account, blob) in old(blobs) then Done else BlobNotFound)
      ensures (account, blob) !in blobs
    {
      if (account, blob) !in blobs {
        return BlobNotFound;
      }
      Commit(Deleted(Tables(uploads, blobs, garbage, accounts), account, blob, now));
      status := Done;
    }

    /** The loop over the selected cleanup rows, until bucket delete number `failsAt` fails. */
    method SweepRows(rows: seq<(string, bool)>, failsAt: nat, clock: seq<nat>) returns (completed: bool)
      requires |clock| == |rows|
      modifies this
      ensures completed <==> failsAt >= |rows|
      ensures var n := if failsAt < |rows| then failsAt else |rows|;
              View() == SweptAll(old(View()), rows[..n], clock[..n]) && bucket == old(bucket) - KeysOf(rows[..n])
    {
      var i := 0;
      while i < |rows|
        invariant 0 <= i <= |rows| && i <= failsAt
        invariant View() == SweptAll(old(View()), rows[..i], clock[..i])
        invariant bucket == old(bucket) - KeysOf(rows[..i])
      {
        if i == failsAt {
          return false;
        }
        var (key, forever) := rows[i];
        assert rows[..i + 1][..i] == rows[..i] && clock[..i + 1][..i] == clock[..i];
        ErasedKeys(rows, i);
        bucket := bucket - {key};
        Commit(Swept(Tables(uploads, blobs, garbage, accounts), key, forever, clock[i]));
        i := i + 1;
      }
      assert rows[..i] == rows && clock[..i] == clock;
      completed := true;
    }

    /**
     * One cleanup run: mark at `clock[0]` and drop at `clock[1]` the reservations the database selected, read the
     * due `rows` at `clock[2]` and erase them one by one, until bucket delete number `failsAt` fails.
     */
    method Reconcile(marked: seq<string>, dropped: seq<string>, rows: seq<(string, bool)>, failsAt: nat,
                     clock: seq<nat>)
      returns (completed: bool)
      requires |clock| == 3 + |rows|
      requires Oldest(View(), clock[0], marked) && Oldest(MarkAll(View(), marked, clock[0]), clock[1], dropped)
      requires SelectsDue(DropAll(MarkAll(View(), marked, clock[0]), dropped), clock[2], rows)
      modifies this
      ensures completed <==> failsAt >= |rows|
      ensures var n := if failsAt < |rows| then failsAt else |rows|;
              && View() == SweptAll(DropAll(MarkAll(old(View()), marked, clock[0]), dropped), rows[..n],
                                    clock[3..][..n])
              && bucket == old(bucket) - KeysOf(rows[..n])
    {
      var t := Tables(uploads, blobs, garbage, accounts);
      Commit(DropAll(MarkAll(t, marked, clock[0]), dropped));
      completed := SweepRows(rows, failsAt, clock[3..]);
    }
  }

  lemma ErasedKeys(rows: seq<(string, bool)>, i: nat)
    requires i < |rows|
    ensures KeysOf(rows[..i + 1]) == KeysOf(rows[..i]) + {rows[i].0}
  {
    forall k | k in KeysOf(rows[..i]) + {rows[i].0} ensures k in KeysOf(rows[..i + 1]) {
      if k == rows[i].0 {
        assert rows[..i + 1][i].0 == k;
      } else {
        var j :| 0 <= j < |rows[..i]| && rows[..i][j].0 == k;
        assert rows[..i + 1][j].0 == k;
      }
    }
  }
}
