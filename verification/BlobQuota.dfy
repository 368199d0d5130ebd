/** The byte counters kept by the schema's triggers: exact after every batch, and within the quota for good. */
module BlobQuota {
  import opened Text
  import opened Blobs

  function UploadShare(u: Upload, account: string): nat {
    if u.account == account then u.size else 0
  }

  function RowShare(slot: (string, string), row: Row, account: string): nat {
    if slot.0 == account then row.size else 0
  }

  /** The reserved bytes of an account, summed over its reservations. */
  ghost function Reservations(uploads: map<string, Upload>, account: string): nat
    decreases |uploads|
  {
    if uploads == map[] then 0
    else
      var k :| k in uploads;
      UploadShare(uploads[k], account) + Reservations(uploads - {k}, account)
  }

  /** The stored bytes of an account, summed over its rows. */
  ghost function Rows(blobs: map<(string, string), Row>, account: string): nat
    decreases |blobs|
  {
    if blobs == map[] then 0
    else
      var s :| s in blobs;
      RowShare(s, blobs[s], account) + Rows(blobs - {s}, account)
  }

  lemma {:induction false} ReservationDropped(uploads: map<string, Upload>, key: string, a: string)
    requires key in uploads
    ensures Reservations(uploads, a) == UploadShare(uploads[key], a) + Reservations(uploads - {key}, a)
    decreases |uploads|
  {
    var j :| j in uploads && Reservations(uploads, a) == UploadShare(uploads[j], a) + Reservations(uploads - {j}, a);
    if j != key {
      ReservationDropped(uploads - {j}, key, a);
      ReservationDropped(uploads - {key}, j, a);
      assert (uploads - {j}) - {key} == (uploads - {key}) - {j};
    }
  }

  lemma ReservationAdded(uploads: map<string, Upload>, key: string, u: Upload, a: string)
    requires key !in uploads
    ensures Reservations(uploads[key := u], a) == UploadShare(u, a) + Reservations(uploads, a)
  {
    ReservationDropped(uploads[key := u], key, a);
    assert uploads[key := u] - {key} == uploads;
  }

  lemma {:induction false} RowDropped(blobs: map<(string, string), Row>, slot: (string, string), a: string)
    requires slot in blobs
    ensures Rows(blobs, a) == RowShare(slot, blobs[slot], a) + Rows(blobs - {slot}, a)
    decreases |blobs|
  {
    var j :| j in blobs && Rows(blobs, a) == RowShare(j, blobs[j], a) + Rows(blobs - {j}, a);
    if j != slot {
      RowDropped(blobs - {j}, slot, a);
      RowDropped(blobs - {slot}, j, a);
      assert (blobs - {j}) - {slot} == (blobs - {slot}) - {j};
    }
  }

  lemma RowWritten(blobs: map<(string, string), Row>, slot: (string, string), row: Row, a: string)
    ensures var was := if slot in blobs then RowShare(slot, blobs[slot], a) else 0;
            Rows(blobs[slot := row], a) == Rows(blobs, a) + RowShare(slot, row, a) - was
  {
    RowDropped(blobs[slot := row], slot, a);
    assert blobs[slot := row] - {slot} == blobs - {slot};
    if slot in blobs {
      RowDropped(blobs, slot, a);
    } else {
      assert blobs - {slot} == blobs;
    }
  }

  /** Every counter is the sum of the sizes it stands for. */
  ghost predicate Accounted(t: Tables) {
    && (forall a :: a in t.accounts ==> t.accounts[a] == Usage(Rows(t.blobs, a), Reservations(t.uploads, a)))
    && (forall k :: k in t.uploads ==> t.uploads[k].account in t.accounts)
    && (forall s :: s in t.blobs ==> s.0 in t.accounts)
  }

  ghost predicate WithinQuota(t: Tables, quota: nat) {
    forall a :: a in t.accounts ==> t.accounts[a].blobBytes + t.accounts[a].reservedBytes <= quota
  }

  lemma ReserveIsAccounted(t: Tables, key: string, account: string, blob: string, size: nat, now: nat, quota: nat)
    requires Accounted(t) && WithinQuota(t, quota) && key !in t.uploads && HasRoom(t, account, size, quota)
    ensures Accounted(Reserved(t, key, account, blob, size, now))
    ensures WithinQuota(Reserved(t, key, account, blob, size, now), quota)
  {
    var u := Upload(account, blob, size, now + RESERVATION_SECONDS);
    forall a ensures Reservations(t.uploads[key := u], a) == UploadShare(u, a) + Reservations(t.uploads, a) {
      ReservationAdded(t.uploads, key, u, a);
    }
  }

  lemma DropIsAccounted(t: Tables, key: string, quota: nat)
    requires Accounted(t) && WithinQuota(t, quota)
    ensures Accounted(DropUpload(t, key)) && WithinQuota(DropUpload(t, key), quota)
  {
    if key in t.uploads {
      var u := t.uploads[key];
      forall a ensures Reservations(t.uploads, a) == UploadShare(u, a) + Reservations(t.uploads - {key}, a) {
        ReservationDropped(t.uploads, key, a);
      }
    }
  }

  lemma DiscardIsAccounted(t: Tables, key: string, forever: bool, now: nat, quota: nat)
    requires Accounted(t) && WithinQuota(t, quota)
    ensures Accounted(Discard(t, key, forever, now)) && WithinQuota(Discard(t, key, forever, now), quota)
  {}

  /** A row written with the counter moved by the difference in size. */
  lemma RowIsAccounted(t: Tables, slot: (string, string), row: Row)
    requires Accounted(t) && slot.0 in t.accounts
    ensures var was := if slot in t.blobs then t.blobs[slot].size else 0;
            Accounted(Charge(t.(blobs := t.blobs[slot := row]), slot.0, row.size - was, 0))
  {
    forall a ensures var was := if slot in t.blobs then RowShare(slot, t.blobs[slot], a) else 0;
                     Rows(t.blobs[slot := row], a) == Rows(t.blobs, a) + RowShare(slot, row, a) - was
    {
      RowWritten(t.blobs, slot, row, a);
    }
  }

  /** A row gone, with its bytes given back. */
  lemma RowGoneIsAccounted(t: Tables, slot: (string, string), quota: nat)
    requires Accounted(t) && WithinQuota(t, quota) && slot in t.blobs
    ensures var t' := Charge(t.(blobs := t.blobs - {slot}), slot.0, 0 - t.blobs[slot].size, 0);
            Accounted(t') && WithinQuota(t', quota)
  {
    forall a ensures Rows(t.blobs, a) == RowShare(slot, t.blobs[slot], a) + Rows(t.blobs - {slot}, a) {
      RowDropped(t.blobs, slot, a);
    }
  }

  lemma DeleteIsAccounted(t: Tables, account: string, blob: string, now: nat, quota: nat)
    requires Accounted(t) && WithinQuota(t, quota)
    ensures Accounted(Deleted(t, account, blob, now)) && WithinQuota(Deleted(t, account, blob, now), quota)
  {
    var slot := (account, blob);
    if slot in t.blobs {
      var row := t.blobs[slot];
      RowGoneIsAccounted(t, slot, quota);
      DiscardIsAccounted(Charge(t.(blobs := t.blobs - {slot}), account, 0 - row.size, 0), row.key, false, now, quota);
    }
  }

  /** Within the quota, but for `size` bytes charged twice to one account. */
  ghost predicate WithinBut(t: Tables, quota: nat, account: string, size: nat) {
    forall a :: a in t.accounts ==>
      t.accounts[a].blobBytes + t.accounts[a].reservedBytes <= quota + if a == account then size else 0
  }

  lemma RowIsWithin(t: Tables, account: string, more: int, quota: nat, size: nat)
    requires WithinQuota(t, quota) && more <= size
    ensures WithinBut(Charge(t, account, more, 0), quota, account, size)
  {}

  /** The cleanup rows do not count. */
  lemma SameBooks(t: Tables, t': Tables)
    requires Accounted(t) && t'.uploads == t.uploads && t'.blobs == t.blobs && t'.accounts == t.accounts
    ensures Accounted(t')
  {}

  /** The row of a reservation written and charged, before the replaced key becomes garbage. */
  function RowPut(t: Tables, key: string): Tables
    requires key in t.uploads
  {
    var u := t.uploads[key];
    var slot := (u.account, u.blob);
    var was := if slot in t.blobs then t.blobs[slot].size else 0;
    Charge(t.(blobs := t.blobs[slot := Row(key, u.size)]), u.account, u.size - was, 0)
  }

  lemma PointedTables(t: Tables, key: string, now: nat)
    requires key in t.uploads && t.uploads[key].expiresAt > now
    ensures var t', put := PointAt(t, key, now), RowPut(t, key);
            t'.uploads == put.uploads == t.uploads && t'.blobs == put.blobs && t'.accounts == put.accounts
  {}

  lemma RowPutIsAccounted(t: Tables, key: string)
    requires Accounted(t) && key in t.uploads
    ensures Accounted(RowPut(t, key))
  {
    var u := t.uploads[key];
    RowIsAccounted(t, (u.account, u.blob), Row(key, u.size));
  }

  lemma RowPutIsWithin(t: Tables, key: string, quota: nat)
    requires WithinQuota(t, quota) && key in t.uploads
    ensures WithinBut(RowPut(t, key), quota, t.uploads[key].account, t.uploads[key].size)
  {
    var u := t.uploads[key];
    var slot := (u.account, u.blob);
    var was := if slot in t.blobs then t.blobs[slot].size else 0;
    RowIsWithin(t.(blobs := t.blobs[slot := Row(key, u.size)]), u.account, u.size - was, quota, u.size);
  }

  lemma PointIsAccounted(t: Tables, key: string, now: nat, quota: nat)
    requires Accounted(t) && WithinQuota(t, quota) && key in t.uploads && t.uploads[key].expiresAt > now
    ensures Accounted(PointAt(t, key, now))
    ensures WithinBut(PointAt(t, key, now), quota, t.uploads[key].account, t.uploads[key].size)
  {
    RowPutIsAccounted(t, key);
    RowPutIsWithin(t, key, quota);
    PointedTables(t, key, now);
    SameBooks(RowPut(t, key), PointAt(t, key, now));
  }

  /** Between the two statements the row and the reservation are both charged; dropping one settles it. */
  lemma SettledIsAccounted(t: Tables, key: string, quota: nat)
    requires Accounted(t) && key in t.uploads && WithinBut(t, quota, t.uploads[key].account, t.uploads[key].size)
    ensures Accounted(DropUpload(t, key)) && WithinQuota(DropUpload(t, key), quota)
  {
    DropIsAccounted(t, key, quota + t.uploads[key].size);
  }

  lemma PointedIsAccounted(t: Tables, key: string, now: nat, quota: nat)
    requires Accounted(t) && WithinQuota(t, quota) && key in t.uploads && t.uploads[key].expiresAt > now
    ensures Accounted(DropUpload(PointAt(t, key, now), key))
    ensures WithinQuota(DropUpload(PointAt(t, key, now), key), quota)
  {
    PointIsAccounted(t, key, now, quota);
    assert PointAt(t, key, now).uploads == t.uploads;
    SettledIsAccounted(PointAt(t, key, now), key, quota);
  }

  lemma PublishIsAccounted(t: Tables, key: string, now: nat, quota: nat)
    requires Separate(t) && Accounted(t) && WithinQuota(t, quota)
    ensures Accounted(Published(t, key, now)) && WithinQuota(Published(t, key, now), quota)
  {
    PublishedTables(t, key, now);
    if key in t.uploads && t.uploads[key].expiresAt > now {
      var u, t1 := t.uploads[key], PointAt(t, key, now);
      assert (u.account, u.blob) in t1.blobs && t1.blobs[(u.account, u.blob)].key == key;
      PointedIsAccounted(t, key, now, quota);
    }
  }

  lemma {:induction false} MarkAllIsAccounted(t: Tables, keys: seq<string>, now: nat, quota: nat)
    requires Accounted(t) && WithinQuota(t, quota)
    ensures Accounted(MarkAll(t, keys, now)) && WithinQuota(MarkAll(t, keys, now), quota)
  {
    if keys != [] {
      MarkAllIsAccounted(t, keys[..|keys| - 1], now, quota);
      DiscardIsAccounted(MarkAll(t, keys[..|keys| - 1], now), keys[|keys| - 1], true, now, quota);
    }
  }

  lemma {:induction false} DropAllIsAccounted(t: Tables, keys: seq<string>, quota: nat)
    requires Accounted(t) && WithinQuota(t, quota)
    ensures Accounted(DropAll(t, keys)) && WithinQuota(DropAll(t, keys), quota)
  {
    if keys != [] {
      DropAllIsAccounted(t, keys[..|keys| - 1], quota);
      DropIsAccounted(DropAll(t, keys[..|keys| - 1]), keys[|keys| - 1], quota);
    }
  }

  lemma CancelIsAccounted(t: Tables, key: string, now: nat, quota: nat)
    requires Accounted(t) && WithinQuota(t, quota)
    ensures Accounted(Cancelled(t, key, now)) && WithinQuota(Cancelled(t, key, now), quota)
  {
    DiscardIsAccounted(t, key, true, now, quota);
    DropIsAccounted(if key in t.uploads then Discard(t, key, true, now) else t, key, quota);
  }

  lemma ExpiryIsAccounted(t: Tables, keys: seq<string>, now: nat, quota: nat)
    requires Accounted(t) && WithinQuota(t, quota)
    ensures var t' := DropAll(MarkAll(t, keys, now), keys); Accounted(t') && WithinQuota(t', quota)
  {
    MarkAllIsAccounted(t, keys, now, quota);
    DropAllIsAccounted(MarkAll(t, keys, now), keys, quota);
  }

  lemma GarbageIsFree(t: Tables, t': Tables, quota: nat)
    requires Accounted(t) && WithinQuota(t, quota)
    requires t'.uploads == t.uploads && t'.blobs == t.blobs && t'.accounts == t.accounts
    ensures Accounted(t') && WithinQuota(t', quota)
  {}

  lemma NewKeyIsNotReserved(x: World, m: Move)
    requires Inv(x) && Allowed(x, m) && m.Reserve?
    ensures m.key !in x.t.uploads && HasRoom(x.t, m.account, |m.bytes|, m.quota)
  {}

  /** The tables a move leaves. */
  function TablesAfter(x: World, m: Move): Tables {
    match m
    case Reserve(key, account, blob, bytes, _) => Reserved(x.t, key, account, blob, |bytes|, x.now)
    case Publish(key) => Published(x.t, key, x.now)
    case Cancel(key) => Cancelled(x.t, key, x.now)
    case DeleteBlob(account, blob) => Deleted(x.t, account, blob, x.now)
    case Expire(keys) => DropAll(MarkAll(x.t, keys, x.now), keys)
    case _ => Apply(x, m).t
  }

  lemma MoveLeaves(x: World, m: Move)
    ensures Apply(x, m).t == TablesAfter(x, m)
  {}

  predicate ChangesBooks(m: Move) {
    m.Reserve? || m.Publish? || m.Cancel? || m.DeleteBlob? || m.Expire?
  }

  lemma OtherMovesKeepBooks(x: World, m: Move)
    requires !ChangesBooks(m)
    ensures var t' := Apply(x, m).t; t'.uploads == x.t.uploads && t'.blobs == x.t.blobs && t'.accounts == x.t.accounts
  {}

  lemma BookingIsAccounted(x: World, m: Move, quota: nat)
    requires ChangesBooks(m) && Separate(x.t) && Accounted(x.t) && WithinQuota(x.t, quota)
    requires m.Reserve? ==> m.quota == quota && m.key !in x.t.uploads && HasRoom(x.t, m.account, |m.bytes|, quota)
    ensures Accounted(TablesAfter(x, m)) && WithinQuota(TablesAfter(x, m), quota)
  {
    match m
    case Reserve(key, account, blob, bytes, _) =>
      ReserveIsAccounted(x.t, key, account, blob, |bytes|, x.now, quota);
    case Publish(key) => PublishIsAccounted(x.t, key, x.now, quota);
    case Cancel(key) => CancelIsAccounted(x.t, key, x.now, quota);
    case DeleteBlob(account, blob) => DeleteIsAccounted(x.t, account, blob, x.now, quota);
    case Expire(keys) => ExpiryIsAccounted(x.t, keys, x.now, quota);
  }

  lemma TablesAreAccounted(x: World, m: Move, quota: nat)
    requires Separate(x.t) && Accounted(x.t) && WithinQuota(x.t, quota)
    requires m.Reserve? ==> m.quota == quota && m.key !in x.t.uploads && HasRoom(x.t, m.account, |m.bytes|, quota)
    ensures Accounted(Apply(x, m).t) && WithinQuota(Apply(x, m).t, quota)
  {
    if ChangesBooks(m) {
      BookingIsAccounted(x, m, quota);
      MoveLeaves(x, m);
    } else {
      OtherMovesKeepBooks(x, m);
      GarbageIsFree(x.t, Apply(x, m).t, quota);
    }
  }

  lemma MoveIsAccounted(x: World, m: Move, quota: nat)
    requires Inv(x) && Allowed(x, m) && (m.Reserve? ==> m.quota == quota)
    requires Accounted(x.t) && WithinQuota(x.t, quota)
    ensures Accounted(Apply(x, m).t) && WithinQuota(Apply(x, m).t, quota)
  {
    if m.Reserve? {
      NewKeyIsNotReserved(x, m);
    }
    TablesAreAccounted(x, m, quota);
  }

  /**
   * Conservation and quota over whole runs: the counters always equal the sizes of the reservations and rows, so
   * concurrent uploads, overwrites, failures and cleanup never let an account exceed its quota.
   */
  lemma {:induction false} QuotaHoldsInEveryRun(x: World, moves: seq<Move>, quota: nat)
    requires Inv(x) && AllAllowed(x, moves)
    requires forall i :: 0 <= i < |moves| && moves[i].Reserve? ==> moves[i].quota == quota
    requires Accounted(x.t) && WithinQuota(x.t, quota)
    ensures Accounted(ApplyAll(x, moves).t) && WithinQuota(ApplyAll(x, moves).t, quota)
    decreases |moves|
  {
    if moves != [] {
      MoveIsAccounted(x, moves[0], quota);
      MoveKeepsInv(x, moves[0]);
      QuotaHoldsInEveryRun(Apply(x, moves[0]), moves[1..], quota);
    }
  }

  /** With exact books, a reservation is refused exactly when it would take the account past the quota. */
  lemma RoomIsExact(t: Tables, account: string, size: nat, quota: nat)
    requires Accounted(t) && account in t.accounts
    ensures HasRoom(t, account, size, quota)
            <==> Rows(t.blobs, account) + Reservations(t.uploads, account) + size <= quota
  {
    assert t.accounts[account] == Usage(Rows(t.blobs, account), Reservations(t.uploads, account));
  }
}
