/**
 * The whole system: one server and any number of clients that push queued mutations, lose answers, and
 * resolve conflicts by guarded last-write-wins. A turn is one push attempt of one client; a run is any
 * interleaving of turns.
 */
module Convergence {
  import opened Text
  import opened Protocol
  import opened Storage
  import opened SyncServer
  import opened Conflicts

  datatype System = System(server: Server, clients: seq<Store>)

  /** Client `client` pushes entry `pos` of its queue; `fate` says whether request and answer arrive. */
  datatype Turn = Turn(client: nat, pos: nat, fate: Fate, attempt: Attempt)

  predicate Enabled(sys: System, t: Turn) {
    t.client < |sys.clients| && t.pos < |sys.clients[t.client].mutations|
  }

  function Mover(sys: System, t: Turn): PendingMutation
    requires Enabled(sys, t)
  {
    sys.clients[t.client].mutations[t.pos]
  }

  function Answer(sys: System, t: Turn): Outcome<PushResponse>
    requires Enabled(sys, t)
  {
    AnswerTo(sys.server, Mover(sys, t), t.fate)
  }

  function After(sys: System, t: Turn): System {
    if !Enabled(sys, t) then sys
    else
      var s, m := sys.clients[t.client], Mover(sys, t);
      System(ServerAfter(sys.server, m, t.fate),
             sys.clients[t.client := StoreAfter(sys.server, s, m, t.fate, t.attempt)])
  }

  function AfterAll(sys: System, turns: seq<Turn>): System
    decreases |turns|
  {
    if turns == [] then sys else AfterAll(After(sys, turns[0]), turns[1..])
  }

  // ---------------------------------------------------------------- one object, one edit per client

  /** Object `id` at revision `base`, client `i` holding `edits[i]` of it, and the shared vault key. */
  datatype World = World(id: string, base: nat, edits: seq<Envelope>, key: Opener)

  predicate Opens(w: World, e: Envelope) {
    w.key(e).Some?
  }

  /** `a` beats `b`: later timestamp, or the same timestamp and a greater ciphertext. */
  predicate Beats(w: World, a: Envelope, b: Envelope)
    requires Opens(w, a) && Opens(w, b)
  {
    var s, t := w.key(a).value.updatedAt, w.key(b).value.updatedAt;
    if s != t then Less(t, s) else Less(b.payload.ciphertext, a.payload.ciphertext)
  }

  lemma BeatsIsAnOrder(w: World, a: Envelope, b: Envelope, c: Envelope)
    requires Opens(w, a) && Opens(w, b) && Opens(w, c)
    ensures !Beats(w, a, a)
    ensures Beats(w, a, b) && Beats(w, b, c) ==> Beats(w, a, c)
  {
    LessIsIrreflexive(a.payload.ciphertext);
    if Beats(w, a, b) && Beats(w, b, c) {
      var s, t, u := w.key(a).value.updatedAt, w.key(b).value.updatedAt, w.key(c).value.updatedAt;
      if s != t && t != u {
        LessIsTransitive(u, t, s);
        LessIsIrreflexive(s);
      } else if s == t == u {
        LessIsTransitive(c.payload.ciphertext, b.payload.ciphertext, a.payload.ciphertext);
      }
    }
  }

  function Revision(w: World, server: Server): nat {
    CurrentRevision(server, w.id)
  }

  /** Past the base revision the server holds one of the edits, live. */
  ghost predicate ServerOk(w: World, server: Server) {
    && server.failNext.None?
    && Revision(w, server) >= w.base
    && (Revision(w, server) > w.base ==>
          && w.id in server.objects
          && !server.objects[w.id].isDeleted
          && server.objects[w.id].envelope in w.edits)
    && (forall e :: e in w.edits ==> Opens(w, e))
  }

  function Held(w: World, server: Server): Envelope
    requires w.id in server.objects
  {
    server.objects[w.id].envelope
  }

  /** The server has decided this client's edit: dequeued, or accepted with the answer still missing. */
  predicate Decided(server: Server, s: Store) {
    s.mutations == [] || s.mutations[0].mutationId in server.processed
  }

  ghost predicate QueueOk(w: World, server: Server, s: Store, e: Envelope) {
    && |s.mutations| <= 1
    && (s.mutations != [] ==>
          var q := s.mutations[0];
          && q.objectId == w.id && q.mutationType.Upsert? && q.envelope == e
          && w.base <= q.expectedRevision
          && (q.mutationId in server.processed ==> SameRequest(server.processed[q.mutationId].0, RequestOf(q)))
          && (q.mutationId !in server.processed ==> q.expectedRevision <= Revision(w, server)))
  }

  /** Decided edits do not beat the server's; an undecided edit based on the current revision does. */
  ghost predicate OrderOk(w: World, server: Server, s: Store, e: Envelope)
    requires ServerOk(w, server) && e in w.edits
  {
    && (Decided(server, s) ==> Revision(w, server) > w.base && !Beats(w, e, Held(w, server)))
    && ((!Decided(server, s) && s.mutations[0].expectedRevision == Revision(w, server) > w.base)
        ==> Beats(w, e, Held(w, server)))
  }

  ghost predicate ClientOk(w: World, server: Server, s: Store, e: Envelope)
    requires ServerOk(w, server) && e in w.edits
  {
    QueueOk(w, server, s, e) && OrderOk(w, server, s, e)
  }

  ghost predicate DistinctMutations(clients: seq<Store>) {
    forall i, j :: 0 <= i < j < |clients| && clients[i].mutations != [] && clients[j].mutations != []
      ==> clients[i].mutations[0].mutationId != clients[j].mutations[0].mutationId
  }

  ghost predicate Inv(w: World, sys: System) {
    && |sys.clients| == |w.edits|
    && ServerOk(w, sys.server)
    && (forall i :: 0 <= i < |sys.clients| ==> ClientOk(w, sys.server, sys.clients[i], w.edits[i]))
    && DistinctMutations(sys.clients)
  }

  /** Every client holds one unpushed edit of revision `base`, under mutation ids of their own. */
  ghost predicate Start(w: World, sys: System) {
    && |sys.clients| == |w.edits|
    && sys.server.failNext.None? && Revision(w, sys.server) == w.base
    && (forall e :: e in w.edits ==> Opens(w, e))
    && (forall i :: 0 <= i < |sys.clients| ==>
          && |sys.clients[i].mutations| == 1
          && var q := sys.clients[i].mutations[0];
             && q.objectId == w.id && q.mutationType.Upsert? && q.envelope == w.edits[i]
             && q.expectedRevision == w.base
             && q.mutationId !in sys.server.processed)
    && DistinctMutations(sys.clients)
  }

  /** The turn runs under last-write-wins with the key, and its retry id is new to the whole system. */
  ghost predicate TurnOk(w: World, sys: System, t: Turn) {
    && t.attempt.policy.GuardedLww? && t.attempt.key == Some(w.key)
    && t.attempt.retryId !in sys.server.processed
    && (forall i :: 0 <= i < |sys.clients| && sys.clients[i].mutations != []
          ==> sys.clients[i].mutations[0].mutationId != t.attempt.retryId)
  }

  ghost predicate TurnsOk(w: World, sys: System, turns: seq<Turn>)
    decreases |turns|
  {
    turns != [] ==> TurnOk(w, sys, turns[0]) && TurnsOk(w, After(sys, turns[0]), turns[1..])
  }

  lemma StartIsInv(w: World, sys: System)
    requires Start(w, sys)
    ensures Inv(w, sys)
  {}

  /** Another client after someone's accepted edit `x`. */
  lemma OthersAfterAccept(w: World, server: Server, req: PushRequest, s: Store, e: Envelope)
    requires ServerOk(w, server) && e in w.edits && ClientOk(w, server, s, e)
    requires IsFresh(server, req) && req.objectId == w.id && !req.isDeleted && req.envelope in w.edits
    requires Revision(w, server) > w.base ==> Beats(w, req.envelope, Held(w, server))
    requires s.mutations != [] ==> s.mutations[0].mutationId != req.mutationId
    ensures ServerOk(w, Push(server, req).server) && ClientOk(w, Push(server, req).server, s, e)
  {
    if Revision(w, server) > w.base {
      BeatsIsAnOrder(w, e, req.envelope, Held(w, server));
    }
  }

  // What the mover's own store looks like after its turn.

  lemma MarkedQueue(s: Store, m: PendingMutation, status: MutationStatus, retries: nat)
    requires s.mutations == [m]
    ensures |Marked(s, m, status, retries).mutations| == 1
    ensures Marked(s, m, status, retries).mutations[0]
         == m.(status := status, retryCount := retries)
  {}

  lemma MoverQueue(s: Store, m: PendingMutation, outcome: Outcome<PushResponse>, a: Attempt)
    requires s.mutations == [m]
    requires outcome.Ok? || outcome.error == ConnectionFailed
             || (outcome.error.Conflict? && a.policy.GuardedLww? && !IsDeletionConflict(m, outcome.error.response))
    ensures var q := Handled(InFlightStore(s, m), m, outcome, a).mutations;
            if outcome.Ok? then q == []
            else if outcome.error.ConnectionFailed? then
              q == [m.(status := Pending, retryCount := m.retryCount + 1)]
            else if LocalWins(InFlightStore(s, m), m, outcome.error.response, a.key) then
              q == [Retry(a.retryId, m.objectId, m.objectKind, Upsert, m.envelope,
                          outcome.error.response.currentRevision, a.now)]
            else q == []
  {
    var s1 := InFlightStore(s, m);
    MarkedQueue(s, m, InFlight, m.retryCount + 1);
    var m1 := m.(status := InFlight, retryCount := m.retryCount + 1);
    assert s1.mutations == [m1];
    assert DropIds([m1], {m.mutationId}) == DropIds([], {m.mutationId}) == [];
    assert Without([m1], m.objectId) == Without([], m.objectId) == [];
    MarkedQueue(s1.(mutations := [m1]), m1, Pending, m.retryCount + 1);
  }

  /** What an enabled mover is: its one queued edit, which beats what the server holds if it is accepted now. */
  lemma MoverIs(w: World, sys: System, t: Turn)
    requires Inv(w, sys) && Enabled(sys, t)
    ensures var s, m := sys.clients[t.client], Mover(sys, t);
            && s.mutations == [m] && w.edits[t.client] in w.edits && RequestOf(m).envelope == w.edits[t.client]
            && RequestOf(m).objectId == w.id && !RequestOf(m).isDeleted
            && (IsFresh(sys.server, RequestOf(m)) && Revision(w, sys.server) > w.base ==>
                  Opens(w, w.edits[t.client]) && Beats(w, w.edits[t.client], Held(w, sys.server)))
  {
    assert ClientOk(w, sys.server, sys.clients[t.client], w.edits[t.client]);
  }

  /** The other clients, after a turn of client `t.client`. */
  lemma TurnKeepsOthers(w: World, sys: System, t: Turn, j: nat)
    requires Inv(w, sys) && Enabled(sys, t) && j < |sys.clients| && j != t.client
    ensures ClientOk(w, After(sys, t).server, After(sys, t).clients[j], w.edits[j])
  {
    MoverIs(w, sys, t);
    var req := RequestOf(Mover(sys, t));
    assert ClientOk(w, sys.server, sys.clients[j], w.edits[j]);
    if IsFresh(sys.server, req) && !t.fate.RequestLost? {
      assert sys.clients[j].mutations != [] ==> sys.clients[j].mutations[0].mutationId != req.mutationId;
      OthersAfterAccept(w, sys.server, req, sys.clients[j], w.edits[j]);
    }
  }

  lemma AcceptedMoverKept(w: World, sys: System, t: Turn)
    requires Inv(w, sys) && TurnOk(w, sys, t) && Enabled(sys, t) && !t.fate.RequestLost?
    requires IsFresh(sys.server, RequestOf(Mover(sys, t)))
    ensures ServerOk(w, After(sys, t).server)
    ensures ClientOk(w, After(sys, t).server, After(sys, t).clients[t.client], w.edits[t.client])
  {
    MoverIs(w, sys, t);
    var e := w.edits[t.client];
    assert ClientOk(w, sys.server, sys.clients[t.client], e);
    BeatsIsAnOrder(w, e, e, e);
    MoverQueue(sys.clients[t.client], Mover(sys, t), Answer(sys, t), t.attempt);
  }

  /** Nothing changes on the server: the request was lost, replayed or refused. */
  lemma IdleMoverKept(w: World, sys: System, t: Turn)
    requires Inv(w, sys) && TurnOk(w, sys, t) && Enabled(sys, t)
    requires t.fate.RequestLost? || !IsFresh(sys.server, RequestOf(Mover(sys, t)))
    ensures After(sys, t).server == sys.server
    ensures ClientOk(w, After(sys, t).server, After(sys, t).clients[t.client], w.edits[t.client])
  {
    MoverIs(w, sys, t);
    var s, m := sys.clients[t.client], Mover(sys, t);
    assert ClientOk(w, sys.server, s, w.edits[t.client]);
    if t.fate.RequestLost? || m.mutationId in sys.server.processed {
      MoverQueue(s, m, Answer(sys, t), t.attempt);
    } else {
      MoverConflicts(w, sys, t);
    }
  }

  /** A single turn of client `i`: its own store and the server stay in order, and others' do too. */
  lemma TurnKeepsClients(w: World, sys: System, t: Turn, j: nat)
    requires Inv(w, sys) && TurnOk(w, sys, t) && Enabled(sys, t) && j < |sys.clients|
    ensures ServerOk(w, After(sys, t).server)
    ensures ClientOk(w, After(sys, t).server, After(sys, t).clients[j], w.edits[j])
  {
    if t.fate.RequestLost? || !IsFresh(sys.server, RequestOf(Mover(sys, t))) {
      IdleMoverKept(w, sys, t);
    } else {
      AcceptedMoverKept(w, sys, t);
    }
    if j != t.client {
      TurnKeepsOthers(w, sys, t, j);
    }
  }

  lemma MoverConflicts(w: World, sys: System, t: Turn)
    requires Inv(w, sys) && TurnOk(w, sys, t) && Enabled(sys, t)
    requires Mover(sys, t).mutationId !in sys.server.processed
    requires Mover(sys, t).expectedRevision != Revision(w, sys.server)
    ensures After(sys, t).server == sys.server
    ensures ClientOk(w, sys.server, After(sys, t).clients[t.client], w.edits[t.client])
    ensures var q := After(sys, t).clients[t.client].mutations;
            t.fate.Delivered? && q != [] ==>
              |q| == 1 && q[0].mutationId == t.attempt.retryId && q[0].expectedRevision == Revision(w, sys.server)
  {
    var i := t.client;
    var s, m := sys.clients[i], Mover(sys, t);
    assert ClientOk(w, sys.server, s, w.edits[i]);
    assert s.mutations == [m] && w.edits[i] in w.edits;
    var c := ConflictFor(sys.server, RequestOf(m));
    assert Push(sys.server, RequestOf(m)) == SyncServer.Step(sys.server, Err(Conflict(c)));
    assert c.currentEnvelope == Held(w, sys.server) && !c.isDeleted;
    assert LocalWins(InFlightStore(s, m), m, c, t.attempt.key) <==> Beats(w, w.edits[i], Held(w, sys.server));
    MoverQueue(s, m, Answer(sys, t), t.attempt);
  }

  lemma TurnKeepsDistinct(w: World, sys: System, t: Turn)
    requires Inv(w, sys) && TurnOk(w, sys, t) && Enabled(sys, t)
    ensures DistinctMutations(After(sys, t).clients)
  {
    var i := t.client;
    var s, m := sys.clients[i], Mover(sys, t);
    assert ClientOk(w, sys.server, s, w.edits[i]);
    assert s.mutations == [m];
    var q := After(sys, t).clients[i].mutations;
    assert q == [] || q[0].mutationId == m.mutationId || q[0].mutationId == t.attempt.retryId by {
      if IsFresh(sys.server, RequestOf(m)) || m.mutationId in sys.server.processed {
        MoverQueue(s, m, Answer(sys, t), t.attempt);
      } else {
        MoverConflicts(w, sys, t);
        if !t.fate.Delivered? {
          MoverQueue(s, m, Answer(sys, t), t.attempt);
        }
      }
    }
  }

  lemma TurnKeepsInv(w: World, sys: System, t: Turn)
    requires Inv(w, sys) && TurnOk(w, sys, t)
    ensures Inv(w, After(sys, t))
  {
    if Enabled(sys, t) {
      var sys' := After(sys, t);
      TurnKeepsClients(w, sys, t, t.client);
      forall j | 0 <= j < |sys'.clients| ensures ClientOk(w, sys'.server, sys'.clients[j], w.edits[j]) {
        TurnKeepsClients(w, sys, t, j);
      }
      TurnKeepsDistinct(w, sys, t);
    }
  }

  // ---------------------------------------------------------------- termination

  /** How far a client is from being done; `N + 3` outweighs what one acceptance can cost all others. */
  function Weight(w: World, server: Server, s: Store): nat {
    if s.mutations == [] then 0
    else if s.mutations[0].mutationId in server.processed then 1
    else if s.mutations[0].expectedRevision == Revision(w, server) then |w.edits| + 2
    else |w.edits| + 3
  }

  function Total(w: World, server: Server, clients: seq<Store>): nat {
    if clients == [] then 0 else Weight(w, server, clients[0]) + Total(w, server, clients[1..])
  }

  lemma {:induction false} TotalSplits(w: World, server: Server, clients: seq<Store>, i: nat)
    requires i < |clients|
    ensures Total(w, server, clients)
         == Total(w, server, clients[..i]) + Weight(w, server, clients[i]) + Total(w, server, clients[i + 1..])
  {
    if i > 0 {
      TotalSplits(w, server, clients[1..], i - 1);
      assert clients[1..][..i - 1] == clients[..i][1..];
      assert clients[1..][i..] == clients[i + 1..];
    }
  }

  lemma {:induction false} TotalGrowth(w: World, server: Server, server': Server, clients: seq<Store>, grows: bool)
    requires forall s :: Weight(w, server', s) <= Weight(w, server, s) + if grows then 1 else 0
    ensures Total(w, server', clients) <= Total(w, server, clients) + if grows then |clients| else 0
  {
    if clients != [] {
      TotalGrowth(w, server, server', clients[1..], grows);
    }
  }

  /** A turn that counts: the answer arrives, or the lost answer was to an accepted push. */
  predicate Moves(sys: System, t: Turn) {
    Enabled(sys, t) && (t.fate.Delivered? || After(sys, t).server != sys.server)
  }

  lemma WeightOfMover(w: World, sys: System, t: Turn)
    requires Inv(w, sys) && TurnOk(w, sys, t) && Enabled(sys, t)
    ensures var before := Weight(w, sys.server, sys.clients[t.client]);
            var after := Weight(w, After(sys, t).server, After(sys, t).clients[t.client]);
            && (After(sys, t).server != sys.server ==> after + |w.edits| + 1 <= before)
            && (After(sys, t).server == sys.server ==> after <= before && (t.fate.Delivered? ==> after < before))
  {
    var i := t.client;
    var s, m := sys.clients[i], Mover(sys, t);
    assert ClientOk(w, sys.server, s, w.edits[i]);
    assert s.mutations == [m];
    if IsFresh(sys.server, RequestOf(m)) || m.mutationId in sys.server.processed {
      MoverQueue(s, m, Answer(sys, t), t.attempt);
    } else {
      MoverConflicts(w, sys, t);
      if !t.fate.Delivered? {
        MoverQueue(s, m, Answer(sys, t), t.attempt);
      }
    }
  }

  lemma WeightOfOthers(w: World, sys: System, t: Turn, s: Store)
    requires Inv(w, sys) && Enabled(sys, t)
    ensures Weight(w, After(sys, t).server, s)
         <= Weight(w, sys.server, s) + if After(sys, t).server != sys.server then 1 else 0
  {}

  lemma TurnLowersTotal(w: World, sys: System, t: Turn)
    requires Inv(w, sys) && TurnOk(w, sys, t)
    ensures var before, after :=
              Total(w, sys.server, sys.clients), Total(w, After(sys, t).server, After(sys, t).clients);
            after <= before && (Moves(sys, t) ==> after < before)
  {
    if Enabled(sys, t) {
      var i, sys' := t.client, After(sys, t);
      var grows := sys'.server != sys.server;
      forall s ensures Weight(w, sys'.server, s) <= Weight(w, sys.server, s) + if grows then 1 else 0 {
        WeightOfOthers(w, sys, t, s);
      }
      TotalSplits(w, sys.server, sys.clients, i);
      TotalSplits(w, sys'.server, sys'.clients, i);
      assert sys'.clients[..i] == sys.clients[..i] && sys'.clients[i + 1..] == sys.clients[i + 1..];
      TotalGrowth(w, sys.server, sys'.server, sys.clients[..i], grows);
      TotalGrowth(w, sys.server, sys'.server, sys.clients[i + 1..], grows);
      WeightOfMover(w, sys, t);
    }
  }

  function CountMoves(sys: System, turns: seq<Turn>): nat
    decreases |turns|
  {
    if turns == [] then 0
    else (if Moves(sys, turns[0]) then 1 else 0) + CountMoves(After(sys, turns[0]), turns[1..])
  }

  lemma {:induction false} RunKeepsInv(w: World, sys: System, turns: seq<Turn>)
    requires Inv(w, sys) && TurnsOk(w, sys, turns)
    ensures Inv(w, AfterAll(sys, turns))
    ensures CountMoves(sys, turns) <= Total(w, sys.server, sys.clients)
    decreases |turns|
  {
    if turns != [] {
      TurnKeepsInv(w, sys, turns[0]);
      TurnLowersTotal(w, sys, turns[0]);
      RunKeepsInv(w, After(sys, turns[0]), turns[1..]);
    }
  }

  lemma {:induction false} StartTotal(w: World, server: Server, clients: seq<Store>)
    requires forall s :: s in clients ==> Weight(w, server, s) == |w.edits| + 2
    ensures Total(w, server, clients) == |clients| * (|w.edits| + 2)
  {
    if clients != [] {
      assert clients[0] in clients;
      StartTotal(w, server, clients[1..]);
      assert |clients| * (|w.edits| + 2) == |clients[1..]| * (|w.edits| + 2) + (|w.edits| + 2);
    }
  }

  /**
   * Guarded last-write-wins converges. From any start, in every interleaving: at most n * (n + 2) turns move
   * anything, and every answered push of a queued edit is such a turn; once no client has an edit queued the
   * server holds one that no other edit beats.
   */
  lemma GuardedLwwConverges(w: World, sys: System, turns: seq<Turn>)
    requires Start(w, sys) && TurnsOk(w, sys, turns)
    ensures var end := AfterAll(sys, turns);
            && CountMoves(sys, turns) <= |w.edits| * (|w.edits| + 2)
            && |end.clients| == |w.edits|
            && (w.edits != [] && (forall i :: 0 <= i < |end.clients| ==> end.clients[i].mutations == []) ==>
                  && w.id in end.server.objects
                  && !end.server.objects[w.id].isDeleted
                  && end.server.objects[w.id].envelope in w.edits
                  && forall e :: e in w.edits ==>
                       Opens(w, e) && Opens(w, Held(w, end.server)) && !Beats(w, e, Held(w, end.server)))
  {
    StartIsInv(w, sys);
    RunKeepsInv(w, sys, turns);
    assert forall s :: s in sys.clients ==> Weight(w, sys.server, s) == |w.edits| + 2;
    StartTotal(w, sys.server, sys.clients);
    var end := AfterAll(sys, turns);
    if w.edits != [] && forall i :: 0 <= i < |end.clients| ==> end.clients[i].mutations == [] {
      assert ClientOk(w, end.server, end.clients[0], w.edits[0]);
      forall e | e in w.edits ensures !Beats(w, e, Held(w, end.server)) {
        var i :| 0 <= i < |w.edits| && w.edits[i] == e;
        assert ClientOk(w, end.server, end.clients[i], w.edits[i]);
      }
    }
  }

  /** With pairwise distinct (timestamp, ciphertext) that edit is the single greatest one. */
  lemma GreatestIsUnique(w: World, a: Envelope, b: Envelope)
    requires a in w.edits && b in w.edits && Opens(w, a) && Opens(w, b)
    requires forall e :: e in w.edits ==> Opens(w, e)
    requires forall e :: e in w.edits ==> !Beats(w, e, a) && !Beats(w, e, b)
    ensures w.key(a).value.updatedAt == w.key(b).value.updatedAt && a.payload.ciphertext == b.payload.ciphertext
  {
    LessIsTotal(w.key(a).value.updatedAt, w.key(b).value.updatedAt);
    LessIsTotal(a.payload.ciphertext, b.payload.ciphertext);
  }

  /** No two different edits share both timestamp and ciphertext. */
  ghost predicate DistinctEdits(w: World) {
    forall a, b :: a in w.edits && b in w.edits && a != b && Opens(w, a) && Opens(w, b) ==>
      w.key(a).value.updatedAt != w.key(b).value.updatedAt || a.payload.ciphertext != b.payload.ciphertext
  }

  /** With distinct edits, every interleaving that comes to rest leaves the server with the greatest of them. */
  lemma GreatestEditWins(w: World, sys: System, turns: seq<Turn>)
    requires Start(w, sys) && TurnsOk(w, sys, turns) && w.edits != [] && DistinctEdits(w)
    requires forall i :: 0 <= i < |AfterAll(sys, turns).clients| ==> AfterAll(sys, turns).clients[i].mutations == []
    ensures w.id in AfterAll(sys, turns).server.objects
    ensures var winner := AfterAll(sys, turns).server.objects[w.id].envelope;
            winner in w.edits && forall e :: e in w.edits && e != winner ==>
              Opens(w, e) && Opens(w, winner) && Beats(w, winner, e)
  {
    GuardedLwwConverges(w, sys, turns);
    var winner := AfterAll(sys, turns).server.objects[w.id].envelope;
    forall e | e in w.edits && e != winner ensures Opens(w, e) && Opens(w, winner) && Beats(w, winner, e) {
      LessIsTotal(w.key(e).value.updatedAt, w.key(winner).value.updatedAt);
      LessIsTotal(e.payload.ciphertext, winner.payload.ciphertext);
    }
  }

  // ---------------------------------------------------------------- automatic steps never undo a delete

  /** Every queued mutation of `id` expects a revision before `k`. */
  ghost predicate OnlyStale(s: Store, id: string, k: nat) {
    forall q :: q in s.mutations && q.objectId == id ==> q.expectedRevision < k
  }

  /** The server holds `id` deleted at revision `k`, and every client's queue was written before that. */
  ghost predicate DeleteStands(sys: System, id: string, k: nat) {
    && sys.server.failNext.None?
    && id in sys.server.objects && sys.server.objects[id].isDeleted && sys.server.objects[id].revision == k
    && forall i :: 0 <= i < |sys.clients| ==> OnlyStale(sys.clients[i], id, k)
  }

  lemma MarkedStaysStale(s: Store, m: PendingMutation, status: MutationStatus, retries: nat, id: string, k: nat)
    requires OnlyStale(s, id, k)
    ensures OnlyStale(Marked(s, m, status, retries), id, k)
  {
    StatusKeepsTheRest(s.mutations, m, status, retries);
    var s' := Marked(s, m, status, retries);
    forall q | q in s'.mutations && q.objectId == id ensures q.expectedRevision < k {
      var i :| 0 <= i < |s'.mutations| && s'.mutations[i] == q;
      assert s.mutations[i] in s.mutations;
    }
  }

  lemma HandledStaysStale(s: Store, m: PendingMutation, outcome: Outcome<PushResponse>, a: Attempt, id: string, k: nat)
    requires OnlyStale(s, id, k)
    requires m.objectId == id && outcome.Err? && outcome.error.Conflict? ==> outcome.error.response.isDeleted
    ensures OnlyStale(Handled(s, m, outcome, a), id, k)
  {
    DropIdsMembers(s.mutations, {m.mutationId});
    WithoutMembers(s.mutations, m.objectId);
    MarkedStaysStale(s, m, Pending, m.retryCount + 1, id, k);
    MarkedStaysStale(s, m, Failed, m.retryCount + 1, id, k);
  }

  lemma TurnKeepsTheDelete(sys: System, t: Turn, id: string, k: nat)
    requires DeleteStands(sys, id, k)
    ensures DeleteStands(After(sys, t), id, k)
    ensures After(sys, t).server.objects[id] == sys.server.objects[id]
  {
    if Enabled(sys, t) {
      var s, m := sys.clients[t.client], Mover(sys, t);
      assert OnlyStale(s, id, k);
      assert m in s.mutations;
      MarkedStaysStale(s, m, InFlight, m.retryCount + 1, id, k);
      HandledStaysStale(InFlightStore(s, m), m, Answer(sys, t), t.attempt, id, k);
    }
  }

  /**
   * No silent resurrection: whatever the clients' queues and policies, turns alone (pushes, lost answers,
   * replays, last-write-wins, recorded conflicts) leave a delete they did not know of in place.
   */
  lemma {:induction false} AutomaticTurnsKeepTheDelete(sys: System, turns: seq<Turn>, id: string, k: nat)
    requires DeleteStands(sys, id, k)
    ensures DeleteStands(AfterAll(sys, turns), id, k)
    ensures AfterAll(sys, turns).server.objects[id] == sys.server.objects[id]
    decreases |turns|
  {
    if turns != [] {
      TurnKeepsTheDelete(sys, turns[0], id, k);
      AutomaticTurnsKeepTheDelete(After(sys, turns[0]), turns[1..], id, k);
    }
  }
}
