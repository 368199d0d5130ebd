/**
 * The compare-and-swap sync server and every run of it.
 *
 * `Server` is the state of the in-memory adapter, `Push` its decision as a function, and `Adapter`
 * the mutable object that is proved to follow it. A run is a list of events from the empty server;
 * `AcceptedLog` lists the pushes that changed it.
 */
module SyncServer {
  import opened Text
  import opened Protocol

  datatype Server = Server(
    objects: map<string, ObjectChange>,
    counter: nat,
    processed: map<string, (PushRequest, PushResponse)>,
    failNext: Option<NetworkError>)

  const EMPTY_SERVER := Server(map[], 0, map[], None)

  datatype Step<+T> = Step(server: Server, outcome: Outcome<T>)

  function CurrentRevision(s: Server, id: string): nat {
    if id in s.objects then s.objects[id].revision else 0
  }

  /** The fields that decide whether a reused mutation id is the same request. */
  predicate SameRequest(a: PushRequest, b: PushRequest) {
    && a.objectId == b.objectId
    && a.expectedRevision == b.expectedRevision
    && a.isDeleted == b.isDeleted
    && a.envelope == b.envelope
  }

  /** A push that is neither failed, replayed nor refused. */
  predicate IsFresh(s: Server, req: PushRequest) {
    && s.failNext.None?
    && req.mutationId !in s.processed
    && req.expectedRevision == CurrentRevision(s, req.objectId)
  }

  function ConflictFor(s: Server, req: PushRequest): ConflictResponse {
    if req.objectId in s.objects then
      var c := s.objects[req.objectId];
      ConflictResponse(req.objectId, req.expectedRevision, c.revision, c.serverSeq, c.envelope, c.isDeleted)
    else
      ConflictResponse(req.objectId, req.expectedRevision, 0, 0,
        Envelope(ENVELOPE_VERSION_V1, req.objectId, req.objectKind, Container("", ""), Container("", "")), false)
  }

  function ChangeFor(req: PushRequest, resp: PushResponse): ObjectChange {
    ObjectChange(resp.serverSeq, req.objectId, resp.revision, req.objectKind, req.isDeleted, req.envelope)
  }

  function Push(s: Server, req: PushRequest): Step<PushResponse> {
    if s.failNext.Some? then
      Step(s.(failNext := None), Err(s.failNext.value))
    else if req.mutationId in s.processed then
      var (previous, response) := s.processed[req.mutationId];
      Step(s, if SameRequest(previous, req) then Ok(response) else Err(ReplayMismatch))
    else if req.expectedRevision != CurrentRevision(s, req.objectId) then
      Step(s, Err(Conflict(ConflictFor(s, req))))
    else
      var resp := PushResponse(req.objectId, req.expectedRevision + 1, s.counter + 1);
      Step(Server(s.objects[req.objectId := ChangeFor(req, resp)], s.counter + 1,
                  s.processed[req.mutationId := (req, resp)], None),
           Ok(resp))
  }

  // ---------------------------------------------------------------- runs

  datatype Event =
    | PushEvent(req: PushRequest)
    | PullEvent
    | SetFailNext(failure: Option<NetworkError>)

  function Next(s: Server, e: Event): Server {
    match e
    case PushEvent(req) => Push(s, req).server
    case PullEvent => s.(failNext := None)
    case SetFailNext(failure) => s.(failNext := failure)
  }

  /** The state after `events`, the first of them happening in `s`. */
  function Run(s: Server, events: seq<Event>): Server
    decreases |events|
  {
    if events == [] then s else Run(Next(s, events[0]), events[1..])
  }

  datatype Entry = Entry(req: PushRequest, resp: PushResponse)

  function Logged(s: Server, e: Event): seq<Entry> {
    if e.PushEvent? && IsFresh(s, e.req) then [Entry(e.req, Push(s, e.req).outcome.value)] else []
  }

  /** The accepted pushes of a run in order; replays and refusals leave no entry. */
  function AcceptedLog(s: Server, events: seq<Event>): seq<Entry>
    decreases |events|
  {
    if events == [] then [] else Logged(s, events[0]) + AcceptedLog(Next(s, events[0]), events[1..])
  }

  lemma {:induction false} RunOfConcat(s: Server, xs: seq<Event>, ys: seq<Event>)
    ensures Run(s, xs + ys) == Run(Run(s, xs), ys)
    ensures AcceptedLog(s, xs + ys) == AcceptedLog(s, xs) + AcceptedLog(Run(s, xs), ys)
    decreases |xs|
  {
    if xs == [] {
      assert xs + ys == ys;
    } else {
      assert (xs + ys)[1..] == xs[1..] + ys;
      RunOfConcat(Next(s, xs[0]), xs[1..], ys);
    }
  }

  // ---------------------------------------------------------------- what a log says about the server

  /** How many of the logged pushes wrote object `id`. */
  function CountFor(log: seq<Entry>, id: string): nat {
    if log == [] then 0
    else CountFor(log[..|log| - 1], id) + if log[|log| - 1].req.objectId == id then 1 else 0
  }

  lemma CountStep(log: seq<Entry>, i: nat, id: string)
    requires i < |log|
    ensures CountFor(log[..i + 1], id) == CountFor(log[..i], id) + if log[i].req.objectId == id then 1 else 0
  {
    assert log[..i + 1][..i] == log[..i];
  }

  lemma {:induction false} CountIsMonotone(log: seq<Entry>, i: nat, j: nat, id: string)
    requires i <= j <= |log|
    ensures CountFor(log[..i], id) <= CountFor(log[..j], id)
    decreases j
  {
    if i < j {
      CountIsMonotone(log, i, j - 1, id);
      CountStep(log, j - 1, id);
    }
  }

  lemma CountGrows(log: seq<Entry>, i: nat, j: nat, id: string)
    requires i < j <= |log| && log[i].req.objectId == id
    ensures CountFor(log[..i], id) < CountFor(log[..j], id)
  {
    CountStep(log, i, id);
    CountIsMonotone(log, i + 1, j, id);
  }

  /** Entry `i` of the log is the compare-and-swap write number `i + 1` of the account. */
  ghost predicate EntryFits(log: seq<Entry>, i: nat)
    requires i < |log|
  {
    var id := log[i].req.objectId;
    && log[i].req.expectedRevision == CountFor(log[..i], id)
    && log[i].resp == PushResponse(id, CountFor(log[..i], id) + 1, i + 1)
  }

  ghost predicate EntriesFit(log: seq<Entry>) {
    forall i :: 0 <= i < |log| ==> EntryFits(log, i)
  }

  /** Object `id` is the last logged write of it, and its revision counts those writes. */
  ghost predicate ObjectFits(objects: map<string, ObjectChange>, log: seq<Entry>, id: string) {
    if id in objects then
      var c := objects[id];
      && 1 <= c.serverSeq <= |log|
      && c.objectId == id
      && c == ChangeFor(log[c.serverSeq - 1].req, log[c.serverSeq - 1].resp)
      && c.revision == CountFor(log, id) > 0
    else CountFor(log, id) == 0
  }

  ghost predicate ObjectsFit(objects: map<string, ObjectChange>, log: seq<Entry>) {
    forall id :: ObjectFits(objects, log, id)
  }

  predicate Recorded(processed: map<string, (PushRequest, PushResponse)>, e: Entry) {
    e.req.mutationId in processed && processed[e.req.mutationId] == (e.req, e.resp)
  }

  predicate Found(log: seq<Entry>, m: string, answered: (PushRequest, PushResponse)) {
    && answered.0.mutationId == m
    && 1 <= answered.1.serverSeq <= |log|
    && log[answered.1.serverSeq - 1] == Entry(answered.0, answered.1)
  }

  /** The processed table holds exactly the logged requests with their responses. */
  ghost predicate ProcessedFits(processed: map<string, (PushRequest, PushResponse)>, log: seq<Entry>) {
    && (forall i :: 0 <= i < |log| ==> Recorded(processed, log[i]))
    && (forall m :: m in processed ==> Found(log, m, processed[m]))
  }

  /** The whole server state is accounted for by the log of accepted pushes. */
  ghost predicate Explains(s: Server, log: seq<Entry>) {
    && s.counter == |log|
    && EntriesFit(log)
    && ObjectsFit(s.objects, log)
    && ProcessedFits(s.processed, log)
  }

  lemma CountOfExtended(log: seq<Entry>, e: Entry, id: string)
    ensures CountFor(log + [e], id) == CountFor(log, id) + (if e.req.objectId == id then 1 else 0)
  {
    assert (log + [e])[..|log|] == log;
  }

  lemma EntriesStillFit(log: seq<Entry>, e: Entry)
    requires EntriesFit(log)
    requires var n := CountFor(log, e.req.objectId);
             && e.req.expectedRevision == n
             && e.resp == PushResponse(e.req.objectId, n + 1, |log| + 1)
    ensures EntriesFit(log + [e])
  {
    forall i | 0 <= i < |log + [e]| ensures EntryFits(log + [e], i) {
      assert (log + [e])[..i] == log[..i];
      if i < |log| {
        assert EntryFits(log, i);
      } else {
        assert log[..i] == log;
      }
    }
  }

  lemma ObjectsStillFit(objects: map<string, ObjectChange>, log: seq<Entry>, e: Entry)
    requires ObjectsFit(objects, log)
    requires e.resp == PushResponse(e.req.objectId, CountFor(log, e.req.objectId) + 1, |log| + 1)
    ensures ObjectsFit(objects[e.req.objectId := ChangeFor(e.req, e.resp)], log + [e])
  {
    var objects' := objects[e.req.objectId := ChangeFor(e.req, e.resp)];
    forall id ensures ObjectFits(objects', log + [e], id) {
      CountOfExtended(log, e, id);
      assert ObjectFits(objects, log, id);
    }
  }

  lemma ProcessedStillFits(processed: map<string, (PushRequest, PushResponse)>, log: seq<Entry>, e: Entry)
    requires ProcessedFits(processed, log)
    requires e.req.mutationId !in processed && e.resp.serverSeq == |log| + 1
    ensures ProcessedFits(processed[e.req.mutationId := (e.req, e.resp)], log + [e])
  {
    var processed', log' := processed[e.req.mutationId := (e.req, e.resp)], log + [e];
    forall i | 0 <= i < |log'| ensures Recorded(processed', log'[i]) {
      assert i < |log| ==> log'[i] == log[i] && Recorded(processed, log[i]);
    }
    forall m | m in processed' ensures Found(log', m, processed'[m]) {
      assert m != e.req.mutationId ==> Found(log, m, processed[m]);
    }
  }

  lemma FreshPushExtendsLog(s: Server, log: seq<Entry>, req: PushRequest)
    requires Explains(s, log) && IsFresh(s, req)
    ensures Explains(Push(s, req).server, log + [Entry(req, Push(s, req).outcome.value)])
  {
    var e := Entry(req, Push(s, req).outcome.value);
    assert ObjectFits(s.objects, log, req.objectId);
    EntriesStillFit(log, e);
    ObjectsStillFit(s.objects, log, e);
    ProcessedStillFits(s.processed, log, e);
  }

  lemma EventKeepsExplanation(s: Server, log: seq<Entry>, e: Event)
    requires Explains(s, log)
    ensures Explains(Next(s, e), log + Logged(s, e))
  {
    if e.PushEvent? && IsFresh(s, e.req) {
      FreshPushExtendsLog(s, log, e.req);
    } else {
      assert log + Logged(s, e) == log;
    }
  }

  lemma {:induction false} RunKeepsExplanation(s: Server, log: seq<Entry>, events: seq<Event>)
    requires Explains(s, log)
    ensures Explains(Run(s, events), log + AcceptedLog(s, events))
    decreases |events|
  {
    if events == [] {
      assert log + AcceptedLog(s, events) == log;
    } else {
      EventKeepsExplanation(s, log, events[0]);
      RunKeepsExplanation(Next(s, events[0]), log + Logged(s, events[0]), events[1..]);
      assert log + AcceptedLog(s, events)
          == (log + Logged(s, events[0])) + AcceptedLog(Next(s, events[0]), events[1..]);
    }
  }

  /**
   * In every run the counter is the number of accepted pushes, their sequences are 1..n in order, every
   * object's revision is its number of accepted pushes, and its value is the last of them.
   */
  lemma RunIsExplained(events: seq<Event>)
    ensures Explains(Run(EMPTY_SERVER, events), AcceptedLog(EMPTY_SERVER, events))
  {
    RunKeepsExplanation(EMPTY_SERVER, [], events);
    assert [] + AcceptedLog(EMPTY_SERVER, events) == AcceptedLog(EMPTY_SERVER, events);
  }

  // ---------------------------------------------------------------- no lost update

  lemma {:induction false} CountOfOtherObjects(log: seq<Entry>, i: nat, j: nat, id: string)
    requires i <= j <= |log|
    requires forall k :: i <= k < j ==> log[k].req.objectId != id
    ensures CountFor(log[..j], id) == CountFor(log[..i], id)
    decreases j
  {
    if i < j {
      assert log[..j][..j - 1] == log[..j - 1];
      CountOfOtherObjects(log, i, j - 1, id);
    }
  }

  /** Two consecutive accepted writes of one object: the later was based on what the earlier left. */
  lemma NoUpdateIsLost(events: seq<Event>, i: nat, j: nat)
    requires i < j < |AcceptedLog(EMPTY_SERVER, events)|
    requires var log := AcceptedLog(EMPTY_SERVER, events);
             && log[j].req.objectId == log[i].req.objectId
             && forall k :: i < k < j ==> log[k].req.objectId != log[i].req.objectId
    ensures var log := AcceptedLog(EMPTY_SERVER, events);
            && log[j].req.expectedRevision == log[i].resp.revision
            && log[j].resp.revision == log[i].resp.revision + 1
  {
    RunIsExplained(events);
    var log := AcceptedLog(EMPTY_SERVER, events);
    var id := log[i].req.objectId;
    assert EntryFits(log, i) && EntryFits(log, j);
    assert log[..i + 1][..i] == log[..i];
    CountOfOtherObjects(log, i + 1, j, id);
  }

  // ---------------------------------------------------------------- exactly once

  /**
   * Resending a request that some earlier part of the run accepted: the original response, no change.
   * A reused id with another object, revision, deletion flag or envelope: refused, no change.
   * `objectKind` is not part of that comparison.
   */
  lemma ResendIsAnsweredOnce(events: seq<Event>, i: nat, again: PushRequest)
    requires i < |AcceptedLog(EMPTY_SERVER, events)|
    requires Run(EMPTY_SERVER, events).failNext.None?
    requires again.mutationId == AcceptedLog(EMPTY_SERVER, events)[i].req.mutationId
    ensures Push(Run(EMPTY_SERVER, events), again).server == Run(EMPTY_SERVER, events)
    ensures var first := AcceptedLog(EMPTY_SERVER, events)[i];
            Push(Run(EMPTY_SERVER, events), again).outcome
              == if SameRequest(first.req, again) then Ok(first.resp) else Err(ReplayMismatch)
  {
    RunIsExplained(events);
    assert Recorded(Run(EMPTY_SERVER, events).processed, AcceptedLog(EMPTY_SERVER, events)[i]);
  }

  /** `noise` lists, for each prefix of the history, the requests resent right after it. */
  function WithDuplicates(history: seq<Event>, noise: seq<seq<PushRequest>>): seq<Event>
    requires |noise| == |history|
  {
    if history == [] then []
    else [history[0]] + Resends(noise[0]) + WithDuplicates(history[1..], noise[1..])
  }

  function Resends(requests: seq<PushRequest>): seq<Event> {
    seq(|requests|, i requires 0 <= i < |requests| => PushEvent(requests[i]))
  }

  /** Each resent request was accepted before, and the adapter is not about to inject a failure. */
  ghost predicate OnlyResends(s: Server, requests: seq<PushRequest>) {
    requests != [] ==>
      && s.failNext.None?
      && forall r :: r in requests ==>
           r.mutationId in s.processed && SameRequest(s.processed[r.mutationId].0, r)
  }

  ghost predicate NoiseIsResends(s: Server, history: seq<Event>, noise: seq<seq<PushRequest>>)
    requires |noise| == |history|
    decreases |history|
  {
    history != [] ==>
      var s' := Next(s, history[0]);
      OnlyResends(s', noise[0]) && NoiseIsResends(s', history[1..], noise[1..])
  }

  lemma {:induction false} ResendsChangeNothing(s: Server, requests: seq<PushRequest>)
    requires OnlyResends(s, requests)
    ensures Run(s, Resends(requests)) == s && AcceptedLog(s, Resends(requests)) == []
    decreases |requests|
  {
    if requests != [] {
      assert requests[0] in requests;
      assert Resends(requests)[1..] == Resends(requests[1..]);
      ResendsChangeNothing(s, requests[1..]);
    }
  }

  /** Exactly once: a history with any duplicates inserted after first acceptance ends in the same state. */
  lemma {:induction false} DuplicatesAreInvisible(s: Server, history: seq<Event>, noise: seq<seq<PushRequest>>)
    requires |noise| == |history|
    requires NoiseIsResends(s, history, noise)
    ensures Run(s, WithDuplicates(history, noise)) == Run(s, history)
    ensures AcceptedLog(s, WithDuplicates(history, noise)) == AcceptedLog(s, history)
    decreases |history|
  {
    if history != [] {
      var s', e := Next(s, history[0]), history[0];
      var rest := WithDuplicates(history[1..], noise[1..]);
      ResendsChangeNothing(s', noise[0]);
      DuplicatesAreInvisible(s', history[1..], noise[1..]);
      ResendsAfterEvent(s, e, Resends(noise[0]), rest, history[1..]);
      assert WithDuplicates(history, noise) == [e] + (Resends(noise[0]) + rest);
      assert history == [e] + history[1..];
    }
  }

  lemma ResendsAfterEvent(s: Server, e: Event, resends: seq<Event>, rest: seq<Event>, tail: seq<Event>)
    requires Run(Next(s, e), resends) == Next(s, e) && AcceptedLog(Next(s, e), resends) == []
    requires Run(Next(s, e), rest) == Run(Next(s, e), tail)
    requires AcceptedLog(Next(s, e), rest) == AcceptedLog(Next(s, e), tail)
    ensures Run(s, [e] + (resends + rest)) == Run(s, [e] + tail)
    ensures AcceptedLog(s, [e] + (resends + rest)) == AcceptedLog(s, [e] + tail)
  {
    RunOfConcat(Next(s, e), resends, rest);
    OneMoreEvent(s, e, resends + rest);
    OneMoreEvent(s, e, tail);
  }

  lemma OneMoreEvent(s: Server, e: Event, events: seq<Event>)
    ensures Run(s, [e] + events) == Run(Next(s, e), events)
    ensures AcceptedLog(s, [e] + events) == Logged(s, e) + AcceptedLog(Next(s, e), events)
  {
    assert ([e] + events)[1..] == events;
  }

  // ---------------------------------------------------------------- deletions

  lemma RevisionsGrow(log: seq<Entry>, q: nat, k: nat)
    requires q < k < |log| && log[q].req.objectId == log[k].req.objectId
    requires EntryFits(log, q) && EntryFits(log, k)
    ensures log[q].resp.revision < log[k].resp.revision <= CountFor(log, log[k].req.objectId)
  {
    var id := log[k].req.objectId;
    CountGrows(log, q, k, id);
    CountGrows(log, k, |log|, id);
    assert log[..|log|] == log;
  }

  /** The stored object is the last logged write of it. */
  lemma NothingWrittenSince(s: Server, log: seq<Entry>, id: string, k: nat)
    requires EntriesFit(log) && ObjectFits(s.objects, log, id) && id in s.objects
    requires k < |log| && log[k].req.objectId == id
    ensures k < s.objects[id].serverSeq
  {
    var q := s.objects[id].serverSeq - 1;
    if q < k {
      assert EntryFits(log, q) && EntryFits(log, k);
      RevisionsGrow(log, q, k);
    }
  }

  /**
   * No silent resurrection: if some prefix of a run leaves `id` deleted at revision `k` and the whole run
   * leaves it live, the live version was written by a push that expected revision `k` or a later one.
   */
  lemma ResurrectionSawTheDelete(before: seq<Event>, after: seq<Event>, id: string)
    requires id in Run(EMPTY_SERVER, before).objects && Run(EMPTY_SERVER, before).objects[id].isDeleted
    requires id in Run(EMPTY_SERVER, before + after).objects && !Run(EMPTY_SERVER, before + after).objects[id].isDeleted
    ensures var live := Run(EMPTY_SERVER, before + after).objects[id];
            var log := AcceptedLog(EMPTY_SERVER, before + after);
            && |AcceptedLog(EMPTY_SERVER, before)| < live.serverSeq <= |log|
            && live == ChangeFor(log[live.serverSeq - 1].req, log[live.serverSeq - 1].resp)
            && log[live.serverSeq - 1].req.expectedRevision >= Run(EMPTY_SERVER, before).objects[id].revision
  {
    LogGrows(before, after);
    RunExplainsObject(before, id);
    RunExplainsObject(before + after, id);
    LiveVersionIsNew(Run(EMPTY_SERVER, before), AcceptedLog(EMPTY_SERVER, before), Run(EMPTY_SERVER, before + after),
                     AcceptedLog(EMPTY_SERVER, before + after), id);
  }

  lemma LogGrows(before: seq<Event>, after: seq<Event>)
    ensures AcceptedLog(EMPTY_SERVER, before) <= AcceptedLog(EMPTY_SERVER, before + after)
  {
    RunOfConcat(EMPTY_SERVER, before, after);
  }

  lemma RunExplainsObject(events: seq<Event>, id: string)
    ensures EntriesFit(AcceptedLog(EMPTY_SERVER, events))
    ensures ObjectFits(Run(EMPTY_SERVER, events).objects, AcceptedLog(EMPTY_SERVER, events), id)
  {
    RunIsExplained(events);
  }

  lemma LiveVersionIsNew(s: Server, log: seq<Entry>, s': Server, log': seq<Entry>, id: string)
    requires EntriesFit(log) && ObjectFits(s.objects, log, id) && id in s.objects && s.objects[id].isDeleted
    requires EntriesFit(log') && ObjectFits(s'.objects, log', id) && id in s'.objects && !s'.objects[id].isDeleted
    requires log <= log'
    ensures |log| < s'.objects[id].serverSeq
    ensures log'[s'.objects[id].serverSeq - 1].req.expectedRevision >= s.objects[id].revision
  {
    var q, d := s'.objects[id].serverSeq - 1, s.objects[id].serverSeq - 1;
    assert log[d] == log'[d] && log'[d].req.isDeleted && !log'[q].req.isDeleted;
    if q < |log| {
      assert log[q] == log'[q];
      NothingWrittenSince(s, log, id, q);
      NothingWrittenSince(s', log', id, d);
      assert false;
    }
    assert EntryFits(log', q);
    assert log'[..|log|] == log;
    CountIsMonotone(log', |log|, q, id);
  }

  // ---------------------------------------------------------------- the mutable adapter

  class Adapter {
    var objects: map<string, ObjectChange>
    var counter: nat
    var processed: map<string, (PushRequest, PushResponse)>
    var failNext: Option<NetworkError>

    constructor ()
      ensures View() == EMPTY_SERVER
    {
      objects, counter, processed, failNext := map[], 0, map[], None;
    }

    ghost function View(): Server
      reads this
    {
      Server(objects, counter, processed, failNext)
    }

    method SetFailure(failure: Option<NetworkError>)
      modifies this
      ensures View() == Next(old(View()), SetFailNext(failure))
    {
      failNext := failure;
    }

    method PushMutation(request: PushRequest) returns (outcome: Outcome<PushResponse>)
      modifies this
      ensures Step(View(), outcome) == Push(old(View()), request)
    {
      if failNext.Some? {
        outcome := Err(failNext.value);
        failNext := None;
        return;
      }
      if request.mutationId in processed {
        var (previous, response) := processed[request.mutationId];
        if SameRequest(previous, request) {
          return Ok(response);
        } else {
          return Err(ReplayMismatch);
        }
      }
      var current := 0;
      if request.objectId in objects {
        current := objects[request.objectId].revision;
      }
      if request.expectedRevision != current {
        return Err(Conflict(ConflictFor(Server(objects, counter, processed, failNext), request)));
      }
      counter := counter + 1;
      var response := PushResponse(request.objectId, current + 1, counter);
      objects := objects[request.objectId := ChangeFor(request, response)];
      processed := processed[request.mutationId := (request, response)];
      outcome := Ok(response);
    }
  }
}
