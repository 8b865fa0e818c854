// Client, network and server together: exactly-once commands under loss, duplication, delay, reload, retry and restart.
module Protocol {
  import opened Basics
  import opened Service
  import opened Registry
  import opened Client
  import Replay

  datatype Exchange = Exchange(request: Pending, answer: Answer)

  /**
   * Everything ever sent stays deliverable, so one set models delay, duplication and reordering;
   * a request never delivered, or an answer never heard, is a loss. A restart empties the registry.
   */
  datatype World = World(
    records: Records,
    instance: Id,
    used: set<Id>,
    client: ClientState,
    sent: set<Pending>,
    answers: set<Exchange>,
    settled: map<Pending, Outcome>,
    abandoned: set<Pending>)

  datatype Move =
    | Acting(actionId: Id, commandId: Id, stored: bool)
    | Creating(creationId: Id, creation: CreateRequest, stored: bool)
    | Closing(stored: bool)
    | Retrying
    | Loading
    | Delivering(request: Pending, candidates: seq<Id>)
    | Listening(request: Pending, answer: Answer, read: ReadBack, stored: bool)
    | Seeing(sessionId: Id)
    | FindingNone
    | StartingOver(stored: bool)
    | Restarting(instance: Id)

  function ServiceOf(records: Records, sessionId: Id): Option<Record> {
    var i := IndexOf(records, sessionId);
    if i == |records| then None else Some(records[i].service)
  }

  function OpOf(request: Pending, candidates: seq<Id>): RegistryOp {
    match request
    case PendingCreate(creationId, r) => CreateOp(creationId, r, candidates)
    case PendingAction(sessionId, q) => ActionOp(sessionId, q)
    case PendingClose(sessionId) => EndOp(sessionId)
  }

  /** The server's answer to a delivered request. */
  function AnswerTo(p: Platform, records: Records, request: Pending, candidates: seq<Id>): Answer
    requires |candidates| <= MAX_RANDOM_ID_ATTEMPTS
  {
    match request
    case PendingCreate(creationId, r) =>
      var created := CreateOn(p, records, creationId, r, candidates).answer;
      if created.Ok? then CreatedOk(created.value) else Failure(created.error)
    case PendingAction(sessionId, q) =>
      var acted := ActSession(p, records, sessionId, q).answer;
      if acted.Ok? then ViewOk(acted.value) else Failure(acted.error)
    case PendingClose(sessionId) =>
      if IndexOf(records, sessionId) == |records| then Failure(UnknownSession) else ClosedOk
  }

  /** The world after the client may have sent a request. */
  function AfterSending(w: World, s: Sending): World {
    w.(client := s.client, sent := w.sent + if s.sent.Some? then {s.sent.value} else {})
  }

  /** What a read of the current view can return: the view of an open session, or some failure. */
  predicate Readable(records: Records, read: ReadBack) {
    read.ReadOk? ==>
      var r := ServiceOf(records, read.shown.sessionId); r.Some? && !r.value.closed && read.shown.view == r.value.view
  }

  /** One step; a move that is not possible changes nothing. */
  function Step(p: Platform, w: World, move: Move): World {
    match move
    case Acting(actionId, commandId, stored) => AfterSending(w, Acts(w.client, actionId, commandId, stored))
    case Creating(creationId, creation, stored) => AfterSending(w, Creates(w.client, creationId, creation, stored))
    case Closing(stored) => AfterSending(w, Closes(w.client, stored))
    case Retrying => AfterSending(w, Retries(w.client))
    case Loading => AfterSending(w, Boots(w.client, w.instance))
    case Delivering(request, candidates) =>
      if request in w.sent && |candidates| <= MAX_RANDOM_ID_ATTEMPTS && (forall id <- candidates :: id !in w.used)
      then w.(
        records := Apply(p, w.records, OpOf(request, candidates)),
        used := w.used + (set id <- candidates),
        answers := w.answers + {Exchange(request, AnswerTo(p, w.records, request, candidates))})
      else w
    case Listening(request, answer, read, stored) =>
      if (Exchange(request, answer) in w.answers || answer.Lost?) && Readable(w.records, read) then
        var h := Hears(w.client, request, answer, read, stored);
        w.(client := h.client,
           settled := if h.outcome.Some? then w.settled[request := h.outcome.value] else w.settled)
      else w
    case Seeing(sessionId) =>
      var r := ServiceOf(w.records, sessionId);
      if r.Some? && !r.value.closed then w.(client := Sees(w.client, Shown(sessionId, r.value.view))) else w
    case FindingNone => w.(client := FindsNone(w.client))
    case StartingOver(stored) =>
      var pending := if w.client.journal.Some? then w.client.journal.value.pending else None;
      var next := StartsOver(w.client, stored);
      w.(client := next,
         abandoned := w.abandoned + if pending.Some? && next.journal != w.client.journal then {pending.value} else {})
    case Restarting(instance) => w.(records := [], instance := instance)
  }

  function Steps(p: Platform, w: World, moves: seq<Move>): World {
    if moves == [] then w else Step(p, Steps(p, w, moves[..|moves| - 1]), moves[|moves| - 1])
  }

  predicate Initial(w: World) {
    w.records == [] && w.sent == {} && w.answers == {} && w.settled == map[] && w.abandoned == {}
    && w.client == ClientState(Booting, None, None, None)
  }

  // ---- One server operation, seen from one session ----

  lemma IndexStays(before: Records, after: Records, sessionId: Id)
    requires |before| <= |after| && forall i :: 0 <= i < |before| ==> after[i].sessionId == before[i].sessionId
    requires IndexOf(before, sessionId) < |before|
    ensures IndexOf(after, sessionId) == IndexOf(before, sessionId)
  {
    var i := IndexOf(before, sessionId);
    IndexIsFirst(after, sessionId, i);
  }

  lemma {:induction false} IndexIsFirst(records: Records, sessionId: Id, i: nat)
    requires i < |records| && records[i].sessionId == sessionId
    requires forall j :: 0 <= j < i ==> records[j].sessionId != sessionId
    ensures IndexOf(records, sessionId) == i
    decreases i
  {
    if i > 0 {
      IndexIsFirst(records[1..], sessionId, i - 1);
    }
  }

  lemma ServiceSteps(p: Platform, records: Records, op: RegistryOp, sessionId: Id)
    requires ValidRecords(p, records) && ServiceOf(records, sessionId).Some?
    ensures ServiceOf(Apply(p, records, op), sessionId)
         == Some(Run(p.deployment, ServiceOf(records, sessionId).value, Projected(sessionId, op)))
  {
    hide ValidRecords, Apply, Run, Projected;
    var after := Apply(p, records, op);
    forall i | 0 <= i < |records| ensures i < |after| && after[i].sessionId == records[i].sessionId {
      ApplyKeepsRecord(p, records, op, i);
    }
    var i := IndexOf(records, sessionId);
    ApplyKeepsRecord(p, records, op, i);
    ApplyKeepsRecord(p, records, op, |records| - 1);
    IndexStays(records, after, sessionId);
  }

  /** A session an operation brings into being carries one of the fresh identities. */
  lemma NewSessionIsFresh(p: Platform, records: Records, op: RegistryOp, sessionId: Id)
    requires ServiceOf(records, sessionId).None? && ServiceOf(Apply(p, records, op), sessionId).Some?
    ensures op.CreateOp? && sessionId in op.candidates
    ensures ServiceOf(Apply(p, records, op), sessionId).value.ledger == []
  {
    hide ActOn, Replay.ResumedPlayer, Replay.SessionOf, ViewOf;
    var after := Apply(p, records, op);
    var i := IndexOf(after, sessionId);
    assert after[i].sessionId == sessionId;
    NotThere(records, sessionId);
    if op.CreateOp? {
      FreshFromCandidates(records, op.candidates);
    }
  }

  lemma {:induction false} NotThere(records: Records, sessionId: Id)
    requires IndexOf(records, sessionId) == |records|
    ensures forall i :: 0 <= i < |records| ==> records[i].sessionId != sessionId
    decreases |records|
  {
    if records != [] {
      NotThere(records[1..], sessionId);
      assert forall i :: 0 < i < |records| ==> records[i] == records[1..][i - 1];
    }
  }

  lemma {:induction false} FreshFromCandidates(records: Records, candidates: seq<Id>)
    ensures FreshId(records, candidates).Some? ==> FreshId(records, candidates).value in candidates
    decreases |candidates|
  {
    if candidates != [] {
      FreshFromCandidates(records, candidates[1..]);
    }
  }

  // ---- The invariant ----

  /** No other request sent to the session could be taken for this one. */
  predicate Unconfused(p: Platform, sent: set<Pending>, sessionId: Id, q: ActionRequest) {
    forall request <- sent ::
      request.PendingAction? && request.sessionId == sessionId ==> !Confusable(p.deployment, request.action, q)
  }

  /** No one has seen more of a live session than it has done. */
  predicate Seen(records: Records, used: set<Id>, sessionId: Id, revision: nat) {
    sessionId in used
    && (ServiceOf(records, sessionId).Some? ==> revision <= Revision(ServiceOf(records, sessionId).value))
  }

  /** What an answer to an action says about the session, for as long as the server instance lives. */
  predicate AnswerHolds(p: Platform, records: Records, used: set<Id>, sent: set<Pending>, x: Exchange) {
    x.request.PendingAction? ==>
      var (sessionId, q) := (x.request.sessionId, x.request.action);
      var r := ServiceOf(records, sessionId);
      && sessionId in used
      && (x.answer.ViewOk? ==> r.Some? ==> Answered(p.deployment, r.value, q, x.answer.view))
      && (x.answer.Failure? ==> r.Some? && Unconfused(p, sent, sessionId, q) ==> Refused(p.deployment, r.value, q))
      && (x.answer.ViewOk? || x.answer.Failure?)
  }

  predicate SentHolds(records: Records, used: set<Id>, request: Pending) {
    request.PendingAction? ==> Seen(records, used, request.sessionId, request.action.expectedRevision)
  }

  /** The server's half: limits and ledgers, observed revisions, and what every answer still means. */
  predicate ServerHolds(p: Platform, w: World) {
    && ValidRecords(p, w.records)
    && (forall r <- w.records :: r.sessionId in w.used)
    && (forall request <- w.sent :: SentHolds(w.records, w.used, request))
    && (w.client.shown.Some? ==> Seen(w.records, w.used, w.client.shown.value.sessionId, w.client.shown.value.view.revision))
    && (forall x <- w.answers :: AnswerHolds(p, w.records, w.used, w.sent, x))
  }

  predicate Accounted(w: World, request: Pending) {
    || (w.client.journal.Some? && w.client.journal.value.pending == Some(request))
    || request in w.settled || request in w.abandoned
  }

  /** The client's half: every sent request is journaled, settled or abandoned, and outcomes come from answers. */
  predicate JournalHolds(w: World) {
    && (forall request <- w.sent :: Accounted(w, request))
    && (w.client.phase.Ready? ==> w.client.journal.None? || w.client.journal.value.pending.None?)
    && (forall request <- w.settled :: exists x <- w.answers :: x.request == request && FiledAs(x.answer, w.settled[request]))
  }

  // ---- Preservation: the server's half ----

  lemma RunIsMonotone(d: Deployment, r: Record, ops: seq<Operation>)
    requires Valid(r)
    ensures Revision(r) <= Revision(Run(d, r, ops))
  {
    AtMostOnce(d, r, ops);
  }

  lemma SeenStays(p: Platform, w: World, op: RegistryOp, used: set<Id>, sessionId: Id, revision: nat)
    requires ValidRecords(p, w.records) && Seen(w.records, w.used, sessionId, revision) && w.used <= used
    requires op.CreateOp? ==> forall id <- op.candidates :: id !in w.used
    ensures Seen(Apply(p, w.records, op), used, sessionId, revision)
  {
    hide Apply, Run, Projected;
    var r := ServiceOf(w.records, sessionId);
    if r.Some? {
      ServiceSteps(p, w.records, op, sessionId);
      ServiceIsValid(p, w.records, sessionId);
      RunIsMonotone(p.deployment, r.value, Projected(sessionId, op));
    } else if ServiceOf(Apply(p, w.records, op), sessionId).Some? {
      NewSessionIsFresh(p, w.records, op, sessionId);
    }
  }

  lemma ServiceIsValid(p: Platform, records: Records, sessionId: Id)
    requires ValidRecords(p, records) && ServiceOf(records, sessionId).Some?
    ensures Valid(ServiceOf(records, sessionId).value)
  {
    assert ValidRecord(records[IndexOf(records, sessionId)]);
  }

  lemma AnswerStays(p: Platform, w: World, op: RegistryOp, used: set<Id>, x: Exchange)
    requires ValidRecords(p, w.records) && AnswerHolds(p, w.records, w.used, w.sent, x) && w.used <= used
    requires op.CreateOp? ==> forall id <- op.candidates :: id !in w.used
    requires op.ActionOp? ==> PendingAction(op.sessionId, op.action) in w.sent
    ensures AnswerHolds(p, Apply(p, w.records, op), used, w.sent, x)
  {
    hide Apply, Run, Answered, Refused, Confusable;
    if x.request.PendingAction? {
      var (sessionId, q) := (x.request.sessionId, x.request.action);
      var r := ServiceOf(w.records, sessionId);
      if r.Some? {
        ServiceSteps(p, w.records, op, sessionId);
        if x.answer.ViewOk? {
          AcceptedIsFinal(p.deployment, r.value, q, x.answer.view, Projected(sessionId, op));
        } else if Unconfused(p, w.sent, sessionId, q) {
          RefusedIsFinal(p.deployment, r.value, q, Projected(sessionId, op));
        }
      } else if ServiceOf(Apply(p, w.records, op), sessionId).Some? {
        NewSessionIsFresh(p, w.records, op, sessionId);
      }
    }
  }

  /** Sending more only asks more of the condition. */
  lemma AnswerHoldsMore(p: Platform, records: Records, used: set<Id>, sent: set<Pending>, more: set<Pending>, x: Exchange)
    requires AnswerHolds(p, records, used, sent, x) && sent <= more
    ensures AnswerHolds(p, records, used, more, x)
  {
    hide Answered, Refused, Confusable;
  }

  /** A delivery answers truthfully: accepted means entered in the ledger, refused means refused for good. */
  lemma DeliveryAnswers(p: Platform, w: World, request: Pending, candidates: seq<Id>)
    requires ServerHolds(p, w) && request in w.sent && |candidates| <= MAX_RANDOM_ID_ATTEMPTS
    ensures AnswerHolds(p, Apply(p, w.records, OpOf(request, candidates)), w.used + (set id <- candidates), w.sent,
                        Exchange(request, AnswerTo(p, w.records, request, candidates)))
  {
    hide ActOn, Valid;
    if request.PendingAction? {
      var (sessionId, q) := (request.sessionId, request.action);
      assert SentHolds(w.records, w.used, request);
      var r := ServiceOf(w.records, sessionId);
      if r.Some? {
        var op := ActionOp(sessionId, q);
        ServiceSteps(p, w.records, op, sessionId);
        RunOne(p.deployment, r.value, ActOp(q));
        ServiceIsValid(p, w.records, sessionId);
        DeliveredTo(p.deployment, r.value, q);
      }
    }
  }

  lemma DeliveredTo(d: Deployment, r: Record, q: ActionRequest)
    requires Valid(r) && q.expectedRevision <= Revision(r)
    ensures ActOn(d, r, q).answer.Ok? ==> Answered(d, ActOn(d, r, q).record, q, ActOn(d, r, q).answer.value)
    ensures ActOn(d, r, q).answer.Err? ==> Refused(d, ActOn(d, r, q).record, q)
  {
    ActKeepsValid(d, r, q);
    if ActOn(d, r, q).answer.Ok? {
      AcceptedIsAnswered(d, r, q);
    }
  }

  lemma DeliveringKeepsServer(p: Platform, w: World, request: Pending, candidates: seq<Id>)
    requires ServerHolds(p, w)
    ensures ServerHolds(p, Step(p, w, Delivering(request, candidates)))
  {
    hide ValidRecords, AnswerHolds, SentHolds, Seen, Apply, AnswerTo;
    var next := Step(p, w, Delivering(request, candidates));
    if next != w {
      var op := OpOf(request, candidates);
      ApplyKeepsValid(p, w.records, op);
      IdsUsed(p, w, op);
      forall other | other in w.sent ensures SentHolds(next.records, next.used, other) {
        SentStays(p, w, op, next.used, other);
      }
      if w.client.shown.Some? {
        SeenStays(p, w, op, next.used, w.client.shown.value.sessionId, w.client.shown.value.view.revision);
      }
      forall x | x in next.answers ensures AnswerHolds(p, next.records, next.used, next.sent, x) {
        if x in w.answers {
          AnswerStays(p, w, op, next.used, x);
        } else {
          DeliveryAnswers(p, w, request, candidates);
        }
      }
    }
  }

  lemma SentStays(p: Platform, w: World, op: RegistryOp, used: set<Id>, request: Pending)
    requires ValidRecords(p, w.records) && SentHolds(w.records, w.used, request) && w.used <= used
    requires op.CreateOp? ==> forall id <- op.candidates :: id !in w.used
    ensures SentHolds(Apply(p, w.records, op), used, request)
  {
    hide Apply, Seen, ValidRecords;
    if request.PendingAction? {
      SeenStays(p, w, op, used, request.sessionId, request.action.expectedRevision);
    }
  }

  lemma IdsUsed(p: Platform, w: World, op: RegistryOp)
    requires forall r <- w.records :: r.sessionId in w.used
    ensures forall r <- Apply(p, w.records, op) ::
      r.sessionId in w.used || (op.CreateOp? && r.sessionId in op.candidates)
  {
    hide ActOn, OpenService;
    if op.CreateOp? {
      FreshFromCandidates(w.records, op.candidates);
    }
  }

  /** What is pending has been sent. */
  predicate HeldSent(w: World) {
    w.client.journal.Some? && w.client.journal.value.pending.Some? ==> w.client.journal.value.pending.value in w.sent
  }

  /** The client's own steps send only what it has seen, or what it had sent before. */
  lemma SendingKeepsServer(p: Platform, w: World, s: Sending, actionId: Id, id: Id, request: CreateRequest, stored: bool)
    requires ServerHolds(p, w) && HeldSent(w)
    requires s in {Acts(w.client, actionId, id, stored), Creates(w.client, id, request, stored), Closes(w.client, stored),
                   Retries(w.client), Boots(w.client, w.instance)}
    ensures ServerHolds(p, AfterSending(w, s)) && HeldSent(AfterSending(w, s))
  {
    hide ValidRecords, AnswerHolds, ServiceOf;
    var next := AfterSending(w, s);
    forall x | x in w.answers ensures AnswerHolds(p, next.records, next.used, next.sent, x) {
      AnswerHoldsMore(p, w.records, w.used, w.sent, next.sent, x);
    }
  }

  lemma ShowingKeepsServer(p: Platform, w: World, client: ClientState)
    requires ServerHolds(p, w)
    requires client.shown.Some? ==> Seen(w.records, w.used, client.shown.value.sessionId, client.shown.value.view.revision)
    ensures ServerHolds(p, w.(client := client))
    ensures forall settled, abandoned :: ServerHolds(p, w.(client := client, settled := settled, abandoned := abandoned))
  {
    hide AnswerHolds, ValidRecords, Seen, SentHolds;
  }

  /** After hearing an answer the client shows nothing new but what was read back, and keeps pending only what was. */
  lemma HearingShows(c: ClientState, request: Pending, answer: Answer, read: ReadBack, stored: bool)
    ensures var next := Hears(c, request, answer, read, stored).client;
            && (next.shown.Some? ==> next.shown == c.shown || (read.ReadOk? && next.shown == Some(read.shown)))
            && (forall held :: Holds(next, held) ==> Holds(c, held))
  {
  }

  lemma ReadingKeepsServer(p: Platform, w: World, move: Move)
    requires ServerHolds(p, w) && HeldSent(w)
    requires move.Listening? || move.Seeing? || move.FindingNone? || move.StartingOver?
    ensures ServerHolds(p, Step(p, w, move)) && HeldSent(Step(p, w, move))
  {
    hide AnswerHolds, ValidRecords, SentHolds, Seen, ServiceOf, Hears;
    var next := Step(p, w, move);
    match move
    case Listening(request, answer, read, stored) =>
      HearingShows(w.client, request, answer, read, stored);
      if read.ReadOk? && Readable(w.records, read) {
        ShownIsSeen(p, w, read.shown);
      }
      if next != w {
        ShowingKeepsServer(p, w, next.client);
      }
      assert forall held :: Holds(next.client, held) ==> Holds(w.client, held);
      assert next.sent == w.sent;
      HeldStays(w, next);
    case Seeing(sessionId) =>
      var r := ServiceOf(w.records, sessionId);
      if r.Some? {
        ShownIsSeen(p, w, Shown(sessionId, r.value.view));
      }
      ShowingKeepsServer(p, w, next.client);
    case _ =>
      ShowingKeepsServer(p, w, next.client);
  }

  lemma HeldStays(w: World, next: World)
    requires HeldSent(w) && next.sent == w.sent
    requires forall held :: Holds(next.client, held) ==> Holds(w.client, held)
    ensures HeldSent(next)
  {
    if next.client.journal.Some? && next.client.journal.value.pending.Some? {
      assert Holds(next.client, next.client.journal.value.pending.value);
    }
  }

  lemma ShownIsSeen(p: Platform, w: World, shown: Shown)
    requires ValidRecords(p, w.records) && forall r <- w.records :: r.sessionId in w.used
    requires ServiceOf(w.records, shown.sessionId).Some?
    requires shown.view == ServiceOf(w.records, shown.sessionId).value.view
    ensures Seen(w.records, w.used, shown.sessionId, shown.view.revision)
  {
    ServiceIsValid(p, w.records, shown.sessionId);
    assert w.records[IndexOf(w.records, shown.sessionId)] in w.records;
  }

  lemma RestartKeepsServer(p: Platform, w: World, instance: Id)
    requires ServerHolds(p, w)
    ensures ServerHolds(p, Step(p, w, Restarting(instance)))
  {
    var next := Step(p, w, Restarting(instance));
    assert forall id :: ServiceOf(next.records, id).None?;
  }

  // ---- Preservation: the client's half ----

  lemma SendingKeepsJournal(w: World, s: Sending, actionId: Id, id: Id, request: CreateRequest, stored: bool)
    requires JournalHolds(w)
    requires s in {Acts(w.client, actionId, id, stored), Creates(w.client, id, request, stored), Closes(w.client, stored),
                   Retries(w.client), Boots(w.client, w.instance)}
    ensures JournalHolds(AfterSending(w, s))
  {
    SentIsJournaled(w.client, s, actionId, id, request, w.instance, stored);
    hide Acts, Creates, Closes, Retries, Boots;
    forall held | held in w.sent && Accounted(w, held) ensures Accounted(AfterSending(w, s), held) {
      assert Holds(w.client, held) ==> Holds(s.client, held);
    }
  }

  lemma ListeningKeepsJournal(p: Platform, w: World, request: Pending, answer: Answer, read: ReadBack, stored: bool)
    requires JournalHolds(w)
    ensures JournalHolds(Step(p, w, Listening(request, answer, read, stored)))
  {
    var next := Step(p, w, Listening(request, answer, read, stored));
    if next != w {
      var h := Hears(w.client, request, answer, read, stored);
      ReadyAfterHearing(w.client, request, answer, read, stored);
      hide Hears, Readable;
      forall held | held in w.sent ensures Accounted(next, held) {
        if Holds(w.client, held) {
          HearingKeepsOrSettles(w.client, request, answer, read, stored, held);
        }
      }
      if h.outcome.Some? {
        OutcomeNeedsHeld(w.client, request, answer, read, stored);
        HearingKeepsOrSettles(w.client, request, answer, read, stored, request);
        assert Exchange(request, answer) in w.answers;
      }
      forall other | other in next.settled
        ensures exists x <- next.answers :: x.request == other && FiledAs(x.answer, next.settled[other])
      {
        if h.outcome.Some? && other == request {
          assert FiledAs(Exchange(request, answer).answer, next.settled[other]);
        } else {
          assert next.settled[other] == w.settled[other];
        }
      }
    }
  }

  lemma ReadyAfterHearing(c: ClientState, request: Pending, answer: Answer, read: ReadBack, stored: bool)
    requires c.phase.Ready? ==> c.journal.None? || c.journal.value.pending.None?
    ensures var next := Hears(c, request, answer, read, stored).client;
            next.phase.Ready? ==> next.journal.None? || next.journal.value.pending.None?
  {
  }

  lemma OutcomeNeedsHeld(c: ClientState, request: Pending, answer: Answer, read: ReadBack, stored: bool)
    requires Hears(c, request, answer, read, stored).outcome.Some?
    ensures Holds(c, request)
  {
  }

  lemma OtherKeepsJournal(p: Platform, w: World, move: Move)
    requires JournalHolds(w)
    requires move.Delivering? || move.Seeing? || move.FindingNone? || move.StartingOver? || move.Restarting?
    ensures JournalHolds(Step(p, w, move))
  {
    hide Apply, AnswerTo;
    var next := Step(p, w, move);
    forall held | held in w.sent && Accounted(w, held) ensures Accounted(next, held) {
    }
    forall request | request in w.settled
      ensures exists x <- next.answers :: x.request == request && FiledAs(x.answer, next.settled[request])
    {
      var x :| x in w.answers && x.request == request && FiledAs(x.answer, w.settled[request]);
      assert x in next.answers;
    }
  }

  // ---- Every reachable world ----

  ghost predicate WorldHolds(p: Platform, w: World) {
    ServerHolds(p, w) && JournalHolds(w) && HeldSent(w)
  }

  lemma StepKeepsWorld(p: Platform, w: World, move: Move)
    requires WorldHolds(p, w)
    ensures WorldHolds(p, Step(p, w, move))
  {
    hide ServerHolds, JournalHolds, Acts, Creates, Closes, Retries, Boots, Hears, Apply, AnswerTo;
    hide Sees, FindsNone, StartsOver, Readable, AfterSending;
    match move
    case Acting(actionId, commandId, stored) =>
      SendingKeepsServer(p, w, Acts(w.client, actionId, commandId, stored), actionId, commandId, ResumeSave(""), stored);
      SendingKeepsJournal(w, Acts(w.client, actionId, commandId, stored), actionId, commandId, ResumeSave(""), stored);
    case Creating(creationId, creation, stored) =>
      SendingKeepsServer(p, w, Creates(w.client, creationId, creation, stored), "", creationId, creation, stored);
      SendingKeepsJournal(w, Creates(w.client, creationId, creation, stored), "", creationId, creation, stored);
    case Closing(stored) =>
      SendingKeepsServer(p, w, Closes(w.client, stored), "", "", ResumeSave(""), stored);
      SendingKeepsJournal(w, Closes(w.client, stored), "", "", ResumeSave(""), stored);
    case Retrying =>
      SendingKeepsServer(p, w, Retries(w.client), "", "", ResumeSave(""), true);
      SendingKeepsJournal(w, Retries(w.client), "", "", ResumeSave(""), true);
    case Loading =>
      SendingKeepsServer(p, w, Boots(w.client, w.instance), "", "", ResumeSave(""), true);
      SendingKeepsJournal(w, Boots(w.client, w.instance), "", "", ResumeSave(""), true);
    case Delivering(request, candidates) =>
      DeliveringKeepsServer(p, w, request, candidates);
      OtherKeepsJournal(p, w, move);
    case Listening(request, answer, read, stored) =>
      ReadingKeepsServer(p, w, move);
      ListeningKeepsJournal(p, w, request, answer, read, stored);
    case Restarting(instance) =>
      RestartKeepsServer(p, w, instance);
      OtherKeepsJournal(p, w, move);
    case _ =>
      ReadingKeepsServer(p, w, move);
      OtherKeepsJournal(p, w, move);
  }

  lemma InitialHolds(p: Platform, w: World)
    requires Initial(w)
    ensures WorldHolds(p, w)
  {
  }

  lemma {:induction false} StepsKeepWorld(p: Platform, w: World, moves: seq<Move>)
    requires Initial(w)
    ensures WorldHolds(p, Steps(p, w, moves))
    decreases |moves|
  {
    hide WorldHolds, Step, Initial;
    if moves == [] {
      InitialHolds(p, w);
    } else {
      StepsKeepWorld(p, w, moves[..|moves| - 1]);
      StepKeepsWorld(p, Steps(p, w, moves[..|moves| - 1]), moves[|moves| - 1]);
    }
  }

  // ---- Exactly once, end to end ----

  /** How often a session has applied a command. */
  function Applications(ledger: seq<LedgerEntry>, commandId: Id): nat {
    if ledger == [] then 0
    else Applications(ledger[..|ledger| - 1], commandId) + if ledger[|ledger| - 1].commandId == commandId then 1 else 0
  }

  lemma {:induction false} AppliedAtMostOnce(ledger: seq<LedgerEntry>, commandId: Id)
    requires DistinctCommands(ledger)
    ensures Applications(ledger, commandId) <= 1
    ensures Applications(ledger, commandId) == 1 <==> FindEntry(ledger, commandId).Some?
    decreases |ledger|
  {
    if ledger != [] {
      var front, last := ledger[..|ledger| - 1], ledger[|ledger| - 1];
      AppliedAtMostOnce(front, commandId);
      FindEntryGrows(front, [last], commandId);
      FindEntryIs(front, commandId);
      assert front + [last] == ledger;
    }
  }

  /**
   * In every world that loss, duplication, delay, reload, retry, closing and restarts can lead to, for a session
   * the server still holds: a command was applied at most once; if the client filed it as accepted, it was applied
   * exactly once and every further delivery is answered with the same view, even after close; if the client filed
   * it as rejected, and sent no other request the ledger could take for it, it never took effect and no delivery ever will.
   */
  lemma ExactlyOnce(p: Platform, start: World, moves: seq<Move>, sessionId: Id, q: ActionRequest)
    requires Initial(start)
    requires ServiceOf(Steps(p, start, moves).records, sessionId).Some?
    ensures var w := Steps(p, start, moves);
            var r := ServiceOf(w.records, sessionId).value;
            var request := PendingAction(sessionId, q);
            && Applications(r.ledger, q.commandId) <= 1
            && (request in w.settled && w.settled[request].Acknowledged? ==>
                  && w.settled[request].answer.ViewOk?
                  && Applications(r.ledger, q.commandId) == 1
                  && ActOn(p.deployment, r, q) == Reply(r, Ok(w.settled[request].answer.view)))
            && (request in w.settled && w.settled[request].Rejected? && Unconfused(p, w.sent, sessionId, q) ==>
                  && (p.deployment.wellShaped(q) && FindEntry(r.ledger, q.commandId).Some? ==>
                        FindEntry(r.ledger, q.commandId).value.fingerprint != p.deployment.fingerprint(q))
                  && ActOn(p.deployment, r, q).answer.Err? && ActOn(p.deployment, r, q).record == r)
  {
    hide Initial, Steps, Committed, Step, Valid, ActiveCount, SentHolds, Accounted;
    StepsKeepWorld(p, start, moves);
    var w := Steps(p, start, moves);
    ServiceIsValid(p, w.records, sessionId);
    var r := ServiceOf(w.records, sessionId).value;
    LedgerDistinct(r);
    AppliedAtMostOnce(r.ledger, q.commandId);
    var request := PendingAction(sessionId, q);
    if request in w.settled {
      var x :| x in w.answers && x.request == request && FiledAs(x.answer, w.settled[request]);
      assert AnswerHolds(p, w.records, w.used, w.sent, x);
      if w.settled[request].Acknowledged? {
        AcceptedIsFinal(p.deployment, r, q, x.answer.view, []);
      } else if w.settled[request].Rejected? && Unconfused(p, w.sent, sessionId, q) {
        ActKeepsValid(p.deployment, r, q);
        RefusedMeansAbsent(p.deployment, r, q);
      }
    }
  }

  lemma LedgerDistinct(r: Record)
    requires Valid(r)
    ensures DistinctCommands(r.ledger)
  {
  }

  lemma RefusedMeansAbsent(d: Deployment, r: Record, q: ActionRequest)
    requires ActOn(d, r, q).answer.Err?
    ensures FindEntry(r.ledger, q.commandId).Some? && d.wellShaped(q) ==>
      FindEntry(r.ledger, q.commandId).value.fingerprint != d.fingerprint(q)
  {
  }

  // ---- Command ids that are never repeated ----

  /** The command ids a run has drawn. */
  function CommandIds(moves: seq<Move>): seq<Id> {
    if moves == [] then []
    else
      var last := moves[|moves| - 1];
      CommandIds(moves[..|moves| - 1]) + if last.Acting? then [last.commandId] else []
  }

  predicate NoRepeats(ids: seq<Id>) {
    forall i, j :: 0 <= i < j < |ids| ==> ids[i] != ids[j]
  }

  /** Each command id in flight belongs to one request, and was drawn. */
  predicate OneRequestEach(sent: set<Pending>, ids: seq<Id>) {
    && (forall a <- sent :: a.PendingAction? ==> a.action.commandId in ids)
    && forall a <- sent, b <- sent ::
         a.PendingAction? && b.PendingAction? && a.action.commandId == b.action.commandId ==> a == b
  }

  /** Only acting draws a new request; everything else sends what was sent before, or no action. */
  lemma StepSends(p: Platform, w: World, move: Move)
    requires HeldSent(w)
    ensures var next := Step(p, w, move);
            next.sent == w.sent || exists request :: next.sent == w.sent + {request} && Drawn(w, move, request)
  {
    hide Apply, AnswerTo, Hears, Sees, FindsNone, StartsOver, Readable;
    var next := Step(p, w, move);
    if next.sent != w.sent {
      var request :| request in next.sent && next.sent == w.sent + {request};
      assert Drawn(w, move, request);
    }
  }

  /** An action request that is new carries the command id the move has drawn. */
  predicate Drawn(w: World, move: Move, request: Pending) {
    request.PendingAction? ==> request in w.sent || (move.Acting? && request.action.commandId == move.commandId)
  }

  /** Only what was sent is answered. */
  lemma {:induction false} AnsweredWereSent(p: Platform, start: World, moves: seq<Move>)
    requires Initial(start)
    ensures forall x <- Steps(p, start, moves).answers :: x.request in Steps(p, start, moves).sent
    decreases |moves|
  {
    hide Apply, AnswerTo, Hears, Sees, FindsNone, StartsOver, Readable, Acts, Creates, Closes, Retries, Boots;
    if moves != [] {
      AnsweredWereSent(p, start, moves[..|moves| - 1]);
    }
  }

  lemma {:induction false} FreshRequests(p: Platform, start: World, moves: seq<Move>)
    requires Initial(start) && NoRepeats(CommandIds(moves))
    ensures OneRequestEach(Steps(p, start, moves).sent, CommandIds(moves))
    decreases |moves|
  {
    hide Step, Initial, WorldHolds;
    if moves == [] {
      InitialSends(start);
    } else {
      var front, last := moves[..|moves| - 1], moves[|moves| - 1];
      assert forall i :: 0 <= i < |CommandIds(front)| ==> CommandIds(front)[i] == CommandIds(moves)[i];
      FreshRequests(p, start, front);
      StepsKeepWorld(p, start, front);
      WorldHeld(p, Steps(p, start, front));
      StepSends(p, Steps(p, start, front), last);
      if last.Acting? {
        assert last.commandId !in CommandIds(front) by {
          assert CommandIds(moves)[|CommandIds(front)|] == last.commandId;
        }
      }
    }
  }

  lemma InitialSends(w: World)
    requires Initial(w)
    ensures w.sent == {}
  {
  }

  lemma WorldHeld(p: Platform, w: World)
    requires WorldHolds(p, w)
    ensures HeldSent(w)
  {
  }

  /** The request a ledger entry was made for. */
  predicate EntryOf(p: Platform, sessionId: Id, e: LedgerEntry, request: Pending) {
    && request.PendingAction? && request.sessionId == sessionId
    && request.action.commandId == e.commandId && p.deployment.fingerprint(request.action) == e.fingerprint
    && p.deployment.wellShaped(request.action)
  }

  /** Every ledger entry was made for a request the client sent. */
  ghost predicate Traced(p: Platform, records: Records, sent: set<Pending>) {
    forall i, e | 0 <= i < |records| && e in records[i].service.ledger ::
      exists request <- sent :: EntryOf(p, records[i].sessionId, e, request)
  }

  lemma TracedApply(p: Platform, records: Records, op: RegistryOp, sent: set<Pending>)
    requires Traced(p, records, sent)
    requires op.ActionOp? ==> PendingAction(op.sessionId, op.action) in sent
    ensures Traced(p, Apply(p, records, op), sent)
  {
    hide Committed, EntryOf, OpenService, FreshId, FindCreation;
    var after := Apply(p, records, op);
    forall i, e | 0 <= i < |after| && e in after[i].service.ledger
      ensures exists request <- sent :: EntryOf(p, after[i].sessionId, e, request)
    {
      if i < |records| {
        TracedRecord(p, records, op, sent, i, e);
      } else {
        OpenedIsBlank(p, op.request);
      }
    }
  }

  lemma OpenedIsBlank(p: Platform, request: CreateRequest)
    requires OpenService(p, request).Ok?
    ensures OpenService(p, request).value.ledger == []
  {
    hide Replay.ResumedPlayer, Replay.SessionOf, ViewOf;
  }

  lemma TracedRecord(p: Platform, records: Records, op: RegistryOp, sent: set<Pending>, i: nat, e: LedgerEntry)
    requires Traced(p, records, sent) && i < |records| <= |Apply(p, records, op)|
    requires op.ActionOp? ==> PendingAction(op.sessionId, op.action) in sent
    requires e in Apply(p, records, op)[i].service.ledger
    ensures exists request <- sent :: EntryOf(p, Apply(p, records, op)[i].sessionId, e, request)
  {
    hide Committed, OpenService, FreshId, FindCreation;
    if op.ActionOp? && i == IndexOf(records, op.sessionId) {
      var r := records[i].service;
      var next := ActOn(p.deployment, r, op.action).record;
      if next != r && e !in r.ledger {
        CommitAdvances(p.deployment, r, op.action);
        assert next.ledger == next.ledger[..|r.ledger|] + [next.ledger[|r.ledger|]];
        assert EntryOf(p, records[i].sessionId, e, PendingAction(op.sessionId, op.action));
      }
    }
  }

  lemma {:induction false} StepsTraced(p: Platform, start: World, moves: seq<Move>)
    requires Initial(start)
    ensures Traced(p, Steps(p, start, moves).records, Steps(p, start, moves).sent)
    decreases |moves|
  {
    hide Apply, AnswerTo, Traced, Hears, Sees, FindsNone, StartsOver, Readable, Acts, Creates, Closes, Retries, Boots;
    if moves == [] {
      TracedNothing(p, start.sent);
    } else {
      StepsTraced(p, start, moves[..|moves| - 1]);
      var w := Steps(p, start, moves[..|moves| - 1]);
      var next := Steps(p, start, moves);
      match moves[|moves| - 1]
      case Delivering(request, candidates) =>
        if request in w.sent {
          TracedApply(p, w.records, OpOf(request, candidates), w.sent);
        }
      case Restarting(_) =>
        TracedNothing(p, next.sent);
      case _ =>
        TracedMore(p, w.records, w.sent, next.sent);
    }
  }

  lemma TracedNothing(p: Platform, sent: set<Pending>)
    ensures Traced(p, [], sent)
  {
  }

  lemma TracedMore(p: Platform, records: Records, sent: set<Pending>, more: set<Pending>)
    requires Traced(p, records, sent) && sent <= more
    ensures Traced(p, records, more)
  {
    hide EntryOf;
  }

  /** With command ids that are never drawn twice, a command filed as rejected never took effect and never will. */
  lemma RejectedNeverApplied(p: Platform, start: World, moves: seq<Move>, sessionId: Id, q: ActionRequest)
    requires Initial(start) && NoRepeats(CommandIds(moves))
    requires ServiceOf(Steps(p, start, moves).records, sessionId).Some?
    requires var w := Steps(p, start, moves);
             var request := PendingAction(sessionId, q);
             request in w.settled && w.settled[request].Rejected?
    ensures var r := ServiceOf(Steps(p, start, moves).records, sessionId).value;
            && Applications(r.ledger, q.commandId) == 0
            && ActOn(p.deployment, r, q).answer.Err? && ActOn(p.deployment, r, q).record == r
  {
    hide Initial, Steps, NoRepeats, ActOn, ServerHolds, Accounted, Traced;
    StepsKeepWorld(p, start, moves);
    AnsweredWereSent(p, start, moves);
    FreshRequests(p, start, moves);
    StepsTraced(p, start, moves);
    ExactlyOnce(p, start, moves, sessionId, q);
    var w := Steps(p, start, moves);
    var r := ServiceOf(w.records, sessionId).value;
    ServiceValidIn(p, w, sessionId);
    AppliedAtMostOnce(r.ledger, q.commandId);
    if FindEntry(r.ledger, q.commandId).Some? {
      FindEntryIs(r.ledger, q.commandId);
      var request := TracedEntry(p, w.records, w.sent, sessionId, FindEntry(r.ledger, q.commandId).value);
    }
  }

  lemma TracedEntry(p: Platform, records: Records, sent: set<Pending>, sessionId: Id, e: LedgerEntry)
    returns (request: Pending)
    requires Traced(p, records, sent) && ServiceOf(records, sessionId).Some?
    requires e in ServiceOf(records, sessionId).value.ledger
    ensures request in sent && EntryOf(p, sessionId, e, request)
  {
    hide EntryOf;
    var i := IndexOf(records, sessionId);
    request :| request in sent && EntryOf(p, records[i].sessionId, e, request);
  }

  lemma ServiceValidIn(p: Platform, w: World, sessionId: Id)
    requires WorldHolds(p, w) && ServiceOf(w.records, sessionId).Some?
    ensures DistinctCommands(ServiceOf(w.records, sessionId).value.ledger)
  {
    ServiceIsValid(p, w.records, sessionId);
    LedgerDistinct(ServiceOf(w.records, sessionId).value);
  }

  /** Nothing the client sent is ever forgotten: it is pending in the journal, filed with an outcome, or given up at a restart. */
  lemma NothingForgotten(p: Platform, start: World, moves: seq<Move>, request: Pending)
    requires Initial(start) && request in Steps(p, start, moves).sent
    ensures Accounted(Steps(p, start, moves), request)
  {
    hide Initial, Steps, ServerHolds, Accounted;
    StepsKeepWorld(p, start, moves);
  }

  /** Each creation id yields at most one session of the running server, within the limits. */
  lemma OneSessionPerCreation(p: Platform, start: World, moves: seq<Move>, i: nat, j: nat)
    requires Initial(start)
    requires i < j < |Steps(p, start, moves).records|
    ensures var records := Steps(p, start, moves).records;
            records[i].creationId != records[j].creationId && records[i].sessionId != records[j].sessionId
            && |records| <= p.maximumSessions && ActiveCount(records) <= p.maximumActive
  {
    hide Initial, Steps, JournalHolds, AnswerHolds, SentHolds;
    StepsKeepWorld(p, start, moves);
  }
}
