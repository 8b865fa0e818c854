// The journaled browser client (browser/src/controller.ts).
module Client {
  import opened Basics
  import opened Service
  import opened Registry
  import Replay

  datatype Pending =
    | PendingCreate(creationId: Id, request: CreateRequest)
    | PendingAction(sessionId: Id, action: ActionRequest)
    | PendingClose(sessionId: Id)

  datatype Lifecycle = NoSession | Open | Ended

  datatype Journal = Journal(instance: Id, lifecycle: Lifecycle, sessionId: Option<Id>, pending: Option<Pending>)

  datatype Phase = Booting | Startable | Working | Ready | Uncertain | Failed | ClosedPhase | Restarted

  datatype Shown = Shown(sessionId: Id, view: SessionView)

  datatype ClientState = ClientState(phase: Phase, journal: Option<Journal>, instance: Option<Id>, shown: Option<Shown>)

  /** What comes back for a pending request; Lost stands for every failure without a definitive answer. */
  datatype Answer =
    | CreatedOk(response: CreateResponse) | ViewOk(view: SessionView) | ClosedOk | Failure(error: RegistryError) | Lost

  /** The read of the current view and catalog that follows an acknowledgement. */
  datatype ReadBack = ReadOk(shown: Shown) | ReadError(error: RegistryError) | ReadLost

  /** How the client files a pending request away. */
  datatype Outcome = Acknowledged(answer: Answer) | Rejected(error: RegistryError) | ClosedOut

  predicate Busy(c: ClientState) {
    c.phase.Booting? || c.phase.Working?
  }

  function JournalForInstance(c: ClientState): Option<Journal> {
    if c.journal.Some? && c.instance == Some(c.journal.value.instance) then c.journal else None
  }

  function CurrentJournal(c: ClientState): Journal
    requires c.instance.Some?
  {
    var j := JournalForInstance(c);
    if j.Some? then j.value else Journal(c.instance.value, NoSession, None, None)
  }

  function SessionIdOf(p: Pending): Option<Id> {
    if p.PendingCreate? then None else Some(p.sessionId)
  }

  /** persistPending: a request is sent only after the journal holds it; a failed write sends nothing. */
  function Persisted(c: ClientState, p: Pending, stored: bool): ClientState
    requires c.instance.Some?
  {
    if !stored then c.(phase := Failed)
    else
      var j := CurrentJournal(c);
      var sessionId := if SessionIdOf(p).Some? then SessionIdOf(p) else j.sessionId;
      var lifecycle := if p.PendingClose? then Open else j.lifecycle;
      c.(phase := Working, journal := Some(Journal(j.instance, lifecycle, sessionId, Some(p))))
  }

  datatype Sending = Sending(client: ClientState, sent: Option<Pending>)

  function Acts(c: ClientState, actionId: Id, commandId: Id, stored: bool): Sending {
    if Busy(c) then Sending(c, None)
    else if c.shown.None? || !c.phase.Ready? || c.instance.None? then Sending(c.(phase := Failed), None)
    else
      var view := c.shown.value.view;
      if view.revision > U64_MAX then Sending(c.(phase := Failed), None)
      else
        var p := PendingAction(
          c.shown.value.sessionId, ActionRequest(commandId, view.revision, view.catalog.stateId, actionId));
        Sending(Persisted(c, p, stored), if stored then Some(p) else None)
  }

  predicate CanBeginCreation(c: ClientState) {
    c.instance.Some? && c.phase.Startable? && c.shown.None? && (c.journal.None? || c.journal.value.pending.None?)
  }

  function Creates(c: ClientState, creationId: Id, request: CreateRequest, stored: bool): Sending {
    if Busy(c) then Sending(c, None)
    else if !CanBeginCreation(c) then Sending(c.(phase := Failed), None)
    else
      var p := PendingCreate(creationId, request);
      Sending(Persisted(c, p, stored), if stored then Some(p) else None)
  }

  function Closes(c: ClientState, stored: bool): Sending {
    if c.phase.ClosedPhase? || Busy(c) then Sending(c, None)
    else if !c.phase.Ready? || c.instance.None? then Sending(c.(phase := Failed), None)
    else if c.shown.None? then Sending(c.(phase := ClosedPhase), None)
    else
      var p := PendingClose(c.shown.value.sessionId);
      Sending(Persisted(c, p, stored), if stored then Some(p) else None)
  }

  /** A retry resends exactly the journaled request. */
  function Retries(c: ClientState): Sending {
    if Busy(c) || c.instance.None? || c.journal.None? || c.journal.value.pending.None? then Sending(c, None)
    else Sending(c.(phase := Working), c.journal.value.pending)
  }

  /** A page load: only the journal survives; another server instance means a restart, and nothing is resent. */
  function Boots(c: ClientState, instance: Id): Sending {
    var loaded := ClientState(Working, c.journal, Some(instance), None);
    if c.journal.None? then Sending(loaded, None)
    else
      var j := c.journal.value;
      if j.instance != instance then Sending(loaded.(phase := Restarted), None)
      else if j.pending.Some? then Sending(loaded, j.pending)
      else if j.lifecycle.Ended? && j.sessionId.Some? then Sending(loaded.(phase := ClosedPhase), None)
      else Sending(loaded, None)
  }

  predicate Definitive(e: RegistryError) {
    match e
    case BadInput => true
    case LimitReached => true
    case CreationConflict => true
    case ServiceFailed(error) =>
      error in {InvalidInput, ResourceLimit, StaleState, InvalidAction, IdempotencyConflict}
    case _ => false
  }

  datatype Hearing = Hearing(client: ClientState, outcome: Option<Outcome>)

  function Filed(c: ClientState, lifecycle: Lifecycle, sessionId: Option<Id>, phase: Phase, shown: Option<Shown>): ClientState
    requires c.journal.Some?
  {
    c.(phase := phase, shown := shown, journal := Some(Journal(c.journal.value.instance, lifecycle, sessionId, None)))
  }

  /** handlePendingFailure: the request stays pending unless the error is definitive. */
  function HearsFailure(c: ClientState, p: Pending, e: RegistryError, stored: bool, filedAs: Outcome): Hearing
    requires c.journal.Some?
  {
    var j := c.journal.value;
    var sessionId := if SessionIdOf(p).Some? then SessionIdOf(p) else j.sessionId;
    if e == ServiceFailed(SessionClosed) then
      if stored then Hearing(Filed(c, Ended, sessionId, ClosedPhase, None), Some(ClosedOut))
      else Hearing(c.(phase := Uncertain), None)
    else if e.UnknownSession? then Hearing(c.(phase := Restarted, shown := None), None)
    else if Definitive(e) && stored then
      Hearing(Filed(c, j.lifecycle, j.sessionId, if p.PendingCreate? then Startable else Working, None), Some(filedAs))
    else Hearing(c.(phase := Uncertain), None)
  }

  /** finishCreation and finishAction: the request stays pending until the current view has been read back. */
  function HearsSuccess(c: ClientState, p: Pending, answer: Answer, sessionId: Id, read: ReadBack, stored: bool): Hearing
    requires c.journal.Some?
  {
    var noted := c.(journal := Some(c.journal.value.(lifecycle := Open, sessionId := Some(sessionId))));
    if !stored then Hearing(c.(phase := Uncertain), None)
    else
      match read
      case ReadOk(shown) => Hearing(Filed(noted, Open, Some(sessionId), Ready, Some(shown)), Some(Acknowledged(answer)))
      case ReadError(e) => HearsFailure(noted, p, e, true, Acknowledged(answer))
      case ReadLost => Hearing(noted.(phase := Uncertain), None)
  }

  function Hears(c: ClientState, p: Pending, answer: Answer, read: ReadBack, stored: bool): Hearing {
    var j := JournalForInstance(c);
    if j.None? || j.value.pending != Some(p) then Hearing(c, None)
    else
      match answer
      case Lost => Hearing(c.(phase := Uncertain), None)
      case Failure(e) => HearsFailure(c, p, e, stored, Rejected(e))
      case ClosedOk =>
        if p.PendingClose? && stored then
          Hearing(Filed(c, Ended, SessionIdOf(p), ClosedPhase, None), Some(Acknowledged(answer)))
        else Hearing(c.(phase := Uncertain), None)
      case ViewOk(_) =>
        if p.PendingAction? then HearsSuccess(c, p, answer, p.sessionId, read, stored)
        else Hearing(c.(phase := Uncertain), None)
      case CreatedOk(response) =>
        if p.PendingCreate? then HearsSuccess(c, p, answer, response.sessionId, read, stored)
        else Hearing(c.(phase := Uncertain), None)
  }

  /** The observed view that becomes current once nothing is pending. */
  function Sees(c: ClientState, shown: Shown): ClientState {
    if c.phase.Working? && (c.journal.None? || c.journal.value.pending.None?)
    then c.(phase := Ready, shown := Some(shown)) else c
  }

  /** The server has no active session to show. */
  function FindsNone(c: ClientState): ClientState {
    if !c.phase.Working? || (c.journal.Some? && c.journal.value.pending.Some?) then c
    else if c.journal.Some? && c.journal.value.lifecycle.Open? && c.journal.value.sessionId.Some? then c.(phase := Restarted)
    else c.(phase := Startable, shown := None)
  }

  /** newGame after a close, or acknowledging a restart: the journal starts over for this instance. */
  function StartsOver(c: ClientState, stored: bool): ClientState {
    if !(c.phase.ClosedPhase? || c.phase.Restarted?) then c
    else if c.instance.None? then c.(phase := Failed)
    else if !stored then c
    else c.(phase := if c.phase.Restarted? then Working else Startable, shown := None,
            journal := Some(Journal(c.instance.value, NoSession, None, None)))
  }

  class GameClient {
    var state: ClientState

    constructor (journal: Option<Journal>)
      ensures state == ClientState(Booting, journal, None, None)
    {
      state := ClientState(Booting, journal, None, None);
    }

    method PersistPending(p: Pending, stored: bool) returns (ok: bool)
      requires state.instance.Some?
      modifies this
      ensures state == Persisted(old(state), p, stored) && ok == stored
    {
      if !stored {
        state := state.(phase := Failed);
        return false;
      }
      var journal := CurrentJournal(state);
      if p.PendingClose? {
        journal := journal.(lifecycle := Open);
      }
      if SessionIdOf(p).Some? {
        journal := journal.(sessionId := SessionIdOf(p));
      }
      state := state.(phase := Working, journal := Some(journal.(pending := Some(p))));
      return true;
    }

    method Act(actionId: Id, commandId: Id, stored: bool) returns (sent: Option<Pending>)
      modifies this
      ensures Sending(state, sent) == Acts(old(state), actionId, commandId, stored)
    {
      if Busy(state) {
        return None;
      }
      if state.shown.None? || !state.phase.Ready? || state.instance.None? || state.shown.value.view.revision > U64_MAX {
        state := state.(phase := Failed);
        return None;
      }
      var view := state.shown.value.view;
      var request := ActionRequest(commandId, view.revision, view.catalog.stateId, actionId);
      var p := PendingAction(state.shown.value.sessionId, request);
      var ok := PersistPending(p, stored);
      return if ok then Some(p) else None;
    }

    method Create(creationId: Id, request: CreateRequest, stored: bool) returns (sent: Option<Pending>)
      modifies this
      ensures Sending(state, sent) == Creates(old(state), creationId, request, stored)
    {
      if Busy(state) {
        return None;
      }
      if !CanBeginCreation(state) {
        state := state.(phase := Failed);
        return None;
      }
      var ok := PersistPending(PendingCreate(creationId, request), stored);
      return if ok then Some(PendingCreate(creationId, request)) else None;
    }

    method Close(stored: bool) returns (sent: Option<Pending>)
      modifies this
      ensures Sending(state, sent) == Closes(old(state), stored)
    {
      if state.phase.ClosedPhase? || Busy(state) {
        return None;
      }
      if !state.phase.Ready? || state.instance.None? {
        state := state.(phase := Failed);
        return None;
      }
      if state.shown.None? {
        state := state.(phase := ClosedPhase);
        return None;
      }
      var p := PendingClose(state.shown.value.sessionId);
      var ok := PersistPending(p, stored);
      return if ok then Some(p) else None;
    }

    method Retry() returns (sent: Option<Pending>)
      modifies this
      ensures Sending(state, sent) == Retries(old(state))
    {
      if Busy(state) || state.instance.None? || state.journal.None? || state.journal.value.pending.None? {
        return None;
      }
      state := state.(phase := Working);
      return state.journal.value.pending;
    }

    method Boot(instance: Id) returns (sent: Option<Pending>)
      modifies this
      ensures Sending(state, sent) == Boots(old(state), instance)
    {
      state := ClientState(Working, state.journal, Some(instance), None);
      if state.journal.None? {
        return None;
      }
      var journal := state.journal.value;
      if journal.instance != instance {
        state := state.(phase := Restarted);
        return None;
      }
      if journal.pending.Some? {
        return journal.pending;
      }
      if journal.lifecycle.Ended? && journal.sessionId.Some? {
        state := state.(phase := ClosedPhase);
      }
      return None;
    }

    method HandlePendingFailure(p: Pending, e: RegistryError, stored: bool, filedAs: Outcome) returns (outcome: Option<Outcome>)
      requires state.journal.Some?
      modifies this
      ensures Hearing(state, outcome) == HearsFailure(old(state), p, e, stored, filedAs)
    {
      var journal := state.journal.value;
      if e == ServiceFailed(SessionClosed) && stored {
        var sessionId := if SessionIdOf(p).Some? then SessionIdOf(p) else journal.sessionId;
        state := state.(
          phase := ClosedPhase, shown := None, journal := Some(Journal(journal.instance, Ended, sessionId, None)));
        return Some(ClosedOut);
      }
      if e.UnknownSession? {
        state := state.(phase := Restarted, shown := None);
        return None;
      }
      if Definitive(e) && stored {
        state := state.(
          phase := if p.PendingCreate? then Startable else Working, shown := None,
          journal := Some(journal.(pending := None)));
        return Some(filedAs);
      }
      state := state.(phase := Uncertain);
      return None;
    }

    method FinishWithView(p: Pending, answer: Answer, sessionId: Id, read: ReadBack, stored: bool)
      returns (outcome: Option<Outcome>)
      requires state.journal.Some?
      modifies this
      ensures Hearing(state, outcome) == HearsSuccess(old(state), p, answer, sessionId, read, stored)
    {
      if !stored {
        state := state.(phase := Uncertain);
        return None;
      }
      state := state.(journal := Some(state.journal.value.(lifecycle := Open, sessionId := Some(sessionId))));
      match read
      case ReadLost =>
        state := state.(phase := Uncertain);
        return None;
      case ReadError(e) =>
        outcome := HandlePendingFailure(p, e, true, Acknowledged(answer));
      case ReadOk(shown) =>
        state := state.(phase := Ready, shown := Some(shown), journal := Some(state.journal.value.(pending := None)));
        return Some(Acknowledged(answer));
    }

    method Hear(p: Pending, answer: Answer, read: ReadBack, stored: bool) returns (outcome: Option<Outcome>)
      modifies this
      ensures Hearing(state, outcome) == Hears(old(state), p, answer, read, stored)
    {
      var journal := JournalForInstance(state);
      if journal.None? || journal.value.pending != Some(p) {
        return None;
      }
      if answer.Failure? {
        outcome := HandlePendingFailure(p, answer.error, stored, Rejected(answer.error));
        return;
      }
      if answer.ViewOk? && p.PendingAction? {
        outcome := FinishWithView(p, answer, p.sessionId, read, stored);
        return;
      }
      if answer.CreatedOk? && p.PendingCreate? {
        outcome := FinishWithView(p, answer, answer.response.sessionId, read, stored);
        return;
      }
      if answer.ClosedOk? && p.PendingClose? && stored {
        state := state.(
          phase := ClosedPhase, shown := None,
          journal := Some(Journal(journal.value.instance, Ended, Some(p.sessionId), None)));
        return Some(Acknowledged(answer));
      }
      state := state.(phase := Uncertain);
      return None;
    }
  }

  // ---- The journal discipline ----

  ghost predicate Holds(c: ClientState, p: Pending) {
    c.journal.Some? && c.journal.value.pending == Some(p)
  }

  /** Whatever is sent is in the journal, and sending something new never displaces a request that was pending. */
  lemma SentIsJournaled(c: ClientState, s: Sending, actionId: Id, id: Id, request: CreateRequest, instance: Id, stored: bool)
    requires c.phase.Ready? ==> c.journal.None? || c.journal.value.pending.None?
    requires s in {Acts(c, actionId, id, stored), Creates(c, id, request, stored), Closes(c, stored), Retries(c), Boots(c, instance)}
    ensures s.sent.Some? ==> Holds(s.client, s.sent.value)
    ensures forall p :: Holds(c, p) ==> Holds(s.client, p)
    ensures s.client.phase.Ready? ==> s.client.journal.None? || s.client.journal.value.pending.None?
  {
  }

  /** The outcomes an answer can be filed under. */
  predicate FiledAs(answer: Answer, outcome: Outcome) {
    match outcome
    case Acknowledged(a) => a == answer && !answer.Lost? && !answer.Failure?
    case Rejected(e) => answer == Failure(e)
    case ClosedOut => !answer.Lost?
  }

  /** A pending request leaves the journal only with an outcome, drawn from an answer to it. */
  lemma HearingKeepsOrSettles(c: ClientState, p: Pending, answer: Answer, read: ReadBack, stored: bool, held: Pending)
    requires Holds(c, held)
    ensures var h := Hears(c, p, answer, read, stored);
            && (Holds(h.client, held) || (held == p && h.outcome.Some?))
            && (h.outcome.Some? ==> held == p && stored && FiledAs(answer, h.outcome.value))
  {
  }

  // ---- Every refusal of a live session is final ----

  ghost predicate Settled(h: Hearing) {
    h.outcome.Some? && h.client.journal.Some? && h.client.journal.value.pending.None?
  }

  /** The errors a served session can answer with; only its own failures leave the outcome open. */
  lemma ServiceRefusals(d: Deployment, r: Record, q: ActionRequest)
    requires ActOn(d, r, q).answer.Err?
    ensures var e := ActOn(d, r, q).answer.error;
            e == Internal || e == SessionClosed || Definitive(ServiceFailed(e))
  {
    hide Advanced, ViewOf, FindEntry;
  }

  /** A client that hears how its session refused an action settles the request, unless the session itself failed. */
  lemma RefusedActionSettles(
    p: Platform, records: Records, c: ClientState, sessionId: Id, q: ActionRequest, read: ReadBack, stored: bool)
    requires JournalForInstance(c).Some? && Holds(c, PendingAction(sessionId, q))
    requires IndexOf(records, sessionId) < |records| && ActSession(p, records, sessionId, q).answer.Err?
    ensures var e := ActSession(p, records, sessionId, q).answer.error;
            Settled(Hears(c, PendingAction(sessionId, q), Failure(e), read, stored))
            <==> stored && e != ServiceFailed(Internal)
  {
    hide ActOn, IndexOf;
    ServiceRefusals(p.deployment, records[IndexOf(records, sessionId)].service, q);
  }

  /** The errors the opening of a session can answer with. */
  lemma OpeningRefusals(p: Platform, request: CreateRequest)
    requires OpenService(p, request).Err?
    ensures var e := OpenService(p, request).error; e == Internal || (Definitive(ServiceFailed(e)) && e != SessionClosed)
  {
    hide Replay.ResumedPlayer, Replay.SessionOf, Replay.PlayerTraceOf;
  }

  /** The same for a creation, which may also find no fresh identity to give. */
  lemma RefusedCreationSettles(
    p: Platform, records: Records, c: ClientState, creationId: Id, request: CreateRequest, candidates: seq<Id>,
    read: ReadBack, stored: bool)
    requires |candidates| <= MAX_RANDOM_ID_ATTEMPTS
    requires JournalForInstance(c).Some? && Holds(c, PendingCreate(creationId, request))
    requires CreateOn(p, records, creationId, request, candidates).answer.Err?
    ensures var e := CreateOn(p, records, creationId, request, candidates).answer.error;
            Settled(Hears(c, PendingCreate(creationId, request), Failure(e), read, stored))
            <==> stored && e != ServiceFailed(Internal) && e != Unavailable
  {
    hide OpenService, FindCreation, FreshId, ActiveCount;
    if OpenService(p, request).Err? {
      OpeningRefusals(p, request);
    }
  }
}
