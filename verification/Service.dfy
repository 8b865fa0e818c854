// One served session: commands with an idempotency ledger (crates/forge-server/src/service.rs).
module Service {
  import opened Basics
  import Replay

  datatype ServiceError =
    | InvalidInput | ResourceLimit | SessionClosed | StaleState | InvalidAction | IdempotencyConflict | Internal

  datatype ActionRequest = ActionRequest(commandId: Id, expectedRevision: u64, expectedStateId: Id, actionId: Id)

  datatype CatalogPage = CatalogPage(stateId: Id, total: nat, offset: nat, next: Option<nat>, actions: seq<Replay.Action>)

  datatype SessionView = SessionView(revision: nat, observation: Replay.View, catalog: CatalogPage)

  datatype Limits = Limits(
    saveBytes: nat, responseBytes: nat, ledgerBytes: nat, defaultPageSize: nat, maximumPageSize: nat)

  /** The content served, its limits, and the serializations the service measures. */
  datatype Deployment = Deployment(
    content: Replay.Content,
    limits: Limits,
    actionPage: (Replay.State, nat, nat) -> Option<CatalogPage>,
    encode: Replay.PlayerTrace -> string,
    viewBytes: SessionView -> nat,
    pageBytes: CatalogPage -> nat,
    entryBytes: (Id, Id, SessionView) -> nat,
    fingerprint: ActionRequest -> Id,
    wellShaped: ActionRequest -> bool,
    wellShapedId: Id -> bool,
    isIllegal: Replay.Error -> bool)

  datatype LedgerEntry = LedgerEntry(commandId: Id, fingerprint: Id, view: SessionView, bytes: nat)

  datatype Record = Record(
    save: Replay.PlayerTrace, saveJson: string, view: SessionView, ledger: seq<LedgerEntry>, ledgerBytes: nat, closed: bool)

  function FindEntry(ledger: seq<LedgerEntry>, commandId: Id): Option<LedgerEntry> {
    if ledger == [] then None
    else if ledger[0].commandId == commandId then Some(ledger[0])
    else FindEntry(ledger[1..], commandId)
  }

  function SumBytes(ledger: seq<LedgerEntry>): nat {
    if ledger == [] then 0 else SumBytes(ledger[..|ledger| - 1]) + ledger[|ledger| - 1].bytes
  }

  function ViewOf(d: Deployment, live: Replay.Live): Result<SessionView, ServiceError> {
    var trace := live.trace;
    if |trace.steps| > U64_MAX then Err(ResourceLimit)
    else
      var observation :=
        if trace.steps == [] then trace.genesis.view else trace.steps[|trace.steps| - 1].body.view;
      var page := d.actionPage(live.state, 0, d.limits.defaultPageSize);
      if page.None? then Err(Internal)
      else
        var view := SessionView(|trace.steps|, observation, page.value);
        if d.viewBytes(view) > d.limits.responseBytes then Err(ResourceLimit) else Ok(view)
  }

  function ActionError(d: Deployment, e: Replay.ReplayError): ServiceError {
    match e
    case ResourceExhausted => ResourceLimit
    case KernelError(error) => if d.isIllegal(error) then InvalidAction else Internal
    case _ => Internal
  }

  /** The session once the requested action is recorded, rebuilt from the save. */
  function Advanced(d: Deployment, r: Record, q: ActionRequest): Result<Replay.Live, ServiceError> {
    var live := Replay.ResumedPlayer(d.content, r.save);
    if live.Err? then Err(if live.error.ResourceExhausted? then ResourceLimit else Internal)
    else
      var legal := d.content.enumerate(live.value.state);
      if legal.Err? then Err(Internal)
      else
        var action := Replay.FindAction(d.content, legal.value, q.actionId);
        if action.None? then Err(InvalidAction)
        else
          var next := Replay.RecordOne(d.content, live.value, action.value);
          if next.Err? then Err(ActionError(d, next.error)) else Ok(next.value)
  }

  /** The record after an accepted request; every quota is checked before anything is stored. */
  function Committed(d: Deployment, r: Record, q: ActionRequest): Result<Record, ServiceError> {
    var live := Advanced(d, r, q);
    if live.Err? then Err(live.error)
    else
      var save := Replay.PlayerTraceOf(d.content, live.value);
      if save.Err? then Err(ActionError(d, save.error))
      else
        var json := d.encode(save.value);
        if |json| > d.limits.saveBytes then Err(ResourceLimit)
        else
          var view := ViewOf(d, live.value);
          if view.Err? then Err(view.error)
          else
            var bytes := d.entryBytes(q.commandId, d.fingerprint(q), view.value);
            if SumBytes(r.ledger) != r.ledgerBytes then Err(Internal)
            else if r.ledgerBytes + bytes > d.limits.ledgerBytes then Err(ResourceLimit)
            else Ok(Record(
              save.value, json, view.value,
              r.ledger + [LedgerEntry(q.commandId, d.fingerprint(q), view.value, bytes)],
              r.ledgerBytes + bytes, r.closed))
  }

  datatype Reply = Reply(record: Record, answer: Result<SessionView, ServiceError>)

  function Revision(r: Record): nat {
    |r.save.actionIds|
  }

  function ActOn(d: Deployment, r: Record, q: ActionRequest): Reply {
    if !d.wellShaped(q) then Reply(r, Err(InvalidInput))
    else
      var entry := FindEntry(r.ledger, q.commandId);
      if entry.Some? then
        Reply(r, if entry.value.fingerprint == d.fingerprint(q) then Ok(entry.value.view) else Err(IdempotencyConflict))
      else if r.closed then Reply(r, Err(SessionClosed))
      else if Revision(r) > U64_MAX then Reply(r, Err(ResourceLimit))
      else if q.expectedRevision != Revision(r) || q.expectedStateId != r.view.catalog.stateId then
        Reply(r, Err(StaleState))
      else
        var next := Committed(d, r, q);
        if next.Err? then Reply(r, Err(next.error)) else Reply(next.value, Ok(next.value.view))
  }

  function CloseOn(r: Record): Record {
    r.(closed := true)
  }

  /** from_session: the record a new or resumed session starts with. */
  function Opened(d: Deployment, live: Replay.Live): Result<Record, ServiceError> {
    var save := Replay.PlayerTraceOf(d.content, live);
    if save.Err? then Err(InvalidInput)
    else if |d.encode(save.value)| > d.limits.saveBytes then Err(ResourceLimit)
    else
      var view := ViewOf(d, live);
      if view.Err? then Err(view.error)
      else Ok(Record(save.value, d.encode(save.value), view.value, [], 0, false))
  }

  /** A page is served for the current state of an open session, within the limits. */
  ghost predicate PageServed(d: Deployment, r: Record, expectedStateId: Id, offset: nat, pageSize: nat) {
    && !r.closed && d.wellShapedId(expectedStateId) && expectedStateId == r.view.catalog.stateId
    && 0 < pageSize <= d.limits.maximumPageSize && offset <= r.view.catalog.total
    && var live := Replay.ResumedPlayer(d.content, r.save);
    && live.Ok?
    && var page := d.actionPage(live.value.state, offset, pageSize);
    page.Some? && d.pageBytes(page.value) <= d.limits.responseBytes
  }

  class SessionService {
    const deployment: Deployment
    var record: Record

    constructor (deployment: Deployment, record: Record)
      ensures this.deployment == deployment && this.record == record
    {
      this.deployment, this.record := deployment, record;
    }

    /** Idempotency is checked before closure and staleness, and nothing is stored until all checks have passed. */
    method Act(q: ActionRequest) returns (answer: Result<SessionView, ServiceError>)
      modifies this
      ensures Reply(record, answer) == ActOn(deployment, old(record), q)
      ensures record != old(record) ==> answer.Ok? && exists t ::
        TakenBy(deployment, old(record), q.actionId, t) && ShowsTransition(deployment, answer.value, t)
    {
      if !deployment.wellShaped(q) {
        return Err(InvalidInput);
      }
      var i := 0;
      while i < |record.ledger|
        invariant i <= |record.ledger| && record == old(record)
        invariant FindEntry(record.ledger, q.commandId) == FindEntry(record.ledger[i..], q.commandId)
      {
        var entry := record.ledger[i];
        if entry.commandId == q.commandId {
          if entry.fingerprint == deployment.fingerprint(q) {
            return Ok(entry.view);
          }
          return Err(IdempotencyConflict);
        }
        assert record.ledger[i..][1..] == record.ledger[i + 1..];
        i := i + 1;
      }
      if record.closed {
        return Err(SessionClosed);
      }
      if Revision(record) > U64_MAX {
        return Err(ResourceLimit);
      }
      if q.expectedRevision != Revision(record) || q.expectedStateId != record.view.catalog.stateId {
        return Err(StaleState);
      }
      var next := Committed(deployment, record, q);
      if next.Err? {
        return Err(next.error);
      }
      ghost var t := AnswerShowsAction(deployment, record, q);
      record := next.value;
      return Ok(record.view);
    }

    method Close()
      modifies this
      ensures record == CloseOn(old(record))
    {
      record := record.(closed := true);
    }

    /** The answer of the latest accepted action, or the opening view; it is the view of the stored save. */
    method Observe() returns (view: Result<SessionView, ServiceError>)
      ensures record.closed ==> view == Err(SessionClosed)
      ensures !record.closed ==> view == Ok(record.view)
      ensures !record.closed && Valid(record) ==>
        view.value.revision == Revision(record)
        && (record.ledger != [] ==> view.value == record.ledger[|record.ledger| - 1].view)
      ensures !record.closed && Kept(deployment, record) ==>
        view == ViewOf(deployment, Replay.ResumedPlayer(deployment.content, record.save).value)
      ensures Kept(deployment, record) ==> ShowsLatest(deployment, record)
    {
      if Kept(deployment, record) {
        KeptShowsLatest(deployment, record);
      }
      view := if record.closed then Err(SessionClosed) else Ok(record.view);
    }

    /** Available even after close: the text of a save that resumes to the session last shown. */
    method Save() returns (json: string)
      ensures json == record.saveJson
      ensures Kept(deployment, record) ==>
        && json == deployment.encode(record.save)
        && Replay.ResumedPlayer(deployment.content, record.save).Ok?
        && ViewOf(deployment, Replay.ResumedPlayer(deployment.content, record.save).value) == Ok(record.view)
    {
      json := record.saveJson;
    }

    method Catalog(expectedStateId: Id, offset: nat, pageSize: nat) returns (page: Result<CatalogPage, ServiceError>)
      ensures page.Ok? <==> PageServed(deployment, record, expectedStateId, offset, pageSize)
      ensures page.Ok? ==>
        Some(page.value)
        == deployment.actionPage(Replay.ResumedPlayer(deployment.content, record.save).value.state, offset, pageSize)
      ensures record.closed ==> page == Err(SessionClosed)
    {
      if record.closed {
        return Err(SessionClosed);
      }
      if !deployment.wellShapedId(expectedStateId) || pageSize == 0 {
        return Err(InvalidInput);
      }
      if pageSize > deployment.limits.maximumPageSize {
        return Err(ResourceLimit);
      }
      if expectedStateId != record.view.catalog.stateId {
        return Err(StaleState);
      }
      if offset > record.view.catalog.total {
        return Err(InvalidInput);
      }
      var live := Replay.ResumedPlayer(deployment.content, record.save);
      if live.Err? {
        return Err(if live.error.ResourceExhausted? then ResourceLimit else Internal);
      }
      var found := deployment.actionPage(live.value.state, offset, pageSize);
      if found.None? {
        return Err(Internal);
      }
      if deployment.pageBytes(found.value) > deployment.limits.responseBytes {
        return Err(ResourceLimit);
      }
      return Ok(found.value);
    }
  }

  // ---- What every record keeps ----

  predicate DistinctCommands(ledger: seq<LedgerEntry>) {
    forall i, j :: 0 <= i < j < |ledger| ==> ledger[i].commandId != ledger[j].commandId
  }

  /** One ledger entry per action taken since the session opened, each holding the view of its own revision. */
  predicate Valid(r: Record) {
    && r.ledgerBytes == SumBytes(r.ledger)
    && DistinctCommands(r.ledger)
    && r.view.revision == Revision(r)
    && |r.ledger| <= Revision(r)
    && (forall i :: 0 <= i < |r.ledger| ==> r.ledger[i].view.revision == Revision(r) - |r.ledger| + i + 1)
    && (r.ledger != [] ==> r.ledger[|r.ledger| - 1].view == r.view)
  }

  /** The stored text encodes the save, and the save resumes to a session with the stored view. */
  predicate Kept(d: Deployment, r: Record) {
    && r.saveJson == d.encode(r.save) && |r.saveJson| <= d.limits.saveBytes
    && var live := Replay.ResumedPlayer(d.content, r.save);
    live.Ok? && ViewOf(d, live.value) == Ok(r.view)
  }

  lemma {:induction false} FindEntryIs(ledger: seq<LedgerEntry>, commandId: Id)
    ensures FindEntry(ledger, commandId).Some? <==> exists e <- ledger :: e.commandId == commandId
    ensures FindEntry(ledger, commandId).Some? ==>
      FindEntry(ledger, commandId).value in ledger && FindEntry(ledger, commandId).value.commandId == commandId
    decreases |ledger|
  {
    if ledger != [] {
      FindEntryIs(ledger[1..], commandId);
      assert ledger == [ledger[0]] + ledger[1..];
    }
  }

  lemma {:induction false} FindEntryGrows(ledger: seq<LedgerEntry>, more: seq<LedgerEntry>, commandId: Id)
    ensures FindEntry(ledger, commandId).Some? ==> FindEntry(ledger + more, commandId) == FindEntry(ledger, commandId)
    ensures FindEntry(ledger, commandId).None? ==> FindEntry(ledger + more, commandId) == FindEntry(more, commandId)
    decreases |ledger|
  {
    if ledger == [] {
      assert ledger + more == more;
    } else {
      FindEntryGrows(ledger[1..], more, commandId);
      assert (ledger + more)[1..] == ledger[1..] + more;
    }
  }

  lemma {:induction false} ChooseAllSteps(c: Replay.Content, live: Replay.Live, ids: seq<Id>)
    requires Replay.ChooseAll(c, live, ids).Ok?
    ensures |Replay.ChooseAll(c, live, ids).value.trace.steps| == |live.trace.steps| + |ids|
    decreases |ids|
  {
    hide Replay.NextStep;
    if ids != [] {
      ChooseAllSteps(c, live, ids[..|ids| - 1]);
    }
  }

  lemma ResumedSteps(c: Replay.Content, p: Replay.PlayerTrace)
    requires Replay.ResumedPlayer(c, p).Ok?
    ensures |Replay.ResumedPlayer(c, p).value.trace.steps| == |p.actionIds|
  {
    hide Replay.NextStep, Replay.IdentifyStart;
    ChooseAllSteps(c, Replay.SessionOf(c, p.start).value, p.actionIds);
  }

  /** An accepted request adds exactly one action and one entry, and its view is the new current view. */
  lemma CommitAdvances(d: Deployment, r: Record, q: ActionRequest)
    requires Committed(d, r, q).Ok?
    ensures var next := Committed(d, r, q).value;
            && Revision(next) == Revision(r) + 1 && next.view.revision == Revision(next)
            && |next.ledger| == |r.ledger| + 1 && next.ledger[..|r.ledger|] == r.ledger
            && next.ledger[|r.ledger|].commandId == q.commandId
            && next.ledger[|r.ledger|].fingerprint == d.fingerprint(q)
            && next.ledger[|r.ledger|].view == next.view
            && next.ledgerBytes == SumBytes(next.ledger)
            && next.closed == r.closed
  {
    hide Replay.ResumedPlayer, Replay.NextStep;
    var next := Committed(d, r, q).value;
    ResumedSteps(d.content, r.save);
    Replay.IdsLength(d.content, Advanced(d, r, q).value.trace.steps);
    assert next.ledger[..|r.ledger|] == r.ledger;
  }

  lemma ActKeepsValid(d: Deployment, r: Record, q: ActionRequest)
    requires Valid(r)
    ensures Valid(ActOn(d, r, q).record)
    ensures ActOn(d, r, q).answer.Err? ==> ActOn(d, r, q).record == r
  {
    hide Committed;
    var next := ActOn(d, r, q).record;
    if next != r {
      CommitAdvances(d, r, q);
      FindEntryIs(r.ledger, q.commandId);
      assert forall i :: 0 <= i < |r.ledger| ==> next.ledger[i] == r.ledger[i] && r.ledger[i] in r.ledger;
    }
  }

  lemma OpenedIsValid(d: Deployment, live: Replay.Live)
    requires Opened(d, live).Ok?
    ensures Valid(Opened(d, live).value)
  {
    Replay.IdsLength(d.content, live.trace.steps);
  }

  // ---- Runs of operations ----

  datatype Operation = ActOp(request: ActionRequest) | CloseOp

  function Perform(d: Deployment, r: Record, op: Operation): Record {
    match op
    case ActOp(q) => ActOn(d, r, q).record
    case CloseOp => CloseOn(r)
  }

  function Run(d: Deployment, r: Record, ops: seq<Operation>): Record {
    if ops == [] then r else Perform(d, Run(d, r, ops[..|ops| - 1]), ops[|ops| - 1])
  }

  /** In any run, the actions taken and the ledger entries grow together, and no command id is ever entered twice. */
  lemma {:induction false} AtMostOnce(d: Deployment, r: Record, ops: seq<Operation>)
    requires Valid(r)
    ensures var after := Run(d, r, ops);
            && Valid(after)
            && Revision(after) - Revision(r) == |after.ledger| - |r.ledger|
            && r.ledger <= after.ledger
            && DistinctCommands(after.ledger)
    decreases |ops|
  {
    hide ActOn;
    if ops != [] {
      var last := ops[|ops| - 1];
      AtMostOnce(d, r, ops[..|ops| - 1]);
      var before := Run(d, r, ops[..|ops| - 1]);
      if last.ActOp? {
        ActKeepsValid(d, before, last.request);
        ActGrows(d, before, last.request);
      }
    }
  }

  lemma ActGrows(d: Deployment, r: Record, q: ActionRequest)
    ensures var next := ActOn(d, r, q).record;
            && Revision(next) - Revision(r) == |next.ledger| - |r.ledger|
            && r.ledger <= next.ledger
            && Revision(r) <= Revision(next)
            && (r.closed ==> next == r)
  {
    hide Committed;
    if ActOn(d, r, q).record != r {
      CommitAdvances(d, r, q);
    }
  }

  // ---- What a view shows ----

  /** The transition of an accepted action: from the state its save resumes to, by the first legal action of that identity. */
  ghost predicate TakenBy(d: Deployment, r: Record, actionId: Id, t: Replay.Transition) {
    var c, live := d.content, Replay.ResumedPlayer(d.content, r.save);
    && live.Ok? && c.enumerate(live.value.state).Ok?
    && exists a <- c.enumerate(live.value.state).value ::
         c.actionId(a) == actionId && c.step(live.value.state, a) == Ok(t)
  }

  /** The answer to an accepted action shows what the transition shows, and the first page of the state it reaches. */
  ghost predicate ShowsTransition(d: Deployment, view: SessionView, t: Replay.Transition) {
    && d.content.observeAfter(t) == Ok(view.observation)
    && d.actionPage(t.state, 0, d.limits.defaultPageSize) == Some(view.catalog)
  }

  lemma RecordedView(c: Replay.Content, live: Replay.Live, a: Replay.Action)
    requires Replay.RecordOne(c, live, a).Ok?
    ensures var next := Replay.RecordOne(c, live, a).value;
            && c.step(live.state, a).Ok? && next.state == c.step(live.state, a).value.state
            && |next.trace.steps| == |live.trace.steps| + 1
            && c.observeAfter(c.step(live.state, a).value) == Ok(next.trace.steps[|live.trace.steps|].body.view)
  {
  }

  lemma {:induction false} FoundInLegal(c: Replay.Content, legal: seq<Replay.Action>, id: Id)
    requires Replay.FindAction(c, legal, id).Some?
    ensures Replay.FindAction(c, legal, id).value in legal && c.actionId(Replay.FindAction(c, legal, id).value) == id
    decreases |legal|
  {
    if c.actionId(legal[0]) != id {
      FoundInLegal(c, legal[1..], id);
    }
  }

  /** An accepted action is answered with what its transition shows. */
  lemma AnswerShowsAction(d: Deployment, r: Record, q: ActionRequest) returns (t: Replay.Transition)
    requires Committed(d, r, q).Ok?
    ensures TakenBy(d, r, q.actionId, t)
    ensures ShowsTransition(d, Committed(d, r, q).value.view, t)
  {
    hide Replay.ResumedPlayer, Replay.FindAction, Replay.RecordOne;
    var c := d.content;
    var live := Replay.ResumedPlayer(c, r.save).value;
    var legal := c.enumerate(live.state).value;
    FoundInLegal(c, legal, q.actionId);
    var a := Replay.FindAction(c, legal, q.actionId).value;
    RecordedView(c, live, a);
    t := c.step(live.state, a).value;
  }

  /** A session without actions shows its first state; any other shows its last transition. */
  ghost predicate ShowsLatest(d: Deployment, r: Record) {
    var c, live := d.content, Replay.ResumedPlayer(d.content, r.save);
    && live.Ok? && r.view.revision == |r.save.actionIds|
    && d.actionPage(live.value.state, 0, d.limits.defaultPageSize) == Some(r.view.catalog)
    && if r.save.actionIds == [] then c.observe(live.value.state) == Ok(r.view.observation)
       else
         var last := |r.save.actionIds| - 1;
         var before := Replay.ChooseAll(c, Replay.SessionOf(c, r.save.start).value, r.save.actionIds[..last]);
         && before.Ok?
         && exists a :: Shows(c, before.value.state, a, r.save.actionIds[last], live.value.state, r.view.observation)
  }

  /** The action of that identity leads from the one state to the other and shows the observation. */
  predicate Shows(
    c: Replay.Content, before: Replay.State, a: Replay.Action, actionId: Id, after: Replay.State, shown: Replay.View)
  {
    && c.actionId(a) == actionId && c.step(before, a).Ok? && c.step(before, a).value.state == after
    && c.observeAfter(c.step(before, a).value) == Ok(shown)
  }

  lemma FirstView(c: Replay.Content, start: Replay.TraceStart)
    requires Replay.SessionOf(c, start).Ok?
    ensures var begun := Replay.SessionOf(c, start).value;
            begun.trace.steps == [] && c.observe(begun.state) == Ok(begun.trace.genesis.view)
  {
  }

  /** Whatever a kept record went through, it shows the session its save resumes to. */
  lemma KeptShowsLatest(d: Deployment, r: Record)
    requires Kept(d, r)
    ensures ShowsLatest(d, r)
  {
    hide Replay.SessionOf, Replay.FindAction, Replay.RecordOne, Replay.ChooseAll;
    var c, ids := d.content, r.save.actionIds;
    var live := Replay.ResumedPlayer(c, r.save).value;
    var begun := Replay.SessionOf(c, r.save.start).value;
    FirstView(c, r.save.start);
    ResumedSteps(c, r.save);
    if ids == [] {
      NoChoice(c, begun);
    } else {
      LastChoiceMade(c, begun, ids);
      var before := Replay.ChooseAll(c, begun, ids[..|ids| - 1]).value;
      var legal := c.enumerate(before.state).value;
      FoundInLegal(c, legal, ids[|ids| - 1]);
      var a := Replay.FindAction(c, legal, ids[|ids| - 1]).value;
      RecordedView(c, before, a);
      assert Shows(c, before.state, a, ids[|ids| - 1], live.state, r.view.observation);
    }
  }

  lemma NoChoice(c: Replay.Content, live: Replay.Live)
    ensures Replay.ChooseAll(c, live, []) == Ok(live)
  {
  }

  lemma LastChoiceMade(c: Replay.Content, begun: Replay.Live, ids: seq<Id>)
    requires ids != [] && Replay.ChooseAll(c, begun, ids).Ok?
    ensures Replay.ChooseAll(c, begun, ids[..|ids| - 1]).Ok?
    ensures var before := Replay.ChooseAll(c, begun, ids[..|ids| - 1]).value;
            && c.enumerate(before.state).Ok?
            && var action := Replay.FindAction(c, c.enumerate(before.state).value, ids[|ids| - 1]);
            action.Some? && Replay.RecordOne(c, before, action.value) == Replay.ChooseAll(c, begun, ids)
  {
    hide Replay.RecordOne, Replay.FindAction;
  }

  // ---- The save is always the session ----

  lemma OpenedIsKept(d: Deployment, live: Replay.Live)
    requires Opened(d, live).Ok?
    requires Replay.ResumedPlayer(d.content, Replay.PlayerTraceOf(d.content, live).value) == Ok(live)
    ensures Kept(d, Opened(d, live).value)
  {
    hide Replay.ResumedPlayer, ViewOf;
  }

  lemma CommitKeepsSave(d: Deployment, r: Record, q: ActionRequest)
    requires Replay.FaithfulSteps(d.content) && Committed(d, r, q).Ok?
    ensures Kept(d, Committed(d, r, q).value)
  {
    hide Replay.FaithfulSteps, Replay.ResumedPlayer, Replay.RecordOne, ViewOf;
    Replay.NextSaves(d.content, r.save, q.actionId);
  }

  /** Whatever is asked of a session, its stored save keeps resuming to the session it shows. */
  lemma {:induction false} SaveStaysKept(d: Deployment, r: Record, ops: seq<Operation>)
    requires Replay.FaithfulSteps(d.content) && Kept(d, r)
    ensures Kept(d, Run(d, r, ops))
    decreases |ops|
  {
    hide Replay.FaithfulSteps, Committed, Replay.ResumedPlayer, ViewOf;
    if ops != [] {
      SaveStaysKept(d, r, ops[..|ops| - 1]);
      var before, last := Run(d, r, ops[..|ops| - 1]), ops[|ops| - 1];
      if last.ActOp? && ActOn(d, before, last.request).record != before {
        CommitKeepsSave(d, before, last.request);
      }
    }
  }

  predicate Answered(d: Deployment, r: Record, q: ActionRequest, view: SessionView) {
    d.wellShaped(q) && var e := FindEntry(r.ledger, q.commandId);
      e.Some? && e.value.fingerprint == d.fingerprint(q) && e.value.view == view
  }

  lemma AcceptedIsAnswered(d: Deployment, r: Record, q: ActionRequest)
    requires ActOn(d, r, q).answer.Ok?
    ensures Answered(d, ActOn(d, r, q).record, q, ActOn(d, r, q).answer.value)
  {
    hide Committed;
    var next := ActOn(d, r, q).record;
    if FindEntry(r.ledger, q.commandId).None? {
      CommitAdvances(d, r, q);
      FindEntryGrows(r.ledger, next.ledger[|r.ledger|..], q.commandId);
      assert r.ledger + next.ledger[|r.ledger|..] == next.ledger;
    }
  }

  /** Once accepted, a command is answered with its original view for ever, even after close, and changes nothing. */
  lemma {:induction false} AcceptedIsFinal(d: Deployment, r: Record, q: ActionRequest, view: SessionView, ops: seq<Operation>)
    requires Answered(d, r, q, view)
    ensures Answered(d, Run(d, r, ops), q, view)
    ensures ActOn(d, Run(d, r, ops), q) == Reply(Run(d, r, ops), Ok(view))
    decreases |ops|
  {
    if ops != [] {
      AcceptedIsFinal(d, r, q, view, ops[..|ops| - 1]);
      AnsweredStays(d, Run(d, r, ops[..|ops| - 1]), q, view, ops[|ops| - 1]);
    }
  }

  lemma AnsweredStays(d: Deployment, r: Record, q: ActionRequest, view: SessionView, op: Operation)
    requires Answered(d, r, q, view)
    ensures Answered(d, Perform(d, r, op), q, view)
  {
    hide ActOn;
    if op.ActOp? {
      ActGrows(d, r, op.request);
      var after := ActOn(d, r, op.request).record.ledger;
      FindEntryGrows(r.ledger, after[|r.ledger|..], q.commandId);
      assert r.ledger + after[|r.ledger|..] == after;
    }
  }

  /** The request was refused by a record that had already shown the revision it expects. */
  predicate Refused(d: Deployment, r: Record, q: ActionRequest) {
    ActOn(d, r, q).answer.Err? && q.expectedRevision <= Revision(r)
  }

  /** A different request that the ledger could not tell from this one. */
  predicate Confusable(d: Deployment, p: ActionRequest, q: ActionRequest) {
    p != q && p.commandId == q.commandId && d.fingerprint(p) == d.fingerprint(q)
  }

  predicate Distinguished(d: Deployment, op: Operation, q: ActionRequest) {
    op.ActOp? ==> !Confusable(d, op.request, q)
  }

  lemma RefusedStays(d: Deployment, r: Record, q: ActionRequest, op: Operation)
    requires Distinguished(d, op, q) && Refused(d, r, q)
    ensures Refused(d, Perform(d, r, op), q)
  {
    hide Committed;
    if op.ActOp? && ActOn(d, r, op.request).record != r {
      var p := op.request;
      var next := ActOn(d, r, p).record;
      CommitAdvances(d, r, p);
      FindEntryGrows(r.ledger, next.ledger[|r.ledger|..], q.commandId);
      assert r.ledger + next.ledger[|r.ledger|..] == next.ledger;
      assert p != q;
      FindEntryIs(next.ledger[|r.ledger|..], q.commandId);
      assert next.ledger[|r.ledger|..] == [next.ledger[|r.ledger|]];
    }
  }

  /** A refused action can never be accepted by a late duplicate, whatever distinguishable requests arrive in between. */
  lemma {:induction false} RefusedIsFinal(d: Deployment, r: Record, q: ActionRequest, ops: seq<Operation>)
    requires (forall op <- ops :: Distinguished(d, op, q)) && Refused(d, r, q)
    ensures Refused(d, Run(d, r, ops), q)
    decreases |ops|
  {
    if ops != [] {
      RefusedIsFinal(d, r, q, ops[..|ops| - 1]);
      RefusedStays(d, Run(d, r, ops[..|ops| - 1]), q, ops[|ops| - 1]);
    }
  }

  /** Without that condition it fails: an accepted request answers for every request it is confusable with. */
  lemma ConfusedIsAnswered(d: Deployment, r: Record, p: ActionRequest, q: ActionRequest)
    requires ActOn(d, r, p).answer.Ok? && Confusable(d, p, q) && d.wellShaped(q)
    ensures ActOn(d, ActOn(d, r, p).record, q) == Reply(ActOn(d, r, p).record, ActOn(d, r, p).answer)
  {
    hide Committed;
    AcceptedIsAnswered(d, r, p);
  }

  /**
   * The bound on the expected revision is needed. Right after an accepted request, another one takes effect if and only
   * if it names exactly the new revision and state and commits; it was then refused as stale before.
   */
  lemma EarlyRequestIsRefused(d: Deployment, r: Record, p: ActionRequest, q: ActionRequest)
    requires ActOn(d, r, p).record != r
    ensures var next := ActOn(d, r, p).record;
            ActOn(d, next, q).record != next <==>
              && d.wellShaped(q) && FindEntry(next.ledger, q.commandId).None?
              && Revision(r) + 1 <= U64_MAX && q.expectedRevision == Revision(r) + 1
              && q.expectedStateId == next.view.catalog.stateId && Committed(d, next, q).Ok?
    ensures var next := ActOn(d, r, p).record;
            ActOn(d, next, q).record != next ==>
              ActOn(d, r, q).answer == Err(StaleState) && q.expectedRevision == Revision(r) + 1
  {
    hide Committed;
    var next := ActOn(d, r, p).record;
    CommitAdvances(d, r, p);
    FindEntryGrows(r.ledger, next.ledger[|r.ledger|..], q.commandId);
    assert r.ledger + next.ledger[|r.ledger|..] == next.ledger;
    if Committed(d, next, q).Ok? {
      CommitAdvances(d, next, q);
    }
  }

  // ---- An instance: refused now, accepted next ----

  /** A kernel whose only game offers one action, for ever. */
  function OneAction(
    s: Replay.State, a: Replay.Action, events: Replay.KernelEvents, entropy: Replay.Entropy, draws: Replay.EntropyDraws,
    view: Replay.View, error: Replay.Error): Replay.Content
  {
    Replay.Content(
      true, "build", true,
      (preset, seed) => if preset == "preset" && seed == 0 then Ok(s) else Err(error),
      (selection, seed) => Err(error),
      selection => Err(error),
      state => true, state => Replay.Origin.Preset("preset"), state => 0, state => entropy, state => "state",
      action => "action", state => Ok([a]), legal => Ok("legal"),
      (state, action) =>
        if action == a then Ok(Replay.Transition(a, "state", events, entropy, draws, entropy, "state", state)) else Err(error),
      state => Ok(view), transition => Ok(view), emitted => Ok("events"), shown => Ok("view"),
      genesis => Ok("genesis"), body => Ok("step"))
  }

  /** It is served with every size zero and no limit in the way. */
  function ServedFreely(content: Replay.Content): Deployment {
    Deployment(
      content, Limits(0, 0, 0, 1, 1),
      (state, offset: nat, size: nat) => Some(CatalogPage("state", 1, offset, None, [])),
      save => "", view => 0, page => 0, (commandId, fingerprint, view) => 0,
      (q: ActionRequest) => q.commandId, (q: ActionRequest) => true, id => true, error => false)
  }

  /** Whatever the session, the one action commits. */
  lemma CommitsFreely(
    c: Replay.Content, s: Replay.State, a: Replay.Action, events: Replay.KernelEvents, entropy: Replay.Entropy,
    draws: Replay.EntropyDraws, view: Replay.View, error: Replay.Error, r: Record, q: ActionRequest)
    requires c == OneAction(s, a, events, entropy, draws, view, error)
    requires Kept(ServedFreely(c), r) && r.ledgerBytes == SumBytes(r.ledger) == 0 && Revision(r) < U64_MAX
    requires q.actionId == "action"
    ensures Committed(ServedFreely(c), r, q).Ok?
    ensures var next := Committed(ServedFreely(c), r, q).value;
            next.ledgerBytes == 0 && next.view.catalog.stateId == "state"
  {
    var live := Replay.ResumedPlayer(c, r.save).value;
    ResumedSteps(c, r.save);
    ResumedStart(c, r.save);
    hide Replay.ResumedPlayer;
    assert Replay.FindAction(c, [a], "action") == Some(a);
    assert Replay.NextStep(c, live, a).Ok?;
  }

  lemma ResumedStart(c: Replay.Content, p: Replay.PlayerTrace)
    requires Replay.ResumedPlayer(c, p).Ok?
    ensures !Replay.ResumedPlayer(c, p).value.trace.genesis.start.FixtureState?
  {
    Replay.ResumedGenesis(c, p);
  }

  lemma FirstRecord(
    s: Replay.State, a: Replay.Action, events: Replay.KernelEvents, entropy: Replay.Entropy, draws: Replay.EntropyDraws,
    view: Replay.View, error: Replay.Error) returns (r: Record)
    ensures var c := OneAction(s, a, events, entropy, draws, view, error);
            && Replay.FaithfulSteps(c) && Replay.FaithfulStarts(c)
            && Kept(ServedFreely(c), r) && Valid(r) && r.ledger == [] && !r.closed && r.ledgerBytes == 0
            && Revision(r) == 0 && r.view.catalog.stateId == "state"
  {
    var c := OneAction(s, a, events, entropy, draws, view, error);
    var start := Replay.CharacterPreset("preset", 0);
    var live := Replay.SessionOf(c, start).value;
    Replay.StartedSaves(c, start);
    r := Opened(ServedFreely(c), live).value;
    OpenedIsKept(ServedFreely(c), live);
  }

  /** The same request, one revision early: refused as stale, then accepted. */
  lemma RefusedThenAccepted(
    s: Replay.State, a: Replay.Action, events: Replay.KernelEvents, entropy: Replay.Entropy, draws: Replay.EntropyDraws,
    view: Replay.View, error: Replay.Error) returns (r: Record)
    ensures var c := OneAction(s, a, events, entropy, draws, view, error);
            var d := ServedFreely(c);
            var first := ActionRequest("first", 0, "state", "action");
            var early := ActionRequest("early", 1, "state", "action");
            && Replay.FaithfulSteps(c) && Replay.FaithfulStarts(c) && Kept(d, r) && Valid(r)
            && ActOn(d, r, early) == Reply(r, Err(StaleState))
            && ActOn(d, r, first).answer.Ok?
            && ActOn(d, ActOn(d, r, first).record, early).answer.Ok?
  {
    r := FirstRecord(s, a, events, entropy, draws, view, error);
    hide Kept, Committed, Replay.FaithfulSteps, Replay.FaithfulStarts;
    var c := OneAction(s, a, events, entropy, draws, view, error);
    var d := ServedFreely(c);
    var first := ActionRequest("first", 0, "state", "action");
    var early := ActionRequest("early", 1, "state", "action");
    CommitsFreely(c, s, a, events, entropy, draws, view, error, r, first);
    var next := Committed(d, r, first).value;
    CommitAdvances(d, r, first);
    CommitKeepsSave(d, r, first);
    CommitsFreely(c, s, a, events, entropy, draws, view, error, next, early);
    assert ActOn(d, r, early) == Reply(r, Err(StaleState));
    assert ActOn(d, r, first) == Reply(next, Ok(next.view));
    assert next.ledger == next.ledger[..0] + [next.ledger[0]];
    assert first.commandId[0] != early.commandId[0];
    assert FindEntry(next.ledger[1..], "early").None?;
    assert FindEntry(next.ledger, "early").None?;
    assert ActOn(d, next, early).answer.Ok?;
  }
}
