// Session lifetimes and creation idempotency (crates/forge-server/src/registry.rs).
module Registry {
  import opened Basics
  import opened Service
  import Replay

  datatype CreateRequest = StartGame(start: Replay.TraceStart) | ResumeSave(saveJson: string)

  datatype CreateResponse = CreateResponse(sessionId: Id, view: SessionView)

  datatype RegistryError =
    | BadInput | UnknownSession | LimitReached | CreationConflict | Unavailable | ServiceFailed(error: ServiceError)

  datatype SessionRecord = SessionRecord(
    sessionId: Id, creationId: Id, fingerprint: Id, response: CreateResponse, service: Record, closed: bool)

  datatype Platform = Platform(
    deployment: Deployment,
    maximumSessions: nat,
    maximumActive: nat,
    validCreationId: Id -> bool,
    requestFits: CreateRequest -> bool,
    creationFingerprint: CreateRequest -> Id,
    decode: string -> Option<Replay.PlayerTrace>,
    responseFits: CreateResponse -> bool)

  type Records = seq<SessionRecord>

  /** SessionService::start and SessionService::resume. */
  function OpenService(p: Platform, request: CreateRequest): Result<Record, ServiceError> {
    var d := p.deployment;
    match request
    case StartGame(start) =>
      var live := Replay.SessionOf(d.content, start);
      if live.Err? then Err(if live.error.ResourceExhausted? then ResourceLimit else InvalidInput)
      else Opened(d, live.value)
    case ResumeSave(json) =>
      var save := p.decode(json);
      if save.None? then Err(InvalidInput)
      else
        var live := Replay.ResumedPlayer(d.content, save.value);
        if live.Err? then Err(if live.error.ResourceExhausted? then ResourceLimit else InvalidInput)
        else Opened(d, live.value)
  }

  function FindCreation(records: Records, creationId: Id): Option<SessionRecord> {
    if records == [] then None
    else if records[0].creationId == creationId then Some(records[0])
    else FindCreation(records[1..], creationId)
  }

  /** The position of a session; the number of records if there is none. */
  function IndexOf(records: Records, sessionId: Id): (i: nat)
    ensures i <= |records|
    ensures i < |records| ==> records[i].sessionId == sessionId
    ensures forall j :: 0 <= j < i ==> records[j].sessionId != sessionId
  {
    if records == [] || records[0].sessionId == sessionId then 0 else 1 + IndexOf(records[1..], sessionId)
  }

  function ActiveCount(records: Records): nat {
    if records == [] then 0
    else ActiveCount(records[..|records| - 1]) + if records[|records| - 1].closed then 0 else 1
  }

  /** The first candidate identity no record uses yet. */
  function FreshId(records: Records, candidates: seq<Id>): Option<Id> {
    if candidates == [] then None
    else if IndexOf(records, candidates[0]) == |records| then Some(candidates[0])
    else FreshId(records, candidates[1..])
  }

  const MAX_RANDOM_ID_ATTEMPTS := 4

  function Publish(p: Platform, records: Records, creationId: Id, request: CreateRequest, candidates: seq<Id>)
    : Result<SessionRecord, RegistryError>
    requires |candidates| <= MAX_RANDOM_ID_ATTEMPTS
  {
    var service := OpenService(p, request);
    if service.Err? then Err(ServiceFailed(service.error))
    else
      var sessionId := FreshId(records, candidates);
      if sessionId.None? then Err(Unavailable)
      else
        var response := CreateResponse(sessionId.value, service.value.view);
        if !p.responseFits(response) then Err(LimitReached)
        else Ok(SessionRecord(
          sessionId.value, creationId, p.creationFingerprint(request), response, service.value, false))
  }

  datatype Created = Created(records: Records, answer: Result<CreateResponse, RegistryError>)

  function CreateOn(p: Platform, records: Records, creationId: Id, request: CreateRequest, candidates: seq<Id>): Created
    requires |candidates| <= MAX_RANDOM_ID_ATTEMPTS
  {
    if !p.validCreationId(creationId) then Created(records, Err(BadInput))
    else if !p.requestFits(request) then Created(records, Err(LimitReached))
    else
      var existing := FindCreation(records, creationId);
      if existing.Some? then Created(
        records,
        if existing.value.fingerprint == p.creationFingerprint(request) then Ok(existing.value.response)
        else Err(CreationConflict))
      else if |records| >= p.maximumSessions || ActiveCount(records) >= p.maximumActive then
        Created(records, Err(LimitReached))
      else
        var made := Publish(p, records, creationId, request, candidates);
        if made.Err? then Created(records, Err(made.error)) else Created(records + [made.value], Ok(made.value.response))
  }

  function CloseSession(records: Records, sessionId: Id): Records {
    var i := IndexOf(records, sessionId);
    if i == |records| then records
    else records[i := records[i].(service := CloseOn(records[i].service), closed := true)]
  }

  datatype Acted = Acted(records: Records, answer: Result<SessionView, RegistryError>)

  function ActSession(p: Platform, records: Records, sessionId: Id, q: ActionRequest): Acted {
    var i := IndexOf(records, sessionId);
    if i == |records| then Acted(records, Err(UnknownSession))
    else
      var reply := ActOn(p.deployment, records[i].service, q);
      Acted(records[i := records[i].(service := reply.record)],
            if reply.answer.Ok? then Ok(reply.answer.value) else Err(ServiceFailed(reply.answer.error)))
  }

  class SessionRegistry {
    const platform: Platform
    var records: Records

    constructor (platform: Platform)
      ensures this.platform == platform && records == []
    {
      this.platform, records := platform, [];
    }

    /** new: limits that leave no room for a session are refused. */
    static method Open(platform: Platform) returns (r: Option<SessionRegistry>)
      ensures r.None? <==>
        platform.maximumSessions == 0 || platform.maximumActive == 0 || platform.maximumActive > platform.maximumSessions
      ensures r.Some? ==> fresh(r.value) && r.value.platform == platform && r.value.records == []
    {
      if platform.maximumSessions == 0 || platform.maximumActive == 0
         || platform.maximumActive > platform.maximumSessions {
        return None;
      }
      var registry := new SessionRegistry(platform);
      return Some(registry);
    }

    /** start and resume; the random identities the host offers are a parameter. */
    method Create(creationId: Id, request: CreateRequest, candidates: seq<Id>)
      returns (answer: Result<CreateResponse, RegistryError>)
      requires |candidates| <= MAX_RANDOM_ID_ATTEMPTS
      modifies this
      ensures Created(records, answer) == CreateOn(platform, old(records), creationId, request, candidates)
    {
      if !platform.validCreationId(creationId) {
        return Err(BadInput);
      }
      if !platform.requestFits(request) {
        return Err(LimitReached);
      }
      var i := 0;
      while i < |records|
        invariant i <= |records| && records == old(records)
        invariant FindCreation(records, creationId) == FindCreation(records[i..], creationId)
      {
        if records[i].creationId == creationId {
          if records[i].fingerprint == platform.creationFingerprint(request) {
            return Ok(records[i].response);
          }
          return Err(CreationConflict);
        }
        assert records[i..][1..] == records[i + 1..];
        i := i + 1;
      }
      if |records| >= platform.maximumSessions || ActiveCount(records) >= platform.maximumActive {
        return Err(LimitReached);
      }
      var made := Publish(platform, records, creationId, request, candidates);
      if made.Err? {
        return Err(made.error);
      }
      records := records + [made.value];
      return Ok(made.value.response);
    }

    method Act(sessionId: Id, q: ActionRequest) returns (answer: Result<SessionView, RegistryError>)
      modifies this
      ensures Acted(records, answer) == ActSession(platform, old(records), sessionId, q)
    {
      var i := IndexOf(records, sessionId);
      if i == |records| {
        return Err(UnknownSession);
      }
      var reply := ActOn(platform.deployment, records[i].service, q);
      records := records[i := records[i].(service := reply.record)];
      answer := if reply.answer.Ok? then Ok(reply.answer.value) else Err(ServiceFailed(reply.answer.error));
    }

    method Close(sessionId: Id) returns (closed: bool)
      modifies this
      ensures records == CloseSession(old(records), sessionId)
      ensures closed <==> IndexOf(old(records), sessionId) < |old(records)|
    {
      var i := IndexOf(records, sessionId);
      if i == |records| {
        return false;
      }
      records := records[i := records[i].(service := CloseOn(records[i].service), closed := true)];
      return true;
    }

    /** The one active session, for registries that allow one. */
    method Current() returns (current: Result<Option<CreateResponse>, RegistryError>)
      ensures platform.maximumActive != 1 ==> current == Err(BadInput)
      ensures platform.maximumActive == 1 && ValidRecords(platform, records) ==>
        current.Ok? && (current.value.None? <==> forall r <- records :: r.closed)
        && (current.value.Some? ==> exists r <- records ::
              !r.closed && current.value.value == CreateResponse(r.sessionId, r.service.view))
    {
      if platform.maximumActive != 1 {
        return Err(BadInput);
      }
      var i := 0;
      while i < |records| && records[i].closed
        invariant i <= |records| && forall r <- records[..i] :: r.closed
      {
        assert records[..i + 1] == records[..i] + [records[i]];
        i := i + 1;
      }
      if i == |records| {
        assert records[..i] == records;
        return Ok(None);
      }
      assert records[i] in records;
      if records[i].service.closed {
        return Err(ServiceFailed(SessionClosed));
      }
      return Ok(Some(CreateResponse(records[i].sessionId, records[i].service.view)));
    }
  }

  // ---- What every registry keeps ----

  predicate ValidRecord(r: SessionRecord) {
    Valid(r.service) && r.closed == r.service.closed && r.response.sessionId == r.sessionId
  }

  /** Every creation id and every session id names one record; the limits hold. */
  predicate ValidRecords(p: Platform, records: Records) {
    && (forall r <- records :: ValidRecord(r))
    && (forall i, j :: 0 <= i < j < |records| ==>
          records[i].creationId != records[j].creationId && records[i].sessionId != records[j].sessionId)
    && |records| <= p.maximumSessions
    && ActiveCount(records) <= p.maximumActive
  }

  lemma {:induction false} FindCreationIs(records: Records, creationId: Id)
    ensures FindCreation(records, creationId).Some? <==> exists r <- records :: r.creationId == creationId
    ensures FindCreation(records, creationId).Some? ==>
      FindCreation(records, creationId).value in records && FindCreation(records, creationId).value.creationId == creationId
    decreases |records|
  {
    if records != [] {
      FindCreationIs(records[1..], creationId);
      assert records == [records[0]] + records[1..];
    }
  }

  lemma {:induction false} FreshIdIsUnused(records: Records, candidates: seq<Id>)
    ensures FreshId(records, candidates).Some? ==> forall r <- records :: r.sessionId != FreshId(records, candidates).value
    decreases |candidates|
  {
    if candidates != [] && IndexOf(records, candidates[0]) != |records| {
      FreshIdIsUnused(records, candidates[1..]);
    }
  }

  lemma {:induction false} ActiveUpdate(records: Records, i: nat, r: SessionRecord)
    requires i < |records|
    ensures ActiveCount(records[i := r]) + (if records[i].closed then 0 else 1)
         == ActiveCount(records) + (if r.closed then 0 else 1)
    decreases |records|
  {
    var n := |records| - 1;
    if i < n {
      ActiveUpdate(records[..n], i, r);
      assert records[i := r][..n] == records[..n][i := r];
    } else {
      assert records[i := r][..n] == records[..n];
    }
  }

  lemma OpenedServiceValid(p: Platform, request: CreateRequest)
    requires OpenService(p, request).Ok?
    ensures Valid(OpenService(p, request).value) && !OpenService(p, request).value.closed
  {
    hide Replay.ResumedPlayer, Replay.SessionOf;
    match request
    case StartGame(start) => OpenedIsValid(p.deployment, Replay.SessionOf(p.deployment.content, start).value);
    case ResumeSave(json) =>
      OpenedIsValid(p.deployment, Replay.ResumedPlayer(p.deployment.content, p.decode(json).value).value);
  }

  lemma CreateKeepsValid(p: Platform, records: Records, creationId: Id, request: CreateRequest, candidates: seq<Id>)
    requires |candidates| <= MAX_RANDOM_ID_ATTEMPTS && ValidRecords(p, records)
    ensures ValidRecords(p, CreateOn(p, records, creationId, request, candidates).records)
  {
    hide OpenService, Valid, ValidRecords, ValidRecord, ActiveCount, FindCreation, FreshId;
    var after := CreateOn(p, records, creationId, request, candidates).records;
    if after != records {
      var made := Publish(p, records, creationId, request, candidates).value;
      OpenedServiceValid(p, request);
      FindCreationIs(records, creationId);
      FreshIdIsUnused(records, candidates);
      PublishedIsValid(made);
      AppendKeepsValid(p, records, made);
    }
  }

  lemma PublishedIsValid(made: SessionRecord)
    requires Valid(made.service) && !made.closed && !made.service.closed && made.response.sessionId == made.sessionId
    ensures ValidRecord(made)
  {
  }

  lemma AppendKeepsValid(p: Platform, records: Records, made: SessionRecord)
    requires ValidRecords(p, records) && ValidRecord(made) && !made.closed
    requires forall r <- records :: r.creationId != made.creationId && r.sessionId != made.sessionId
    requires |records| < p.maximumSessions && ActiveCount(records) < p.maximumActive
    ensures ValidRecords(p, records + [made])
  {
    hide ValidRecord, ActiveCount;
    var after := records + [made];
    ActiveAppended(records, made);
    forall i, j | 0 <= i < j < |after|
      ensures after[i].creationId != after[j].creationId && after[i].sessionId != after[j].sessionId
    {
      assert after[i] == records[i] && after[i] in records;
      if j < |records| {
        assert after[j] == records[j];
      } else {
        assert after[j] == made;
      }
    }
    assert forall r <- after :: r in records || r == made;
  }

  lemma ActiveAppended(records: Records, made: SessionRecord)
    ensures ActiveCount(records + [made]) == ActiveCount(records) + if made.closed then 0 else 1
  {
    assert (records + [made])[..|records|] == records;
  }

  lemma UpdateKeepsValid(p: Platform, records: Records, i: nat, service: Record, closed: bool)
    requires ValidRecords(p, records) && i < |records| && Valid(service)
    requires closed == service.closed && (records[i].closed ==> closed)
    ensures ValidRecords(p, records[i := records[i].(service := service, closed := closed)])
  {
    hide Valid;
    var updated := records[i].(service := service, closed := closed);
    ActiveUpdate(records, i, updated);
    assert ValidRecord(records[i]);
    forall r | r in records[i := updated] ensures ValidRecord(r) {
      assert r == updated || r in records;
    }
  }

  // ---- Runs ----

  datatype RegistryOp =
    | CreateOp(creationId: Id, request: CreateRequest, candidates: seq<Id>)
    | ActionOp(sessionId: Id, action: ActionRequest)
    | EndOp(sessionId: Id)

  function Apply(p: Platform, records: Records, op: RegistryOp): Records {
    match op
    case CreateOp(creationId, request, candidates) =>
      if |candidates| <= MAX_RANDOM_ID_ATTEMPTS then CreateOn(p, records, creationId, request, candidates).records
      else records
    case ActionOp(sessionId, q) => ActSession(p, records, sessionId, q).records
    case EndOp(sessionId) => CloseSession(records, sessionId)
  }

  lemma ApplyKeepsValid(p: Platform, records: Records, op: RegistryOp)
    requires ValidRecords(p, records)
    ensures ValidRecords(p, Apply(p, records, op))
  {
    hide Valid, ActOn, CreateOn, ActiveCount;
    match op
    case CreateOp(creationId, request, candidates) =>
      if |candidates| <= MAX_RANDOM_ID_ATTEMPTS {
        CreateKeepsValid(p, records, creationId, request, candidates);
      }
    case ActionOp(sessionId, q) =>
      var i := IndexOf(records, sessionId);
      if i < |records| {
        assert ValidRecord(records[i]);
        ActKeepsValid(p.deployment, records[i].service, q);
        ActKeepsClosed(p.deployment, records[i].service, q);
        var next := ActOn(p.deployment, records[i].service, q).record;
        UpdateKeepsValid(p, records, i, next, records[i].closed);
      }
    case EndOp(sessionId) =>
      var i := IndexOf(records, sessionId);
      if i < |records| {
        assert ValidRecord(records[i]);
        CloseKeepsValid(records[i].service);
        UpdateKeepsValid(p, records, i, CloseOn(records[i].service), true);
      }
  }

  lemma CloseKeepsValid(r: Record)
    requires Valid(r)
    ensures Valid(CloseOn(r))
  {
  }

  lemma ActKeepsClosed(d: Deployment, r: Record, q: ActionRequest)
    ensures ActOn(d, r, q).record.closed == r.closed
  {
    hide Committed;
    if ActOn(d, r, q).record != r {
      CommitAdvances(d, r, q);
    }
  }

  /** What one operation does to one session. */
  function Projected(sessionId: Id, op: RegistryOp): seq<Operation> {
    match op
    case ActionOp(s, q) => if s == sessionId then [ActOp(q)] else []
    case EndOp(s) => if s == sessionId then [CloseOp] else []
    case CreateOp(_, _, _) => []
  }

  /** Records keep their place, their identities and their creation response; only operations naming them change them. */
  lemma ApplyKeepsRecord(p: Platform, records: Records, op: RegistryOp, i: nat)
    requires ValidRecords(p, records) && i < |records|
    ensures var after := Apply(p, records, op);
            && i < |after| && after[i].sessionId == records[i].sessionId
            && after[i].creationId == records[i].creationId && after[i].fingerprint == records[i].fingerprint
            && after[i].response == records[i].response
            && after[i].service == Run(p.deployment, records[i].service, Projected(records[i].sessionId, op))
  {
    hide Valid, ActOn, ValidRecord, ActiveCount, Publish;
    var id := records[i].sessionId;
    match op
    case CreateOp(_, _, _) =>
    case ActionOp(s, q) =>
      RunOne(p.deployment, records[i].service, ActOp(q));
    case EndOp(s) =>
      RunOne(p.deployment, records[i].service, CloseOp);
  }

  lemma RunOne(d: Deployment, r: Record, op: Operation)
    ensures Run(d, r, [op]) == Perform(d, r, op) && Run(d, r, []) == r
  {
    assert [op][..0] == [];
  }

  function ApplyAll(p: Platform, records: Records, ops: seq<RegistryOp>): Records {
    if ops == [] then records else Apply(p, ApplyAll(p, records, ops[..|ops| - 1]), ops[|ops| - 1])
  }

  function ProjectedAll(sessionId: Id, ops: seq<RegistryOp>): seq<Operation> {
    if ops == [] then [] else ProjectedAll(sessionId, ops[..|ops| - 1]) + Projected(sessionId, ops[|ops| - 1])
  }

  lemma {:induction false} RunConcat(d: Deployment, r: Record, a: seq<Operation>, b: seq<Operation>)
    ensures Run(d, r, a + b) == Run(d, Run(d, r, a), b)
    decreases |b|
  {
    if b == [] {
      assert a + b == a;
    } else {
      RunConcat(d, r, a, b[..|b| - 1]);
      assert (a + b)[..|a + b| - 1] == a + b[..|b| - 1];
    }
  }

  /** A registry is its sessions side by side: each evolves by its own operations only, and each creation id has one. */
  lemma {:induction false} SessionsAreIndependent(p: Platform, records: Records, ops: seq<RegistryOp>, i: nat)
    requires ValidRecords(p, records) && i < |records|
    ensures var after := ApplyAll(p, records, ops);
            && ValidRecords(p, after)
            && i < |after| && after[i].sessionId == records[i].sessionId
            && after[i].creationId == records[i].creationId && after[i].fingerprint == records[i].fingerprint
            && after[i].response == records[i].response
            && after[i].service == Run(p.deployment, records[i].service, ProjectedAll(records[i].sessionId, ops))
    decreases |ops|
  {
    hide ValidRecords, Apply, Projected;
    if ops != [] {
      var front, last := ops[..|ops| - 1], ops[|ops| - 1];
      SessionsAreIndependent(p, records, front, i);
      var before := ApplyAll(p, records, front);
      ApplyKeepsRecord(p, before, last, i);
      ApplyKeepsValid(p, before, last);
      var id := records[i].sessionId;
      RunConcat(p.deployment, records[i].service, ProjectedAll(id, front), Projected(id, last));
    }
  }

  lemma {:induction false} ApplyAllValid(p: Platform, ops: seq<RegistryOp>)
    ensures ValidRecords(p, ApplyAll(p, [], ops))
    decreases |ops|
  {
    hide Apply;
    if ops != [] {
      ApplyAllValid(p, ops[..|ops| - 1]);
      ApplyKeepsValid(p, ApplyAll(p, [], ops[..|ops| - 1]), ops[|ops| - 1]);
    }
  }

  lemma {:induction false} FindCreationAt(p: Platform, records: Records, i: nat)
    requires i < |records|
    requires forall j, k :: 0 <= j < k < |records| ==> records[j].creationId != records[k].creationId
    ensures FindCreation(records, records[i].creationId) == Some(records[i])
    decreases |records|
  {
    if i > 0 {
      FindCreationAt(p, records[1..], i - 1);
    }
  }

  /** An accepted creation is answered with its original response for ever, and never makes a second session. */
  lemma CreationIsFinal(
    p: Platform, records: Records, creationId: Id, request: CreateRequest, candidates: seq<Id>,
    ops: seq<RegistryOp>, again: seq<Id>)
    requires |candidates| <= MAX_RANDOM_ID_ATTEMPTS && |again| <= MAX_RANDOM_ID_ATTEMPTS && ValidRecords(p, records)
    requires CreateOn(p, records, creationId, request, candidates).answer.Ok?
    ensures var first := CreateOn(p, records, creationId, request, candidates);
            var later := ApplyAll(p, first.records, ops);
            CreateOn(p, later, creationId, request, again) == Created(later, first.answer)
  {
    hide ActOn, Valid, OpenService, ApplyAll, ProjectedAll, Run;
    var first := CreateOn(p, records, creationId, request, candidates);
    CreateKeepsValid(p, records, creationId, request, candidates);
    FindCreationIs(records, creationId);
    var i: nat :| i < |first.records| && first.records[i].creationId == creationId
      && first.answer == Ok(first.records[i].response)
      && first.records[i].fingerprint == p.creationFingerprint(request);
    SessionsAreIndependent(p, first.records, ops, i);
    FindCreationAt(p, ApplyAll(p, first.records, ops), i);
  }

  /** At full active capacity, closing one session is enough to accept what was refused. */
  lemma ClosingRecovers(
    p: Platform, records: Records, creationId: Id, request: CreateRequest, candidates: seq<Id>, sessionId: Id)
    requires |candidates| <= MAX_RANDOM_ID_ATTEMPTS && ValidRecords(p, records)
    requires p.validCreationId(creationId) && p.requestFits(request) && FindCreation(records, creationId).None?
    requires |records| < p.maximumSessions && ActiveCount(records) == p.maximumActive
    requires Publish(p, CloseSession(records, sessionId), creationId, request, candidates).Ok?
    requires IndexOf(records, sessionId) < |records| && !records[IndexOf(records, sessionId)].closed
    ensures CreateOn(p, records, creationId, request, candidates).answer == Err(LimitReached)
    ensures CreateOn(p, CloseSession(records, sessionId), creationId, request, candidates).answer.Ok?
  {
    hide Publish, Valid;
    var i := IndexOf(records, sessionId);
    var closed := records[i].(service := CloseOn(records[i].service), closed := true);
    ActiveUpdate(records, i, closed);
    FindCreationIs(records, creationId);
    FindCreationIs(CloseSession(records, sessionId), creationId);
    forall r | r in CloseSession(records, sessionId) ensures r.creationId != creationId {
      if r == closed {
        assert records[i] in records;
      }
    }
  }

  // ---- Which refusals of a creation are final ----

  predicate Unused(records: Records, sessionId: Id) {
    IndexOf(records, sessionId) == |records|
  }

  /** The request opens a session, and some session id that is still unused gives it an answer that fits. */
  ghost predicate Startable(p: Platform, records: Records, request: CreateRequest) {
    && p.requestFits(request) && OpenService(p, request).Ok?
    && exists sessionId: Id ::
         Unused(records, sessionId) && p.responseFits(CreateResponse(sessionId, OpenService(p, request).value.view))
  }

  /** Room for one more record, a creation id nobody holds, and a request the id can be answered for that opens. */
  ghost predicate Recoverable(p: Platform, records: Records, creationId: Id, request: CreateRequest) {
    && p.validCreationId(creationId) && p.requestFits(request)
    && FindCreation(records, creationId).None?
    && |records| < p.maximumSessions && 0 < p.maximumActive
    && exists other: CreateRequest ::
         p.creationFingerprint(other) == p.creationFingerprint(request) && Startable(p, records, other)
  }

  /** Some further operations lead to a registry that accepts the creation. */
  ghost predicate AcceptedLater(p: Platform, records: Records, creationId: Id, request: CreateRequest) {
    exists ops, candidates | |candidates| <= MAX_RANDOM_ID_ATTEMPTS ::
      CreateOn(p, ApplyAll(p, records, ops), creationId, request, candidates).answer.Ok?
  }

  lemma {:induction false} UnusedMeans(records: Records, sessionId: Id)
    ensures Unused(records, sessionId) <==> forall i :: 0 <= i < |records| ==> records[i].sessionId != sessionId
    decreases |records|
  {
    if records != [] {
      UnusedMeans(records[1..], sessionId);
      assert forall i :: 0 < i < |records| ==> records[i] == records[1..][i - 1];
    }
  }

  /** The same sessions under the same creation ids, possibly with more behind them. */
  predicate Continues(records: Records, later: Records) {
    && |records| <= |later|
    && forall i :: 0 <= i < |records| ==>
         && later[i].sessionId == records[i].sessionId && later[i].creationId == records[i].creationId
         && later[i].fingerprint == records[i].fingerprint
  }

  lemma LaterContinues(p: Platform, records: Records, ops: seq<RegistryOp>)
    requires ValidRecords(p, records)
    ensures ValidRecords(p, ApplyAll(p, records, ops)) && Continues(records, ApplyAll(p, records, ops))
  {
    hide ValidRecords, ApplyAll, ProjectedAll, Run;
    forall i | 0 <= i < |records|
      ensures i < |ApplyAll(p, records, ops)|
      ensures var r := ApplyAll(p, records, ops)[i];
              r.sessionId == records[i].sessionId && r.creationId == records[i].creationId
              && r.fingerprint == records[i].fingerprint
    {
      SessionsAreIndependent(p, records, ops, i);
    }
    StaysValid(p, records, ops);
    if records != [] {
      SessionsAreIndependent(p, records, ops, |records| - 1);
    }
  }

  lemma {:induction false} StaysValid(p: Platform, records: Records, ops: seq<RegistryOp>)
    requires ValidRecords(p, records)
    ensures ValidRecords(p, ApplyAll(p, records, ops))
    decreases |ops|
  {
    hide Apply, ValidRecords;
    if ops != [] {
      StaysValid(p, records, ops[..|ops| - 1]);
      ApplyKeepsValid(p, ApplyAll(p, records, ops[..|ops| - 1]), ops[|ops| - 1]);
    }
  }

  /** A creation id stays answered by the record that first took it. */
  lemma HeldStaysHeld(p: Platform, records: Records, later: Records, creationId: Id)
    requires ValidRecords(p, later) && Continues(records, later) && FindCreation(records, creationId).Some?
    ensures FindCreation(later, creationId).Some?
    ensures FindCreation(later, creationId).value.fingerprint == FindCreation(records, creationId).value.fingerprint
  {
    hide ValidRecord, ActiveCount, FindCreation;
    FindCreationIs(records, creationId);
    var i: nat :| i < |records| && records[i] == FindCreation(records, creationId).value;
    assert later[i].creationId == creationId;
    FindCreationAt(p, later, i);
  }

  lemma UnusedBefore(records: Records, later: Records, sessionId: Id)
    requires Continues(records, later) && Unused(later, sessionId)
    ensures Unused(records, sessionId)
  {
    hide Unused;
    UnusedMeans(later, sessionId);
    UnusedMeans(records, sessionId);
  }

  lemma StartableBefore(p: Platform, records: Records, later: Records, request: CreateRequest)
    requires Continues(records, later) && Startable(p, later, request)
    ensures Startable(p, records, request)
  {
    hide OpenService, Continues, Unused;
    var sessionId: Id :|
      Unused(later, sessionId) && p.responseFits(CreateResponse(sessionId, OpenService(p, request).value.view));
    UnusedBefore(records, later, sessionId);
  }

  lemma {:induction false} FreshIsUnused(records: Records, candidates: seq<Id>)
    requires FreshId(records, candidates).Some?
    ensures Unused(records, FreshId(records, candidates).value)
    decreases |candidates|
  {
    if IndexOf(records, candidates[0]) != |records| {
      FreshIsUnused(records, candidates[1..]);
    }
  }

  /** A session that is made comes from a request that could be started, with room for it. */
  lemma MadeWasStartable(p: Platform, records: Records, creationId: Id, request: CreateRequest, candidates: seq<Id>)
    requires |candidates| <= MAX_RANDOM_ID_ATTEMPTS && FindCreation(records, creationId).None?
    requires CreateOn(p, records, creationId, request, candidates).answer.Ok?
    ensures |records| < p.maximumSessions && 0 < p.maximumActive && Startable(p, records, request)
    ensures var after := CreateOn(p, records, creationId, request, candidates).records;
            && |after| == |records| + 1 && after[..|records|] == records
            && after[|records|].creationId == creationId
            && after[|records|].fingerprint == p.creationFingerprint(request)
  {
    hide OpenService, ActiveCount, FindCreation, FreshId;
    FreshIsUnused(records, candidates);
  }

  /** An operation that first gives a creation id a record started a request. */
  lemma FirstHolder(p: Platform, records: Records, op: RegistryOp, creationId: Id)
    requires FindCreation(records, creationId).None? && FindCreation(Apply(p, records, op), creationId).Some?
    ensures op.CreateOp? && |records| < p.maximumSessions && 0 < p.maximumActive
    ensures Startable(p, records, op.request)
    ensures p.creationFingerprint(op.request) == FindCreation(Apply(p, records, op), creationId).value.fingerprint
  {
    hide ActOn, OpenService, ActiveCount, FindCreation, Publish, Startable;
    var after := Apply(p, records, op);
    FindCreationIs(records, creationId);
    FindCreationIs(after, creationId);
    var holder := FindCreation(after, creationId).value;
    OnlyCreationsHold(p, records, op, holder);
    MadeWasStartable(p, records, op.creationId, op.request, op.candidates);
    assert after == after[..|records|] + [after[|records|]];
  }

  lemma OnlyCreationsHold(p: Platform, records: Records, op: RegistryOp, holder: SessionRecord)
    requires holder in Apply(p, records, op) && forall r <- records :: r.creationId != holder.creationId
    ensures op.CreateOp? && |op.candidates| <= MAX_RANDOM_ID_ATTEMPTS
    ensures CreateOn(p, records, op.creationId, op.request, op.candidates).answer.Ok?
    ensures FindCreation(records, op.creationId).None?
    ensures CreateOn(p, records, op.creationId, op.request, op.candidates).records == Apply(p, records, op)
  {
    hide ActOn, OpenService, ActiveCount, FindCreation, Publish;
    assert forall i :: 0 <= i < |records| ==> records[i] in records;
    if !op.CreateOp? {
      assert false;
    }
  }

  lemma {:induction false} CreatedOnTheWay(p: Platform, records: Records, ops: seq<RegistryOp>, creationId: Id)
    returns (other: CreateRequest)
    requires ValidRecords(p, records) && FindCreation(records, creationId).None?
    requires FindCreation(ApplyAll(p, records, ops), creationId).Some?
    ensures |records| < p.maximumSessions && 0 < p.maximumActive && Startable(p, records, other)
    ensures p.creationFingerprint(other) == FindCreation(ApplyAll(p, records, ops), creationId).value.fingerprint
    decreases |ops|
  {
    hide ValidRecords, Apply, FindCreation, Startable, Continues;
    var front, last := ops[..|ops| - 1], ops[|ops| - 1];
    var before := ApplyAll(p, records, front);
    LaterContinues(p, records, front);
    if FindCreation(before, creationId).Some? {
      other := CreatedOnTheWay(p, records, front, creationId);
      OneContinues(p, before, last);
      HeldStaysHeld(p, before, Apply(p, before, last), creationId);
    } else {
      FirstHolder(p, before, last, creationId);
      other := last.request;
      StartableBefore(p, records, before, other);
      ContinuesLength(records, before);
    }
  }

  lemma ContinuesLength(records: Records, later: Records)
    requires Continues(records, later)
    ensures |records| <= |later|
  {
  }

  lemma OneContinues(p: Platform, records: Records, op: RegistryOp)
    requires ValidRecords(p, records)
    ensures ValidRecords(p, Apply(p, records, op)) && Continues(records, Apply(p, records, op))
  {
    hide ValidRecords, Apply;
    assert [op][..0] == [];
    assert ApplyAll(p, records, [op]) == Apply(p, ApplyAll(p, records, []), op);
    LaterContinues(p, records, [op]);
  }

  /** At most one close makes room for one more active session. */
  lemma RoomAfterClosing(p: Platform, records: Records) returns (ops: seq<RegistryOp>)
    requires ValidRecords(p, records) && 0 < p.maximumActive
    ensures var after := ApplyAll(p, records, ops);
            && ValidRecords(p, after) && Continues(records, after) && |after| == |records|
            && ActiveCount(after) < p.maximumActive
  {
    hide Valid, ApplyAll;
    if ActiveCount(records) < p.maximumActive {
      ops := [];
      NothingApplied(p, records);
    } else {
      var i := ActiveRecord(records);
      ops := [EndOp(records[i].sessionId)];
      OneApplied(p, records, EndOp(records[i].sessionId));
      OwnIndex(p, records, i);
      ActiveUpdate(records, i, records[i].(service := CloseOn(records[i].service), closed := true));
      OneContinues(p, records, EndOp(records[i].sessionId));
    }
  }

  lemma NothingApplied(p: Platform, records: Records)
    ensures ApplyAll(p, records, []) == records
  {
  }

  lemma OneApplied(p: Platform, records: Records, op: RegistryOp)
    ensures ApplyAll(p, records, [op]) == Apply(p, records, op)
  {
    assert [op][..0] == [];
  }

  lemma OwnIndex(p: Platform, records: Records, i: nat)
    requires ValidRecords(p, records) && i < |records|
    ensures IndexOf(records, records[i].sessionId) == i
  {
    hide ValidRecord, ActiveCount;
    UnusedMeans(records, records[i].sessionId);
  }

  lemma {:induction false} ActiveRecord(records: Records) returns (i: nat)
    requires ActiveCount(records) > 0
    ensures i < |records| && !records[i].closed
    decreases |records|
  {
    i := |records| - 1;
    if records[i].closed {
      i := ActiveRecord(records[..i]);
    }
  }

  lemma NobodyHolds(records: Records, later: Records, creationId: Id)
    requires Continues(records, later) && |later| == |records| && FindCreation(records, creationId).None?
    ensures FindCreation(later, creationId).None?
  {
    FindCreationIs(records, creationId);
    FindCreationIs(later, creationId);
    hide FindCreation;
    forall r | r in later ensures r.creationId != creationId {
      var i :| 0 <= i < |later| && later[i] == r;
      assert records[i] in records;
    }
  }

  lemma StillUnused(records: Records, later: Records, sessionId: Id)
    requires Continues(records, later) && |later| == |records| && Unused(records, sessionId)
    ensures Unused(later, sessionId)
  {
    hide Unused;
    UnusedMeans(records, sessionId);
    UnusedMeans(later, sessionId);
  }

  lemma CreatedIn(p: Platform, records: Records, creationId: Id, request: CreateRequest, sessionId: Id)
    requires p.validCreationId(creationId) && p.requestFits(request) && FindCreation(records, creationId).None?
    requires |records| < p.maximumSessions && ActiveCount(records) < p.maximumActive
    requires OpenService(p, request).Ok? && Unused(records, sessionId)
    requires p.responseFits(CreateResponse(sessionId, OpenService(p, request).value.view))
    ensures CreateOn(p, records, creationId, request, [sessionId]).answer.Ok?
  {
    hide OpenService, ActiveCount, FindCreation;
  }

  /** A held creation id accepts every request with its holder's fingerprint. */
  lemma HeldAccepts(p: Platform, records: Records, creationId: Id, request: CreateRequest)
    requires p.validCreationId(creationId) && p.requestFits(request) && FindCreation(records, creationId).Some?
    requires FindCreation(records, creationId).value.fingerprint == p.creationFingerprint(request)
    ensures CreateOn(p, records, creationId, request, []).answer.Ok?
  {
    hide FindCreation;
  }

  lemma RecoverableRecovers(p: Platform, records: Records, creationId: Id, request: CreateRequest)
    requires ValidRecords(p, records) && Recoverable(p, records, creationId, request)
    ensures AcceptedLater(p, records, creationId, request)
  {
    hide ValidRecords, OpenService, ActiveCount, FindCreation, Continues, Unused, CreateOn, Apply, ApplyAll;
    var other: CreateRequest :|
      p.creationFingerprint(other) == p.creationFingerprint(request) && Startable(p, records, other);
    var sessionId: Id :|
      Unused(records, sessionId) && p.responseFits(CreateResponse(sessionId, OpenService(p, other).value.view));
    var ops := RoomAfterClosing(p, records);
    var roomy := ApplyAll(p, records, ops);
    NobodyHolds(records, roomy, creationId);
    StillUnused(records, roomy, sessionId);
    CreatedIn(p, roomy, creationId, other, sessionId);
    MadeWasStartable(p, roomy, creationId, other, [sessionId]);
    var longer := ops + [CreateOp(creationId, other, [sessionId])];
    AppliedNext(p, records, ops, CreateOp(creationId, other, [sessionId]));
    CreatedHolds(p, roomy, creationId, other, [sessionId]);
    HeldAccepts(p, ApplyAll(p, records, longer), creationId, request);
    var none: seq<Id> := [];
    assert CreateOn(p, ApplyAll(p, records, longer), creationId, request, none).answer.Ok?;
  }

  lemma AppliedNext(p: Platform, records: Records, ops: seq<RegistryOp>, op: RegistryOp)
    ensures ApplyAll(p, records, ops + [op]) == Apply(p, ApplyAll(p, records, ops), op)
  {
    assert (ops + [op])[..|ops|] == ops;
  }

  lemma CreatedHolds(p: Platform, records: Records, creationId: Id, request: CreateRequest, candidates: seq<Id>)
    requires |candidates| <= MAX_RANDOM_ID_ATTEMPTS && FindCreation(records, creationId).None? && ValidRecords(p, records)
    requires CreateOn(p, records, creationId, request, candidates).answer.Ok?
    ensures var after := Apply(p, records, CreateOp(creationId, request, candidates));
            && FindCreation(after, creationId).Some?
            && FindCreation(after, creationId).value.fingerprint == p.creationFingerprint(request)
  {
    hide OpenService, ActiveCount, FindCreation, ValidRecords, CreateOn;
    var after := Apply(p, records, CreateOp(creationId, request, candidates));
    MadeWasStartable(p, records, creationId, request, candidates);
    FindCreationIs(after, creationId);
    assert after[|records|] in after;
    FirstHolder(p, records, CreateOp(creationId, request, candidates), creationId);
  }

  lemma AcceptedIsRecoverable(
    p: Platform, records: Records, creationId: Id, request: CreateRequest, ops: seq<RegistryOp>, candidates: seq<Id>)
    requires ValidRecords(p, records) && |candidates| <= MAX_RANDOM_ID_ATTEMPTS && FindCreation(records, creationId).None?
    requires CreateOn(p, ApplyAll(p, records, ops), creationId, request, candidates).answer.Ok?
    ensures Recoverable(p, records, creationId, request)
  {
    hide ValidRecords, OpenService, ActiveCount, FindCreation, Continues, ApplyAll, Startable, Publish;
    var later := ApplyAll(p, records, ops);
    LaterContinues(p, records, ops);
    if FindCreation(later, creationId).Some? {
      var other := CreatedOnTheWay(p, records, ops, creationId);
      assert p.creationFingerprint(other) == p.creationFingerprint(request);
    } else {
      MadeWasStartable(p, later, creationId, request, candidates);
      StartableBefore(p, records, later, request);
      ContinuesLength(records, later);
    }
  }

  /** A creation id held for another request refuses this one for ever. */
  lemma ConflictIsFinal(p: Platform, records: Records, creationId: Id, request: CreateRequest, candidates: seq<Id>)
    requires |candidates| <= MAX_RANDOM_ID_ATTEMPTS && ValidRecords(p, records)
    requires CreateOn(p, records, creationId, request, candidates).answer.Err? && FindCreation(records, creationId).Some?
    ensures !AcceptedLater(p, records, creationId, request)
  {
    hide ValidRecords, OpenService, ActiveCount, FindCreation, Continues, ApplyAll, Publish;
    forall ops, again | |again| <= MAX_RANDOM_ID_ATTEMPTS
      ensures CreateOn(p, ApplyAll(p, records, ops), creationId, request, again).answer.Err?
    {
      LaterContinues(p, records, ops);
      HeldStaysHeld(p, records, ApplyAll(p, records, ops), creationId);
    }
  }

  /**
   * Exactly which refusals of a creation are final: a refused creation can be accepted after some further operations if
   * and only if its id and request are well formed, the id is free, the registry has room for another record, and the
   * request (or one the id could not tell from it) can be started.
   */
  lemma RefusedCreationRecovers(p: Platform, records: Records, creationId: Id, request: CreateRequest, candidates: seq<Id>)
    requires |candidates| <= MAX_RANDOM_ID_ATTEMPTS && ValidRecords(p, records)
    requires CreateOn(p, records, creationId, request, candidates).answer.Err?
    ensures AcceptedLater(p, records, creationId, request) <==> Recoverable(p, records, creationId, request)
  {
    hide ValidRecords, CreateOn, FindCreation, Startable, ApplyAll;
    if Recoverable(p, records, creationId, request) {
      RecoverableRecovers(p, records, creationId, request);
    }
    if AcceptedLater(p, records, creationId, request) {
      if FindCreation(records, creationId).Some? {
        ConflictIsFinal(p, records, creationId, request, candidates);
      }
      var ops, again :| |again| <= MAX_RANDOM_ID_ATTEMPTS
        && CreateOn(p, ApplyAll(p, records, ops), creationId, request, again).answer.Ok?;
      AcceptedIsRecoverable(p, records, creationId, request, ops, again);
    }
  }

  /** Where no other request shares its fingerprint, the request itself must be startable. */
  lemma RefusedCreationIsFinal(p: Platform, records: Records, creationId: Id, request: CreateRequest, candidates: seq<Id>)
    requires |candidates| <= MAX_RANDOM_ID_ATTEMPTS && ValidRecords(p, records)
    requires CreateOn(p, records, creationId, request, candidates).answer.Err?
    requires forall other :: p.creationFingerprint(other) == p.creationFingerprint(request) ==> other == request
    ensures AcceptedLater(p, records, creationId, request) <==>
      && p.validCreationId(creationId) && FindCreation(records, creationId).None?
      && |records| < p.maximumSessions && 0 < p.maximumActive && Startable(p, records, request)
  {
    hide ValidRecords, CreateOn, FindCreation, AcceptedLater;
    RefusedCreationRecovers(p, records, creationId, request, candidates);
  }

  // ---- Every save the registry hands out can be resumed ----

  predicate AllKept(p: Platform, records: Records) {
    forall r <- records :: Kept(p.deployment, r.service)
  }

  lemma OpenServiceKept(p: Platform, request: CreateRequest)
    requires Replay.FaithfulSteps(p.deployment.content) && OpenService(p, request).Ok?
    ensures Kept(p.deployment, OpenService(p, request).value)
  {
    hide Replay.FaithfulSteps, Replay.ResumedPlayer, Replay.SessionOf, Kept, ViewOf;
    var c := p.deployment.content;
    match request
    case StartGame(start) =>
      Replay.StartedSaves(c, start);
      OpenedIsKept(p.deployment, Replay.SessionOf(c, start).value);
    case ResumeSave(json) =>
      var save := p.decode(json).value;
      Replay.SavedAgain(c, save);
      OpenedIsKept(p.deployment, Replay.ResumedPlayer(c, save).value);
  }

  lemma ApplyKeepsSaves(p: Platform, records: Records, op: RegistryOp)
    requires Replay.FaithfulSteps(p.deployment.content) && AllKept(p, records)
    ensures AllKept(p, Apply(p, records, op))
  {
    hide Replay.FaithfulSteps, Kept, OpenService, ActOn, ActiveCount, FindCreation, FreshId;
    match op
    case CreateOp(creationId, request, candidates) =>
      if |candidates| <= MAX_RANDOM_ID_ATTEMPTS && CreateOn(p, records, creationId, request, candidates).records != records {
        OpenServiceKept(p, request);
      }
    case ActionOp(sessionId, q) =>
      var i := IndexOf(records, sessionId);
      if i < |records| {
        SaveStaysKept(p.deployment, records[i].service, [ActOp(q)]);
        RunOne(p.deployment, records[i].service, ActOp(q));
      }
    case EndOp(sessionId) =>
      var i := IndexOf(records, sessionId);
      if i < |records| {
        SaveStaysKept(p.deployment, records[i].service, [CloseOp]);
        RunOne(p.deployment, records[i].service, CloseOp);
      }
  }

  lemma {:induction false} RegistrySavesKept(p: Platform, ops: seq<RegistryOp>)
    requires Replay.FaithfulSteps(p.deployment.content)
    ensures AllKept(p, ApplyAll(p, [], ops))
    decreases |ops|
  {
    hide Replay.FaithfulSteps, Apply, Kept;
    if ops != [] {
      RegistrySavesKept(p, ops[..|ops| - 1]);
      ApplyKeepsSaves(p, ApplyAll(p, [], ops[..|ops| - 1]), ops[|ops| - 1]);
    }
  }

  /** Whatever a registry has been through, the save of any session, open or closed, opens a session just like it. */
  lemma AnySaveReopens(p: Platform, ops: seq<RegistryOp>, i: nat)
    requires Replay.FaithfulSteps(p.deployment.content)
    requires forall save :: p.decode(p.deployment.encode(save)) == Some(save)
    requires i < |ApplyAll(p, [], ops)|
    ensures var r := ApplyAll(p, [], ops)[i].service;
            OpenService(p, ResumeSave(r.saveJson)) == Ok(Record(r.save, r.saveJson, r.view, [], 0, false))
  {
    hide Replay.FaithfulSteps, Replay.ResumedPlayer, ViewOf, ApplyAll;
    RegistrySavesKept(p, ops);
    var r := ApplyAll(p, [], ops)[i].service;
    Replay.SavedAgain(p.deployment.content, r.save);
  }
}
