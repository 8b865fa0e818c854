// When a served request takes effect, and how client and service meet: said of the save, the session and the limits.
module ServiceLaws {
  import opened Basics
  import opened Service
  import opened Registry
  import opened Client
  import Replay

  // ---- When an action takes effect ----

  /** Choosing the action in the session the save resumes to gives this session, save and page, all within the limits. */
  predicate Commits(
    d: Deployment, r: Record, q: ActionRequest, live: Replay.Live, save: Replay.PlayerTrace, page: CatalogPage)
  {
    var c, resumed := d.content, Replay.ResumedPlayer(d.content, r.save);
    && resumed.Ok? && Replay.ChooseOne(c, resumed.value, q.actionId) == Ok(live)
    && live.trace.steps != [] && |live.trace.steps| <= U64_MAX
    && Replay.PlayerTraceOf(c, live) == Ok(save) && |d.encode(save)| <= d.limits.saveBytes
    && d.actionPage(live.state, 0, d.limits.defaultPageSize) == Some(page)
    && var shown := live.trace.steps[|live.trace.steps| - 1].body.view;
    && var view := SessionView(|live.trace.steps|, shown, page);
    && d.viewBytes(view) <= d.limits.responseBytes
    && r.ledgerBytes + d.entryBytes(q.commandId, d.fingerprint(q), view) <= d.limits.ledgerBytes
  }

  lemma ChoosingAddsAStep(c: Replay.Content, live: Replay.Live, id: Id)
    requires Replay.ChooseOne(c, live, id).Ok?
    ensures |Replay.ChooseOne(c, live, id).value.trace.steps| == |live.trace.steps| + 1
  {
  }

  lemma AdvancedIsChosen(d: Deployment, r: Record, q: ActionRequest, live: Replay.Live)
    ensures Advanced(d, r, q) == Ok(live) <==>
      var resumed := Replay.ResumedPlayer(d.content, r.save);
      resumed.Ok? && Replay.ChooseOne(d.content, resumed.value, q.actionId) == Ok(live)
  {
    hide Replay.ResumedPlayer, Replay.FindAction, Replay.RecordOne;
  }

  lemma CommitsExactly(d: Deployment, r: Record, q: ActionRequest)
    requires Valid(r)
    ensures Committed(d, r, q).Ok? <==> exists live, save, page :: Commits(d, r, q, live, save, page)
  {
    hide Replay.ResumedPlayer, Replay.ChooseOne, Replay.PlayerTraceOf, Advanced;
    if live, save, page :| Commits(d, r, q, live, save, page) {
      AdvancedIsChosen(d, r, q, live);
    }
    if Committed(d, r, q).Ok? {
      var live := Advanced(d, r, q).value;
      AdvancedIsChosen(d, r, q, live);
      ChoosingAddsAStep(d.content, Replay.ResumedPlayer(d.content, r.save).value, q.actionId);
      var page := d.actionPage(live.state, 0, d.limits.defaultPageSize).value;
      assert Commits(d, r, q, live, Replay.PlayerTraceOf(d.content, live).value, page);
    }
  }

  /** A request takes effect exactly when it is new, meant for the state on display, and its result fits the limits. */
  lemma TakesEffectExactly(d: Deployment, r: Record, q: ActionRequest)
    requires Valid(r)
    ensures ActOn(d, r, q).record != r <==>
      && d.wellShaped(q) && (forall e <- r.ledger :: e.commandId != q.commandId)
      && !r.closed && q.expectedRevision == Revision(r) && q.expectedStateId == r.view.catalog.stateId
      && exists live, save, page :: Commits(d, r, q, live, save, page)
  {
    hide Committed, Commits;
    FindEntryIs(r.ledger, q.commandId);
    CommitsExactly(d, r, q);
    if Committed(d, r, q).Ok? {
      CommitAdvances(d, r, q);
    }
  }

  /** A game just started shows its first state, and the first page of what can be done in it. */
  lemma OpenedShows(d: Deployment, start: Replay.TraceStart)
    requires Replay.SessionOf(d.content, start).Ok? && Opened(d, Replay.SessionOf(d.content, start).value).Ok?
    ensures var live := Replay.SessionOf(d.content, start).value;
            var view := Opened(d, live).value.view;
            && view.revision == 0 && d.content.observe(live.state) == Ok(view.observation)
            && d.actionPage(live.state, 0, d.limits.defaultPageSize) == Some(view.catalog)
  {
    FirstView(d.content, start);
    hide Replay.SessionOf, Replay.PlayerTraceOf;
  }

  // ---- What a ready client sends ----

  /** A ready client asks for the action on the state it shows, and sends it exactly when the journal was stored. */
  lemma ActSendsWhatIsShown(c: ClientState, actionId: Id, commandId: Id, stored: bool)
    requires c.phase.Ready? && c.instance.Some? && c.shown.Some? && c.shown.value.view.revision <= U64_MAX
    ensures var sent := Acts(c, actionId, commandId, stored).sent;
            && (sent.Some? <==> stored)
            && (stored ==>
                  && sent.value.PendingAction? && sent.value.sessionId == c.shown.value.sessionId
                  && sent.value.action.actionId == actionId && sent.value.action.commandId == commandId)
  {
  }

  /** A request for the view on display is never stale: the session it shows either commits it or refuses it for cause. */
  lemma ShownActionIsNotStale(
    p: Platform, records: Records, c: ClientState, actionId: Id, commandId: Id)
    requires ValidRecords(p, records) && c.phase.Ready? && c.instance.Some? && c.shown.Some?
    requires var i := IndexOf(records, c.shown.value.sessionId);
             i < |records| && c.shown.value.view == records[i].service.view
    requires Revision(records[IndexOf(records, c.shown.value.sessionId)].service) <= U64_MAX
    ensures var sent := Acts(c, actionId, commandId, true).sent;
            && sent.Some? && sent.value.PendingAction?
            && ActSession(p, records, sent.value.sessionId, sent.value.action).answer != Err(ServiceFailed(StaleState))
  {
    hide IndexOf, ActOn;
    var i := IndexOf(records, c.shown.value.sessionId);
    assert records[i] in records && ValidRecord(records[i]);
    hide ValidRecords;
    var q := Acts(c, actionId, commandId, true).sent.value.action;
    NeverStale(p.deployment, records[i].service, q);
  }

  lemma NeverStale(d: Deployment, r: Record, q: ActionRequest)
    requires Valid(r) && q.expectedRevision == r.view.revision && q.expectedStateId == r.view.catalog.stateId
    ensures ActOn(d, r, q).answer != Err(StaleState)
  {
    hide FindEntry, Replay.ResumedPlayer, Replay.RecordOne;
  }

  /** A request left pending is sent again unchanged: by a retry, and by a page load against the same server. */
  lemma PendingIsResent(c: ClientState, held: Pending, instance: Id)
    requires Holds(c, held)
    ensures !Busy(c) && c.instance.Some? ==> Retries(c).sent == Some(held)
    ensures Boots(c, instance).sent == (if c.journal.value.instance == instance then Some(held) else None)
    ensures c.journal.value.instance != instance ==> Boots(c, instance).client.phase.Restarted?
  {
  }

  /** A client that reads its answer back shows it and is ready for the next action. */
  lemma ReadBackIsShown(c: ClientState, p: Pending, answer: Answer, shown: Shown)
    requires JournalForInstance(c).Some? && Holds(c, p)
    requires (p.PendingAction? && answer.ViewOk?) || (p.PendingCreate? && answer.CreatedOk?)
    ensures var h := Hears(c, p, answer, ReadOk(shown), true);
            && h.outcome == Some(Acknowledged(answer)) && h.client.phase.Ready? && h.client.shown == Some(shown)
            && h.client.journal.Some? && h.client.journal.value.pending.None?
            && h.client.journal.value.instance == c.journal.value.instance && h.client.journal.value.lifecycle.Open?
            && h.client.journal.value.sessionId == Some(if p.PendingAction? then p.sessionId else answer.response.sessionId)
  {
  }
}
