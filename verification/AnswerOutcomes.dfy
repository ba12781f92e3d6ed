/** Which answers, requests and cancellations the gateway takes, and what each call writes, with
    every condition spelled out. */
module AnswerOutcomes {
  import opened Basics
  import opened DecisionGateway

  // ---------------------------------------------------------------- what an answer may say

  predicate InText(s: string) {
    exists k :: 0 <= k < |s| && s[k] != ' ' && s[k] != '\t' && s[k] != '\n' && s[k] != '\r'
  }

  /** How many options may be chosen, and whether something has to be written. */
  predicate CountFits(s: Schema, chosen: nat, feedback: string) {
    && (s.kind == ActionOnly ==> chosen == 0)
    && (s.kind == SingleChoice ==> chosen == 1)
    && (s.kind == MultipleChoice ==> s.minChoices <= chosen && (chosen <= s.maxChoices || s.maxChoices <= 0))
    && (s.kind == FreeText ==> InText(feedback))
  }

  /** The action was offered, and is no approval for a session when the risk is high; the chosen
      options are declared ones, as many as the kind asks for; and what is written is neither too
      long nor, where it is all there is, blank. */
  predicate Admitted(d: Draft, a: Answer) {
    && a.action in d.allowed && (a.action == "approve_session" ==> !d.highRisk)
    && d.schema.Some?
    && (forall k | 0 <= k < |a.selected| :: a.selected[k] in d.schema.value.options)
    && CountFits(d.schema.value, |a.selected|, a.feedback)
    && (|a.feedback| <= d.schema.value.maxFeedback || d.schema.value.maxFeedback <= 0)
  }

  lemma ValidIsAdmitted(d: Draft, a: Answer)
    ensures AnswerValid(d, a) <==> Admitted(d, a)
  {
    assert forall k | 0 <= k < |a.selected| :: a.selected[k] in a.selected;
  }

  predicate InTime(expires: Option<int>, at: int) {
    expires.Some? ==> at < expires.value
  }

  /** After any run every stored answer is an admitted one, given by the user of the request, in
      time, to the version that was waiting and the input that was reviewed. */
  lemma StoredAnswers(calls: seq<Call>, r: string)
    requires FreshRun(EMPTY, calls) && r in AfterAll(EMPTY, calls).responses
    ensures var t := AfterAll(EMPTY, calls);
      var x := t.responses[r];
      && x.id == r && x.request in t.interactions
      && var row := t.interactions[x.request];
        && row.status == Resolved && row.draft.user == x.user && Admitted(row.draft, x.answer)
        && InTime(row.draft.expires, x.at) && x.answer.inputHash == row.draft.inputHash && x.answer.expected == 1
  {
    RunKeeps(EMPTY, calls);
    var t := AfterAll(EMPTY, calls);
    assert ResponseFits(t.interactions, r, t.responses[r]);
    ValidIsAdmitted(t.interactions[t.responses[r].request].draft, t.responses[r].answer);
  }

  // ---------------------------------------------------------------- what answering does

  predicate Complete(a: Answer) {
    a.actor != "" && a.key != "" && a.expected >= 1
  }

  /** The key of an answer counts per user, and per actor and device. */
  predicate KeyUsed(t: Tables, user: string, a: Answer) {
    AnswerKey(user, a.actor + ":" + a.device, a.key) in t.answers
  }

  predicate Waits(t: Tables, user: string, request: string) {
    request in t.interactions && t.interactions[request].draft.user == user && t.interactions[request].status == Pending
  }

  /** The answer is to the request that waits, as it waits. */
  predicate ToTheRequest(t: Tables, user: string, request: string, a: Answer, now: int) {
    && Waits(t, user, request) && InTime(t.interactions[request].draft.expires, now)
    && t.interactions[request].rowVersion == a.expected && t.interactions[request].draft.inputHash == a.inputHash
  }

  /** One row is closed, in the given way. */
  ghost predicate ClosedRow(rows: map<string, Interaction>, request: string, to: Status,
                            after: map<string, Interaction>)
  {
    && after.Keys == rows.Keys && (forall id | id in rows && id != request :: after[id] == rows[id])
    && request in rows && after[request] == rows[request].(status := to, rowVersion := rows[request].rowVersion + 1)
  }

  /** An accepted answer resolves the row, and is stored with one decision, one projection, three
      events and its key. */
  ghost predicate AnswerStored(t: Tables, user: string, request: string, a: Answer, rid: string, did: string, now: int,
                               after: Tables)
  {
    && ClosedRow(t.interactions, request, Resolved, after.interactions)
    && after.responses == t.responses[rid := Response(rid, user, request, a, now)]
    && after.decisions == t.decisions[did := Decision(request, rid)]
    && after.projections == t.projections + {rid} && after.posts == t.posts
    && after.outbox == t.outbox
         + multiset{Event(request, ResolvedEvent), Event(request, DecisionReady), Event(request, ProjectionRequested)}
    && after.answers.Keys == t.answers.Keys + {AnswerKey(user, a.actor + ":" + a.device, a.key)}
  }

  /** An answer that comes too late expires the row instead. */
  ghost predicate RowExpired(t: Tables, request: string, after: Tables) {
    && ClosedRow(t.interactions, request, Expired, after.interactions)
    && after == t.(interactions := after.interactions, outbox := after.outbox)
    && after.outbox == t.outbox + multiset{Event(request, ExpiredEvent)}
  }

  lemma RecordedEventsAre(t: Tables, user: string, request: string, a: Answer, rid: string, did: string, now: int)
    ensures Recorded(t, user, request, a, rid, did, now).outbox == t.outbox
         + multiset{Event(request, ResolvedEvent), Event(request, DecisionReady), Event(request, ProjectionRequested)}
  {
    assert (set id | id in {request} :: Event(id, ResolvedEvent)) == {Event(request, ResolvedEvent)};
  }

  lemma RecordedIsStored(t: Tables, user: string, request: string, a: Answer, rid: string, did: string, now: int)
    requires request in t.interactions
    ensures AnswerStored(t, user, request, a, rid, did, now, Recorded(t, user, request, a, rid, did, now))
  {
    RecordedEventsAre(t, user, request, a, rid, did, now);
  }

  lemma ClosedIsExpired(t: Tables, request: string)
    requires request in t.interactions
    ensures RowExpired(t, request, Close(t, {request}, Expired))
  {
    assert (set id | id in {request} :: Event(id, ExpiredEvent)) == {Event(request, ExpiredEvent)};
  }

  /** A request that waits has no answer yet. */
  lemma WaitsUnanswered(t: Tables, user: string, request: string)
    requires GatewayOk(t) && Waits(t, user, request)
    ensures forall r | r in t.responses :: t.responses[r].request != request
  {
    DecisionIffResolved(t, request);
  }

  /** The order of the tests. */
  ghost predicate Course(t: Tables, user: string, request: string, a: Answer, rid: string, did: string, now: int,
                         done: Done<(Response, bool)>)
  {
    if !Complete(a) then done == Done(t, Refused(Invalid))
    else if KeyUsed(t, user, a) then done.tables == t && (done.reply.Ok? ==> done.reply.value.1)
    else if request !in t.interactions || t.interactions[request].draft.user != user
      then done == Done(t, Refused(NotFound))
    else if !Waits(t, user, request) then done == Done(t, Refused(Conflict))
    else if !InTime(t.interactions[request].draft.expires, now)
      then done.reply == Refused(Conflict) && RowExpired(t, request, done.tables)
    else if !ToTheRequest(t, user, request, a, now) then done == Done(t, Refused(Conflict))
    else if !Admitted(t.interactions[request].draft, a) then done == Done(t, Refused(Invalid))
    else
      && done.reply == Ok((Response(rid, user, request, a, now), false))
      && AnswerStored(t, user, request, a, rid, did, now, done.tables)
  }

  lemma WaitingTakesItsCourse(t: Tables, user: string, request: string, a: Answer, rid: string, did: string, now: int)
    requires Waits(t, user, request) && Complete(a) && !KeyUsed(t, user, a)
    requires forall r | r in t.responses :: t.responses[r].request != request
    ensures Course(t, user, request, a, rid, did, now, Respond(t, user, request, a, rid, did, now))
  {
    ValidIsAdmitted(t.interactions[request].draft, a);
    RecordedIsStored(t, user, request, a, rid, did, now);
    ClosedIsExpired(t, request);
  }

  lemma OthersTakeTheirCourse(t: Tables, user: string, request: string, a: Answer, rid: string, did: string, now: int)
    requires !Waits(t, user, request) || !Complete(a) || KeyUsed(t, user, a)
    ensures Course(t, user, request, a, rid, did, now, Respond(t, user, request, a, rid, did, now))
  {
  }

  lemma RespondTakesItsCourse(t: Tables, user: string, request: string, a: Answer, rid: string, did: string, now: int)
    requires GatewayOk(t)
    ensures Course(t, user, request, a, rid, did, now, Respond(t, user, request, a, rid, did, now))
  {
    if Waits(t, user, request) && Complete(a) && !KeyUsed(t, user, a) {
      WaitsUnanswered(t, user, request);
      WaitingTakesItsCourse(t, user, request, a, rid, did, now);
    } else {
      OthersTakeTheirCourse(t, user, request, a, rid, did, now);
    }
  }

  /** An answer is accepted as the final one exactly when it is complete, its key unused, and it
      is an admitted answer to a request that waits as the answer says. */
  lemma AcceptedExactly(t: Tables, user: string, request: string, a: Answer, rid: string, did: string, now: int)
    requires GatewayOk(t)
    ensures var done := Respond(t, user, request, a, rid, did, now);
      done.reply.Ok? && !done.reply.value.1 <==>
        Complete(a) && !KeyUsed(t, user, a) && ToTheRequest(t, user, request, a, now)
          && Admitted(t.interactions[request].draft, a)
  {
    RespondTakesItsCourse(t, user, request, a, rid, did, now);
  }

  /** What it then writes; and that of all others only a late one writes anything. */
  lemma AnswerWrites(t: Tables, user: string, request: string, a: Answer, rid: string, did: string, now: int)
    requires GatewayOk(t)
    ensures var done := Respond(t, user, request, a, rid, did, now);
      if done.reply.Ok? && !done.reply.value.1 then
        && done.reply.value.0 == Response(rid, user, request, a, now)
        && AnswerStored(t, user, request, a, rid, did, now, done.tables)
      else if Complete(a) && !KeyUsed(t, user, a) && Waits(t, user, request)
                && !InTime(t.interactions[request].draft.expires, now) then
        done.reply == Refused(Conflict) && RowExpired(t, request, done.tables)
      else done.tables == t
  {
    RespondTakesItsCourse(t, user, request, a, rid, did, now);
  }

  /** Why an answer is refused. */
  lemma AnswerRefusals(t: Tables, user: string, request: string, a: Answer, rid: string, did: string, now: int)
    requires GatewayOk(t) && !KeyUsed(t, user, a)
    ensures var done := Respond(t, user, request, a, rid, did, now);
      done.reply.Refused? ==>
        done.reply.error ==
        if !Complete(a) then Invalid
        else if request !in t.interactions || t.interactions[request].draft.user != user then NotFound
        else if !ToTheRequest(t, user, request, a, now) then Conflict else Invalid
  {
    RespondTakesItsCourse(t, user, request, a, rid, did, now);
  }

  /** Two answers are the same to the gateway when they differ at most in the order in which the
      options were chosen. */
  lemma SameAnswer(request: string, a: Answer, other: string, b: Answer)
    ensures PayloadOf(request, a) == PayloadOf(other, b) <==>
            request == other && a.(selected := b.selected) == b
              && forall o :: multiset(a.selected)[o] == multiset(b.selected)[o]
  {
    if forall o :: multiset(a.selected)[o] == multiset(b.selected)[o] {
      assert multiset(a.selected) == multiset(b.selected);
    }
  }

  // ---------------------------------------------------------------- what a creation does

  predicate Offered(draft: Draft, action: string) {
    action in draft.allowed && action != "" && (draft.highRisk ==> action != "approve_session")
  }

  /** Nothing required is missing, nothing shown is too long, and something can be answered. */
  predicate Askable(d: Draft) {
    && d.user != "" && d.session != "" && d.adapter != "" && d.vendor != "" && d.kind != "" && d.title != ""
    && d.inputHash != "" && |d.preview| <= 8192 && |d.title| <= 240 && |d.summary| <= 2000 && d.schema.Some?
    && exists action :: action in d.allowed && Offered(d, action)
  }

  ghost predicate StoredDraft(draft: Draft, d: Draft) {
    d == draft.(allowed := d.allowed) && forall action :: action in d.allowed <==> Offered(draft, action)
  }

  predicate SameRequest(row: Interaction, d: Draft) {
    row.draft.user == d.user && row.draft.adapter == d.adapter && row.draft.session == d.session
      && row.draft.vendor == d.vendor
  }

  /** Already there: the same request of the adapter, or another with its checkpoint. */
  ghost predicate Doubled(t: Tables, d: Draft) {
    exists id :: id in t.interactions
      && (SameRequest(t.interactions[id], d)
          || (d.checkpoint != "" && t.interactions[id].draft.user == d.user
              && t.interactions[id].draft.checkpoint == d.checkpoint))
  }

  /** The key, if there is one, keeps the answer; nothing else changes. */
  ghost predicate OnlyPosted(t: Tables, user: string, scope: string, operation: Operation, key: string,
                             result: Interaction, after: Tables)
  {
    && after == t.(posts := after.posts)
    && if key == "" then after == t
       else after.posts.Keys == t.posts.Keys + {PostKey(user, scope, operation, key)}
            && after.posts[PostKey(user, scope, operation, key)].result == result
            && forall k | k in t.posts && k != PostKey(user, scope, operation, key) :: after.posts[k] == t.posts[k]
  }

  ghost predicate CreateCourse(t: Tables, draft: Draft, scope: string, key: string, id: string, done: Done<Interaction>)
  {
    if !Askable(draft) || (scope == "") != (key == "") then done == Done(t, Refused(Invalid))
    else if key != "" && PostKey(draft.user, scope, CreateOperation, key) in t.posts then done.tables == t
    else if !Doubled(t, draft) then
      && done.reply.Ok? && done.reply.value == Interaction(id, done.reply.value.draft, Pending, 1)
      && StoredDraft(draft, done.reply.value.draft)
      && OnlyPosted(t.(interactions := t.interactions[id := done.reply.value],
                       outbox := t.outbox + multiset{Event(id, CreatedEvent)}),
                    draft.user, scope, CreateOperation, key, done.reply.value, done.tables)
    else if done.reply.Ok? then
      && done.reply.value.id in t.interactions && t.interactions[done.reply.value.id] == done.reply.value
      && SameRequest(done.reply.value, draft) && done.reply.value.draft.inputHash == draft.inputHash
      && OnlyPosted(t, draft.user, scope, CreateOperation, key, done.reply.value, done.tables)
    else
      && done == Done(t, Refused(Conflict))
      && forall x | x in t.interactions && SameRequest(t.interactions[x], draft) ::
           t.interactions[x].draft.inputHash != draft.inputHash
  }

  lemma ValidIsAskable(draft: Draft)
    ensures DraftValid(Normalised(draft)) <==> Askable(draft)
    ensures StoredDraft(draft, Normalised(draft))
  {
    var d := Normalised(draft);
    assert forall action :: action in d.allowed <==> Offered(draft, action);
    if d.allowed != {} {
      var action :| action in d.allowed;
      assert Offered(draft, action);
    }
  }

  lemma ClashIsDoubled(t: Tables, draft: Draft)
    ensures Clashes(t.interactions, Normalised(draft)) <==> Doubled(t, draft)
  {
    forall id | id in t.interactions
      ensures SameVendor(t.interactions[id], Normalised(draft)) <==> SameRequest(t.interactions[id], draft)
    {
    }
  }

  lemma PostStored(t: Tables, user: string, scope: string, operation: Operation, key: string, payload: Payload,
                   result: Interaction)
    ensures OnlyPosted(t, user, scope, operation, key, result,
                       StorePost(t, PostKey(user, scope, operation, key), payload, result))
  {
  }

  lemma NewTakesItsCourse(t: Tables, draft: Draft, scope: string, key: string, id: string)
    requires !Doubled(t, draft)
    ensures CreateCourse(t, draft, scope, key, id, Create(t, draft, scope, key, id))
  {
    var d := Normalised(draft);
    var row := Interaction(id, d, Pending, 1);
    ValidIsAskable(draft);
    ClashIsDoubled(t, draft);
    PostStored(Inserted(t, row), d.user, scope, CreateOperation, key, CreatePayload(d), row);
  }

  lemma EarlierIsSame(rows: map<string, Interaction>, draft: Draft)
    requires RowsOk(rows)
    ensures var x := Earlier(rows, Normalised(draft));
      if x.Some? then x.value.id in rows && rows[x.value.id] == x.value && SameRequest(x.value, draft)
                        && x.value.draft.inputHash == draft.inputHash
      else forall k | k in rows && SameRequest(rows[k], draft) :: rows[k].draft.inputHash != draft.inputHash
  {
    if Earlier(rows, Normalised(draft)).None? {
      forall k | k in rows && SameRequest(rows[k], draft) ensures rows[k].draft.inputHash != draft.inputHash {
        assert !Known(rows, Normalised(draft), k);
      }
    }
  }

  /** A request is refused when it is incomplete or clashes with another, answered with the row
      of its earlier self, or stored as a new row that waits at version one. */
  lemma CreateTakesItsCourse(t: Tables, draft: Draft, scope: string, key: string, id: string)
    requires RowsOk(t.interactions)
    ensures CreateCourse(t, draft, scope, key, id, Create(t, draft, scope, key, id))
  {
    if Doubled(t, draft) {
      var d := Normalised(draft);
      ValidIsAskable(draft);
      ClashIsDoubled(t, draft);
      EarlierIsSame(t.interactions, draft);
      if Earlier(t.interactions, d).Some? {
        PostStored(t, d.user, scope, CreateOperation, key, CreatePayload(d), Earlier(t.interactions, d).value);
      }
    } else {
      NewTakesItsCourse(t, draft, scope, key, id);
    }
  }

  // ---------------------------------------------------------------- what the others do

  ghost predicate CancelCourse(t: Tables, user: string, request: string, expected: int, scope: string, key: string,
                               done: Done<Interaction>)
  {
    if expected < 1 || (scope == "") != (key == "") then done == Done(t, Refused(Invalid))
    else if key != "" && PostKey(user, scope, CancelOperation, key) in t.posts then done.tables == t
    else if !Waits(t, user, request) || t.interactions[request].rowVersion != expected
      then done == Done(t, Refused(Conflict))
    else
      && done.reply.Ok? && ClosedRow(t.interactions, request, Cancelled, done.tables.interactions)
      && done.reply.value == done.tables.interactions[request]
      && OnlyPosted(t.(interactions := done.tables.interactions,
                       outbox := t.outbox + multiset{Event(request, CancelledEvent)}),
                    user, scope, CancelOperation, key, done.reply.value, done.tables)
  }

  lemma CancelTakesItsCourse(t: Tables, user: string, request: string, expected: int, reason: string, scope: string,
                             key: string)
    ensures CancelCourse(t, user, request, expected, scope, key,
                         Cancel(t, user, request, expected, reason, scope, key))
  {
    if request in t.interactions {
      var closed := Close(t, {request}, Cancelled);
      assert (set id | id in {request} :: Event(id, CancelledEvent)) == {Event(request, CancelledEvent)};
      PostStored(closed, user, scope, CancelOperation, key, CancelPayload(request, expected, reason),
                 closed.interactions[request]);
    }
  }

  /** Exactly the rows with the given ids are closed, with one event each. */
  ghost predicate RowsClosed(t: Tables, ids: set<string>, to: Status, kind: Kind, after: Tables) {
    && after == t.(interactions := after.interactions, outbox := after.outbox)
    && after.interactions.Keys == t.interactions.Keys
    && (forall id | id in t.interactions ::
         after.interactions[id] ==
         if id in ids then t.interactions[id].(status := to, rowVersion := t.interactions[id].rowVersion + 1)
         else t.interactions[id])
    && forall id, k ::
         after.outbox[Event(id, k)] == t.outbox[Event(id, k)] + if id in ids && k == kind then 1 else 0
  }

  lemma CloseIsClosed(t: Tables, ids: set<string>, to: Status)
    ensures RowsClosed(t, ids, to, KindOf(to), Close(t, ids, to))
  {
    var added := set id | id in ids :: Event(id, KindOf(to));
    forall id, k ensures Event(id, k) in added <==> id in ids && k == KindOf(to) {
    }
  }

  /** An expiry pass closes exactly the waiting rows of the user whose time is over. */
  lemma ExpiryMeans(t: Tables, user: string, now: int)
    ensures var done := ExpireDue(t, user, now);
      if user == "" then done == Done(t, Refused(Invalid))
      else
        && done.reply.Ok? && RowsClosed(t, done.reply.value, Expired, ExpiredEvent, done.tables)
        && forall id :: id in done.reply.value <==>
             Waits(t, user, id) && !InTime(t.interactions[id].draft.expires, now)
  {
    CloseIsClosed(t, DueRows(t, user, now), Expired);
  }

  /** The end of a session closes exactly its waiting rows. */
  lemma SessionEndMeans(t: Tables, user: string, session: string)
    ensures var done := CancelSession(t, user, session);
      if user == "" || session == "" then done == Done(t, Refused(Invalid))
      else
        && done.reply.Ok? && RowsClosed(t, done.reply.value, Cancelled, CancelledEvent, done.tables)
        && forall id :: id in done.reply.value <==>
             Waits(t, user, id) && t.interactions[id].draft.session == session
  {
    CloseIsClosed(t, SessionRows(t, user, session), Cancelled);
  }
}
