/** The decision gateway: interactions waiting for a human answer, their one final answer, and
    the idempotency keys that make retries harmless. Every operation is one transaction. */
module DecisionGateway {
  import opened Basics

  // ---------------------------------------------------------------- tables

  datatype Status = Pending | Resolved | Expired | Cancelled

  datatype Kind = CreatedEvent | ResolvedEvent | ExpiredEvent | CancelledEvent | DecisionReady | ProjectionRequested

  datatype AnswerKind = ActionOnly | SingleChoice | MultipleChoice | FreeText

  /** maxChoices and maxFeedback are unlimited when not positive. */
  datatype Schema = Schema(kind: AnswerKind, options: set<string>, minChoices: int, maxChoices: int, maxFeedback: int)

  /** What an adapter asks for; content stands for the fields that are only stored. */
  datatype Draft = Draft(
    user: string, checkpoint: string, session: string, adapter: string, vendor: string, kind: string,
    highRisk: bool, allowed: set<string>, schema: Option<Schema>, title: string, summary: string,
    preview: string, content: string, expires: Option<int>, inputHash: string)

  datatype Interaction = Interaction(id: string, draft: Draft, status: Status, rowVersion: nat)

  datatype Answer = Answer(
    action: string, selected: seq<string>, feedback: string, actor: string, device: string,
    evidence: string, expected: int, key: string, inputHash: string)

  datatype Response = Response(id: string, user: string, request: string, answer: Answer, at: int)

  datatype Decision = Decision(request: string, response: string)

  datatype Event = Event(request: string, kind: Kind)

  /** What the hash of a request covers. An answer's options count in any order. */
  datatype Payload =
    | CreatePayload(draft: Draft)
    | CancelPayload(request: string, expected: int, reason: string)
    | AnswerPayload(
        request: string, action: string, selected: multiset<string>, feedback: string, actor: string,
        device: string, evidence: string, expected: int, key: string, inputHash: string)

  datatype Operation = CreateOperation | CancelOperation

  datatype PostKey = PostKey(user: string, scope: string, operation: Operation, key: string)

  datatype AnswerKey = AnswerKey(user: string, scope: string, key: string)

  datatype Posted = Posted(payload: Payload, result: Interaction)

  datatype Answered = Answered(payload: Payload, response: string)

  /** projections is the set of responses that were queued for the task document. */
  datatype Tables = Tables(
    interactions: map<string, Interaction>, responses: map<string, Response>,
    decisions: map<string, Decision>, projections: set<string>, outbox: multiset<Event>,
    posts: map<PostKey, Posted>, answers: map<AnswerKey, Answered>)

  datatype Reply<T> = Ok(value: T) | Refused(error: Error)

  datatype Done<T> = Done(tables: Tables, reply: Reply<T>)

  // ---------------------------------------------------------------- validation

  predicate DraftValid(d: Draft) {
    && d.user != "" && d.session != "" && d.adapter != "" && d.vendor != "" && d.kind != "" && d.title != ""
         && d.inputHash != ""
    && |d.preview| <= 8192 && |d.title| <= 240 && |d.summary| <= 2000
    && d.allowed != {} && d.schema.Some?
  }

  /** A high-risk request cannot be approved for a whole session. */
  function Normalised(d: Draft): Draft {
    d.(allowed := d.allowed - (if d.highRisk then {"", "approve_session"} else {""}))
  }

  predicate AnswerValid(d: Draft, a: Answer) {
    && !(d.highRisk && a.action == "approve_session") && a.action in d.allowed && d.schema.Some?
    && var s := d.schema.value;
      && (s.maxFeedback > 0 ==> |a.feedback| <= s.maxFeedback)
      && (forall o | o in a.selected :: o in s.options)
      && match s.kind
         case ActionOnly => a.selected == []
         case SingleChoice => |a.selected| == 1
         case MultipleChoice => s.minChoices <= |a.selected| && (s.maxChoices > 0 ==> |a.selected| <= s.maxChoices)
         case FreeText => !Blank(a.feedback)
  }

  predicate Due(row: Interaction, now: int) {
    row.status == Pending && row.draft.expires.Some? && row.draft.expires.value <= now
  }

  function PayloadOf(request: string, a: Answer): Payload {
    AnswerPayload(request, a.action, multiset(a.selected), a.feedback, a.actor, a.device, a.evidence, a.expected,
        a.key, a.inputHash)
  }

  function ScopeOf(a: Answer): string {
    a.actor + ":" + a.device
  }

  // ---------------------------------------------------------------- the transactions

  predicate SameVendor(row: Interaction, d: Draft) {
    row.draft.user == d.user && row.draft.adapter == d.adapter && row.draft.session == d.session
      && row.draft.vendor == d.vendor
  }

  predicate SameCheckpoint(row: Interaction, d: Draft) {
    d.checkpoint != "" && row.draft.user == d.user && row.draft.checkpoint == d.checkpoint
  }

  /** The row that an insert with this draft would duplicate. */
  predicate Clashes(rows: map<string, Interaction>, d: Draft) {
    exists id | id in rows :: SameVendor(rows[id], d) || SameCheckpoint(rows[id], d)
  }

  function KindOf(s: Status): Kind {
    match s
    case Pending => CreatedEvent
    case Resolved => ResolvedEvent
    case Expired => ExpiredEvent
    case Cancelled => CancelledEvent
  }

  function Closing(row: Interaction, to: Status): Interaction {
    row.(status := to, rowVersion := row.rowVersion + 1)
  }

  /** Closes the given rows and says so in the outbox, once each. */
  function Close(t: Tables, ids: set<string>, to: Status): Tables {
    t.(interactions := map id | id in t.interactions ::
      if id in ids then Closing(t.interactions[id], to) else t.interactions[id],
       outbox := t.outbox + multiset(set id | id in ids :: Event(id, KindOf(to))))
  }

  function StorePost(t: Tables, key: PostKey, payload: Payload, result: Interaction): Tables {
    if key.key == "" then t else t.(posts := t.posts[key := Posted(payload, result)])
  }

  /** The stored result of an earlier call under the key, or the refusal of a different one. */
  function Replayed(t: Tables, key: PostKey, payload: Payload): Option<Reply<Interaction>> {
    if key.key == "" || key !in t.posts then None
    else if t.posts[key].payload != payload then Some(Refused(Conflict)) else Some(Ok(t.posts[key].result))
  }

  ghost predicate Known(rows: map<string, Interaction>, d: Draft, id: string) {
    id in rows && SameVendor(rows[id], d) && rows[id].draft.inputHash == d.inputHash
  }

  /** The row of an earlier request of the same adapter with the same reviewed input. */
  ghost function Earlier(rows: map<string, Interaction>, d: Draft): (r: Option<Interaction>)
    ensures r.Some? <==> exists id :: Known(rows, d, id)
    ensures r.Some? ==> exists id :: Known(rows, d, id) && rows[id] == r.value
  {
    if exists id :: Known(rows, d, id) then
      var id :| Known(rows, d, id);
      Some(rows[id])
    else None
  }

  function Inserted(t: Tables, row: Interaction): Tables {
    t.(interactions := t.interactions[row.id := row], outbox := t.outbox + multiset{Event(row.id, CreatedEvent)})
  }

  ghost function Create(t: Tables, draft: Draft, scope: string, key: string, id: string): Done<Interaction> {
    var d := Normalised(draft);
    var post := PostKey(d.user, scope, CreateOperation, key);
    var row := Interaction(id, d, Pending, 1);
    if !DraftValid(d) || (scope == "") != (key == "") then Done(t, Refused(Invalid))
    else if Replayed(t, post, CreatePayload(d)).Some? then Done(t, Replayed(t, post, CreatePayload(d)).value)
    else if !Clashes(t.interactions, d) then Done(StorePost(Inserted(t, row), post, CreatePayload(d), row), Ok(row))
    else match Earlier(t.interactions, d)
      case None => Done(t, Refused(Conflict))
      case Some(x) => Done(StorePost(t, post, CreatePayload(d), x), Ok(x))
  }

  function Recorded(t: Tables, user: string, request: string, a: Answer, rid: string, did: string, now: int): Tables {
    var closed := Close(t, {request}, Resolved);
    closed.(responses := t.responses[rid := Response(rid, user, request, a, now)],
            decisions := t.decisions[did := Decision(request, rid)],
            projections := t.projections + {rid},
            outbox := closed.outbox + multiset{Event(request, DecisionReady), Event(request, ProjectionRequested)},
            answers := t.answers[AnswerKey(user, ScopeOf(a), a.key) := Answered(PayloadOf(request, a), rid)])
  }

  /** The value is the response and whether it is a replay. */
  function Respond(t: Tables, user: string, request: string, a: Answer, rid: string, did: string,
                   now: int): Done<(Response, bool)> {
    var key := AnswerKey(user, ScopeOf(a), a.key);
    if a.actor == "" || a.key == "" || a.expected < 1 then Done(t, Refused(Invalid))
    else if key in t.answers then
      if t.answers[key].payload != PayloadOf(request, a) then Done(t, Refused(Conflict))
      else if t.answers[key].response in t.responses && t.responses[t.answers[key].response].user == user
        then Done(t, Ok((t.responses[t.answers[key].response], true)))
        else Done(t, Refused(NotFound))
    else if request !in t.interactions || t.interactions[request].draft.user != user then Done(t, Refused(NotFound))
    else
      var row := t.interactions[request];
      if Due(row, now) then Done(Close(t, {request}, Expired), Refused(Conflict))
      else if row.status != Pending || row.rowVersion != a.expected || a.inputHash != row.draft.inputHash
          then Done(t, Refused(Conflict))
      else if !AnswerValid(row.draft, a) then Done(t, Refused(Invalid))
      else if exists r | r in t.responses :: t.responses[r].request == request then Done(t, Refused(Conflict))
      else Done(Recorded(t, user, request, a, rid, did, now), Ok((Response(rid, user, request, a, now), false)))
  }

  function Cancel(t: Tables, user: string, request: string, expected: int, reason: string, scope: string,
                  key: string): Done<Interaction> {
    var post := PostKey(user, scope, CancelOperation, key);
    var payload := CancelPayload(request, expected, reason);
    if expected < 1 || (scope == "") != (key == "") then Done(t, Refused(Invalid))
    else if Replayed(t, post, payload).Some? then Done(t, Replayed(t, post, payload).value)
    else if request !in t.interactions || t.interactions[request].draft.user != user
      || t.interactions[request].status != Pending || t.interactions[request].rowVersion != expected
           then Done(t, Refused(Conflict))
    else
      Done(StorePost(Close(t, {request}, Cancelled), post, payload, Closing(t.interactions[request], Cancelled)),
           Ok(Closing(t.interactions[request], Cancelled)))
  }

  function DueRows(t: Tables, user: string, now: int): set<string> {
    set id | id in t.interactions && t.interactions[id].draft.user == user && Due(t.interactions[id], now)
  }

  function ExpireDue(t: Tables, user: string, now: int): Done<set<string>> {
    if user == "" then Done(t, Refused(Invalid))
        else Done(Close(t, DueRows(t, user, now), Expired), Ok(DueRows(t, user, now)))
  }

  function SessionRows(t: Tables, user: string, session: string): set<string> {
    set id | id in t.interactions && t.interactions[id].draft.user == user
      && t.interactions[id].draft.session == session && t.interactions[id].status == Pending
  }

  function CancelSession(t: Tables, user: string, session: string): Done<set<string>> {
    if user == "" || session == "" then Done(t, Refused(Invalid))
    else Done(Close(t, SessionRows(t, user, session), Cancelled), Ok(SessionRows(t, user, session)))
  }

  // ---------------------------------------------------------------- the invariant

  /** How often an event of the kind must be in the outbox for the request. */
  function Emitted(rows: map<string, Interaction>, request: string, kind: Kind): nat {
    if request in rows && (kind == CreatedEvent || kind == KindOf(rows[request].status) ||
                           (rows[request].status == Resolved && kind in {DecisionReady, ProjectionRequested})) then 1
                             else 0
  }

  ghost predicate RowsOk(rows: map<string, Interaction>) {
    && (forall id | id in rows ::
          && rows[id].id == id && (rows[id].status == Pending <==> rows[id].rowVersion == 1)
          && rows[id].rowVersion in {1, 2} && rows[id].draft.schema.Some?)
    && (forall a, b | a in rows && b in rows
         && (SameVendor(rows[a], rows[b].draft) || SameCheckpoint(rows[a], rows[b].draft)) :: a == b)
  }

  ghost predicate EventsOk(t: Tables) {
    forall id, kind :: t.outbox[Event(id, kind)] == Emitted(t.interactions, id, kind)
  }

  /** A response belongs to a resolved interaction, answers the input that was reviewed, at the
      version that was pending, validly and in time. */
  ghost predicate ResponseFits(rows: map<string, Interaction>, r: string, x: Response) {
    && x.id == r && x.request in rows && rows[x.request].status == Resolved && rows[x.request].draft.user == x.user
    && AnswerValid(rows[x.request].draft, x.answer)
    && x.answer.inputHash == rows[x.request].draft.inputHash && x.answer.expected == 1
    && (rows[x.request].draft.expires.Some? ==> x.at < rows[x.request].draft.expires.value)
  }

  ghost predicate ResponsesFit(rows: map<string, Interaction>, responses: map<string, Response>) {
    forall r | r in responses :: ResponseFits(rows, r, responses[r])
  }

  ghost predicate OnePerRequest(responses: map<string, Response>) {
    forall r, s | r in responses && s in responses && responses[r].request == responses[s].request :: r == s
  }

  ghost predicate HasResponse(responses: map<string, Response>, request: string) {
    exists r :: r in responses && responses[r].request == request
  }

  ghost predicate ResolvedAnswered(rows: map<string, Interaction>, responses: map<string, Response>) {
    forall id | id in rows && rows[id].status == Resolved :: HasResponse(responses, id)
  }

  ghost predicate HasDecision(decisions: map<string, Decision>, response: string) {
    exists d :: d in decisions && decisions[d].response == response
  }

  /** Decisions and responses correspond one to one. */
  ghost predicate DecisionsOk(decisions: map<string, Decision>, responses: map<string, Response>) {
    && (forall d | d in decisions ::
         decisions[d].response in responses && responses[decisions[d].response].request == decisions[d].request)
    && (forall c, d | c in decisions && d in decisions && decisions[c].response == decisions[d].response :: c == d)
    && (forall r | r in responses :: HasDecision(decisions, r))
  }

  ghost predicate KeyFits(k: AnswerKey, x: Answered, responses: map<string, Response>) {
    && x.response in responses
    && var r := responses[x.response];
      r.user == k.user && ScopeOf(r.answer) == k.scope && r.answer.key == k.key
        && PayloadOf(r.request, r.answer) == x.payload
  }

  ghost predicate KeysOk(answers: map<AnswerKey, Answered>, responses: map<string, Response>) {
    forall k | k in answers :: KeyFits(k, answers[k], responses)
  }

  ghost predicate GatewayOk(t: Tables) {
    && RowsOk(t.interactions) && EventsOk(t)
    && ResponsesFit(t.interactions, t.responses) && OnePerRequest(t.responses)
         && ResolvedAnswered(t.interactions, t.responses)
    && t.projections == t.responses.Keys
    && DecisionsOk(t.decisions, t.responses) && KeysOk(t.answers, t.responses)
  }

  // ---------------------------------------------------------------- what keeps it

  ghost predicate AllPending(t: Tables, ids: set<string>) {
    forall id | id in ids :: id in t.interactions && t.interactions[id].status == Pending
  }

  lemma CloseRows(t: Tables, ids: set<string>, to: Status)
    requires RowsOk(t.interactions) && AllPending(t, ids) && to != Pending
    ensures RowsOk(Close(t, ids, to).interactions)
  {
    SameDraftsOk(t.interactions, Close(t, ids, to).interactions);
  }

  /** Rows keep their place when only status and version change, both in step. */
  lemma SameDraftsOk(rows: map<string, Interaction>, after: map<string, Interaction>)
    requires RowsOk(rows) && after.Keys == rows.Keys
    requires forall id | id in rows ::
        after[id] == rows[id]
          || (rows[id].status == Pending && after[id] == Closing(rows[id], after[id].status)
               && after[id].status != Pending)
    ensures RowsOk(after)
  {
    forall a, b | a in after && b in after
        && (SameVendor(after[a], after[b].draft) || SameCheckpoint(after[a], after[b].draft)) ensures a == b {
      assert SameVendor(rows[a], rows[b].draft) || SameCheckpoint(rows[a], rows[b].draft);
    }
  }

  lemma CloseEvents(t: Tables, ids: set<string>, to: Status)
    requires EventsOk(t) && AllPending(t, ids) && to in {Expired, Cancelled}
    ensures EventsOk(Close(t, ids, to))
  {
    var after := Close(t, ids, to);
    var added := set id | id in ids :: Event(id, KindOf(to));
    forall id, kind
      ensures after.outbox[Event(id, kind)] == Emitted(after.interactions, id, kind)
    {
      assert Event(id, kind) in added <==> id in ids && kind == KindOf(to);
      assert t.outbox[Event(id, kind)] == Emitted(t.interactions, id, kind);
    }
  }

  /** Resolved rows are the same in both tables. */
  ghost predicate SameResolved(rows: map<string, Interaction>, after: map<string, Interaction>) {
    && (forall id | id in rows && rows[id].status == Resolved :: id in after && after[id] == rows[id])
    && (forall id | id in after && after[id].status == Resolved :: id in rows && rows[id] == after[id])
  }

  lemma SameResolvedKeeps(rows: map<string, Interaction>, after: map<string, Interaction>,
                          responses: map<string, Response>)
    requires SameResolved(rows, after) && ResponsesFit(rows, responses) && ResolvedAnswered(rows, responses)
    ensures ResponsesFit(after, responses) && ResolvedAnswered(after, responses)
  {
    forall r | r in responses ensures ResponseFits(after, r, responses[r]) {
      assert ResponseFits(rows, r, responses[r]);
    }
  }

  lemma CloseKeeps(t: Tables, ids: set<string>, to: Status)
    requires GatewayOk(t) && AllPending(t, ids) && to in {Expired, Cancelled}
    ensures GatewayOk(Close(t, ids, to))
  {
    CloseRows(t, ids, to);
    CloseEvents(t, ids, to);
    SameResolvedKeeps(t.interactions, Close(t, ids, to).interactions, t.responses);
  }

  lemma RecordedEvents(t: Tables, user: string, request: string, a: Answer, rid: string, did: string, now: int)
    requires EventsOk(t) && AllPending(t, {request})
    ensures EventsOk(Recorded(t, user, request, a, rid, did, now))
  {
    var after := Recorded(t, user, request, a, rid, did, now);
    var added := set id | id in {request} :: Event(id, ResolvedEvent);
    assert added == {Event(request, ResolvedEvent)};
    forall id, kind
      ensures after.outbox[Event(id, kind)] == Emitted(after.interactions, id, kind)
    {
      assert t.outbox[Event(id, kind)] == Emitted(t.interactions, id, kind);
    }
  }

  lemma RecordedResponses(rows: map<string, Interaction>, responses: map<string, Response>,
                          after: map<string, Interaction>, rid: string, x: Response)
    requires ResponsesFit(rows, responses) && OnePerRequest(responses) && ResolvedAnswered(rows, responses)
        && rid !in responses
    requires x.request in rows && rows[x.request].status == Pending
        && after == rows[x.request := Closing(rows[x.request], Resolved)]
    requires x.id == rid && rows[x.request].draft.user == x.user && AnswerValid(rows[x.request].draft, x.answer)
        && !Due(rows[x.request], x.at)
    requires x.answer.inputHash == rows[x.request].draft.inputHash && x.answer.expected == 1
    ensures ResponsesFit(after, responses[rid := x]) && OnePerRequest(responses[rid := x])
        && ResolvedAnswered(after, responses[rid := x])
  {
    forall r | r in responses ensures ResponseFits(after, r, responses[r]) && responses[r].request != x.request {
      assert ResponseFits(rows, r, responses[r]);
    }
    forall id | id in after && after[id].status == Resolved
      ensures HasResponse(responses[rid := x], id)
    {
      if id == x.request {
        assert responses[rid := x][rid].request == id;
      } else {
        assert HasResponse(responses, id);
        var r :| r in responses && responses[r].request == id;
        assert responses[rid := x][r].request == id;
      }
    }
  }

  lemma RecordedDecisions(decisions: map<string, Decision>, responses: map<string, Response>, rid: string,
                          did: string, x: Response)
    requires DecisionsOk(decisions, responses) && rid !in responses && did !in decisions
    ensures DecisionsOk(decisions[did := Decision(x.request, rid)], responses[rid := x])
  {
    var after := decisions[did := Decision(x.request, rid)];
    forall r | r in responses[rid := x] ensures HasDecision(after, r) {
      if r == rid {
        assert after[did].response == r;
      } else {
        assert HasDecision(decisions, r);
        var d :| d in decisions && decisions[d].response == r;
        assert after[d].response == r;
      }
    }
  }

  lemma RecordedKeys(answers: map<AnswerKey, Answered>, responses: map<string, Response>, rid: string, x: Response)
    requires KeysOk(answers, responses) && rid !in responses
    ensures KeysOk(answers[AnswerKey(x.user, ScopeOf(x.answer),
        x.answer.key) := Answered(PayloadOf(x.request, x.answer), rid)], responses[rid := x])
  {
    forall k | k in answers ensures KeyFits(k, answers[k], responses[rid := x]) {
      assert KeyFits(k, answers[k], responses);
    }
  }

  lemma RecordedKeeps(t: Tables, user: string, request: string, a: Answer, rid: string, did: string, now: int)
    requires GatewayOk(t) && AllPending(t, {request}) && rid !in t.responses && did !in t.decisions
    requires t.interactions[request].draft.user == user && AnswerValid(t.interactions[request].draft, a)
        && !Due(t.interactions[request], now)
    requires a.inputHash == t.interactions[request].draft.inputHash && a.expected == 1
    ensures GatewayOk(Recorded(t, user, request, a, rid, did, now))
  {
    var x := Response(rid, user, request, a, now);
    CloseRows(t, {request}, Resolved);
    assert Close(t, {request}, Resolved).interactions ==
        t.interactions[request := Closing(t.interactions[request], Resolved)];
    RecordedEvents(t, user, request, a, rid, did, now);
    RecordedResponses(t.interactions, t.responses, Close(t, {request}, Resolved).interactions, rid, x);
    RecordedDecisions(t.decisions, t.responses, rid, did, x);
    RecordedKeys(t.answers, t.responses, rid, x);
  }

  lemma RespondKeeps(t: Tables, user: string, request: string, a: Answer, rid: string, did: string, now: int)
    requires GatewayOk(t) && rid !in t.responses && did !in t.decisions
    ensures GatewayOk(Respond(t, user, request, a, rid, did, now).tables)
  {
    if Respond(t, user, request, a, rid, did, now).tables != t {
      assert AllPending(t, {request});
      if Due(t.interactions[request], now) {
        CloseKeeps(t, {request}, Expired);
      } else {
        RecordedKeeps(t, user, request, a, rid, did, now);
      }
    }
  }

  lemma InsertRows(rows: map<string, Interaction>, d: Draft, id: string)
    requires RowsOk(rows) && id !in rows && !Clashes(rows, d) && DraftValid(d)
    ensures RowsOk(rows[id := Interaction(id, d, Pending, 1)])
  {
    forall x | x in rows
      ensures !SameVendor(rows[x], d) && !SameCheckpoint(rows[x], d)
          && !SameCheckpoint(Interaction(id, d, Pending, 1), rows[x].draft)
    {
    }
  }

  lemma InsertEvents(t: Tables, row: Interaction)
    requires EventsOk(t) && row.id !in t.interactions && row.status == Pending
    ensures EventsOk(Inserted(t, row))
  {
    var after := Inserted(t, row);
    forall x, kind
      ensures after.outbox[Event(x, kind)] == Emitted(after.interactions, x, kind)
    {
      assert t.outbox[Event(x, kind)] == Emitted(t.interactions, x, kind);
    }
  }

  lemma InsertKeeps(t: Tables, d: Draft, id: string)
    requires GatewayOk(t) && id !in t.interactions && !Clashes(t.interactions, d) && DraftValid(d)
    ensures GatewayOk(Inserted(t, Interaction(id, d, Pending, 1)))
  {
    var row := Interaction(id, d, Pending, 1);
    InsertRows(t.interactions, d, id);
    InsertEvents(t, row);
    SameResolvedKeeps(t.interactions, t.interactions[id := row], t.responses);
  }

  lemma StoreKeeps(t: Tables, key: PostKey, payload: Payload, result: Interaction)
    requires GatewayOk(t)
    ensures GatewayOk(StorePost(t, key, payload, result))
  {
    assert EventsOk(StorePost(t, key, payload, result)) by {
      var after := StorePost(t, key, payload, result);
      forall id, kind ensures after.outbox[Event(id, kind)] == Emitted(after.interactions, id, kind) {
        assert t.outbox[Event(id, kind)] == Emitted(t.interactions, id, kind);
      }
    }
  }

  lemma CreateKeeps(t: Tables, draft: Draft, scope: string, key: string, id: string)
    requires GatewayOk(t) && id !in t.interactions
    ensures GatewayOk(Create(t, draft, scope, key, id).tables)
  {
    var d := Normalised(draft);
    var post := PostKey(d.user, scope, CreateOperation, key);
    var row := Interaction(id, d, Pending, 1);
    var after := Create(t, draft, scope, key, id).tables;
    if after != t && !Clashes(t.interactions, d) {
      InsertKeeps(t, d, id);
      StoreKeeps(Inserted(t, row), post, CreatePayload(d), row);
    } else if after != t {
      StoreKeeps(t, post, CreatePayload(d), Earlier(t.interactions, d).value);
    }
  }

  // ---------------------------------------------------------------- runs

  /** One call, with the ids it would use and the clock it reads. */
  datatype Call =
    | CreateCall(draft: Draft, scope: string, key: string, id: string)
    | RespondCall(user: string, request: string, answer: Answer, rid: string, did: string, at: int)
    | CancelCall(user: string, request: string, expected: int, reason: string, scope: string, key: string)
    | ExpireCall(user: string, at: int)
    | SessionCall(user: string, session: string)

  ghost function After(t: Tables, c: Call): Tables {
    match c
    case CreateCall(draft, scope, key, id) => Create(t, draft, scope, key, id).tables
    case RespondCall(user, request, a, rid, did, at) => Respond(t, user, request, a, rid, did, at).tables
    case CancelCall(user, request, expected, reason, scope, key) =>
        Cancel(t, user, request, expected, reason, scope, key).tables
    case ExpireCall(user, at) => ExpireDue(t, user, at).tables
    case SessionCall(user, session) => CancelSession(t, user, session).tables
  }

  /** Ids are never used twice. */
  ghost predicate FreshIds(t: Tables, c: Call) {
    match c
    case CreateCall(_, _, _, id) => id !in t.interactions
    case RespondCall(_, _, _, rid, did, _) => rid !in t.responses && did !in t.decisions
    case _ => true
  }

  lemma CallKeeps(t: Tables, c: Call)
    requires GatewayOk(t) && FreshIds(t, c)
    ensures GatewayOk(After(t, c))
  {
    match c
    case CreateCall(draft, scope, key, id) => CreateKeeps(t, draft, scope, key, id);
    case RespondCall(user, request, a, rid, did, at) => RespondKeeps(t, user, request, a, rid, did, at);
    case CancelCall(user, request, expected, reason, scope, key) =>
      if request in t.interactions && t.interactions[request].status == Pending { CloseKeeps(t, {request}, Cancelled); }
    case ExpireCall(user, at) => CloseKeeps(t, DueRows(t, user, at), Expired);
    case SessionCall(user, session) => CloseKeeps(t, SessionRows(t, user, session), Cancelled);
  }

  /** A row is never dropped, keeps its draft, and once it has its final answer it never
      changes again. */
  ghost predicate RowsMove(rows: map<string, Interaction>, after: map<string, Interaction>) {
    forall id | id in rows ::
      id in after
        && (after[id] == rows[id] || (rows[id].status == Pending && after[id] == Closing(rows[id], after[id].status)))
  }

  /** Key tables and responses only grow. */
  ghost predicate Grown(t: Tables, after: Tables) {
    && (forall k | k in t.answers :: k in after.answers && after.answers[k] == t.answers[k])
    && (forall k | k in t.posts :: k in after.posts && after.posts[k] == t.posts[k])
    && (forall r | r in t.responses :: r in after.responses && after.responses[r] == t.responses[r])
  }

  lemma GrownTwice(t: Tables, mid: Tables, after: Tables)
    requires Grown(t, mid) && Grown(mid, after)
    ensures Grown(t, after)
  {
  }

  lemma StoreGrows(t: Tables, key: PostKey, payload: Payload, result: Interaction)
    requires key.key == "" || key !in t.posts
    ensures Grown(t, StorePost(t, key, payload, result))
        && RowsMove(t.interactions, StorePost(t, key, payload, result).interactions)
  {
  }

  lemma InsertGrows(t: Tables, row: Interaction)
    requires row.id !in t.interactions
    ensures Grown(t, Inserted(t, row)) && RowsMove(t.interactions, Inserted(t, row).interactions)
  {
  }

  lemma CreateGrows(t: Tables, draft: Draft, scope: string, key: string, id: string)
    requires id !in t.interactions
    ensures var after := Create(t, draft, scope, key, id).tables;
      Grown(t, after) && RowsMove(t.interactions, after.interactions)
  {
    var d := Normalised(draft);
    var post := PostKey(d.user, scope, CreateOperation, key);
    var row := Interaction(id, d, Pending, 1);
    var after := Create(t, draft, scope, key, id).tables;
    if after == t {
    } else if !Clashes(t.interactions, d) {
      InsertGrows(t, row);
      StoreGrows(Inserted(t, row), post, CreatePayload(d), row);
      GrownTwice(t, Inserted(t, row), after);
    } else {
      StoreGrows(t, post, CreatePayload(d), Earlier(t.interactions, d).value);
    }
  }

  lemma CloseMoves(t: Tables, ids: set<string>, to: Status)
    requires AllPending(t, ids)
    ensures Grown(t, Close(t, ids, to)) && RowsMove(t.interactions, Close(t, ids, to).interactions)
  {
  }

  lemma RecordedGrows(t: Tables, user: string, request: string, a: Answer, rid: string, did: string, now: int)
    requires rid !in t.responses && AllPending(t, {request}) && AnswerKey(user, ScopeOf(a), a.key) !in t.answers
    ensures var after := Recorded(t, user, request, a, rid, did, now);
      Grown(t, after) && RowsMove(t.interactions, after.interactions)
  {
    CloseMoves(t, {request}, Resolved);
  }

  lemma RespondGrows(t: Tables, user: string, request: string, a: Answer, rid: string, did: string, now: int)
    requires rid !in t.responses
    ensures var after := Respond(t, user, request, a, rid, did, now).tables;
      Grown(t, after) && RowsMove(t.interactions, after.interactions)
  {
    if Respond(t, user, request, a, rid, did, now).tables != t {
      if Due(t.interactions[request], now) {
        CloseMoves(t, {request}, Expired);
      } else {
        RecordedGrows(t, user, request, a, rid, did, now);
      }
    }
  }

  lemma ClosedGrows(t: Tables, request: string, post: PostKey, payload: Payload, result: Interaction)
    requires request in t.interactions && t.interactions[request].status == Pending
    requires post.key == "" || post !in t.posts
    ensures var after := StorePost(Close(t, {request}, Cancelled), post, payload, result);
      Grown(t, after) && RowsMove(t.interactions, after.interactions)
  {
    CloseMoves(t, {request}, Cancelled);
    StoreGrows(Close(t, {request}, Cancelled), post, payload, result);
  }

  lemma CancelGrows(t: Tables, user: string, request: string, expected: int, reason: string, scope: string, key: string)
    ensures var after := Cancel(t, user, request, expected, reason, scope, key).tables;
      Grown(t, after) && RowsMove(t.interactions, after.interactions)
  {
    var post := PostKey(user, scope, CancelOperation, key);
    if request in t.interactions && t.interactions[request].status == Pending && (key == "" || post !in t.posts) {
      ClosedGrows(t, request, post, CancelPayload(request, expected, reason),
                  Closing(t.interactions[request], Cancelled));
    }
  }

  /** What every call leaves of what was there. */
  lemma CallGrows(t: Tables, c: Call)
    requires FreshIds(t, c)
    ensures Grown(t, After(t, c)) && RowsMove(t.interactions, After(t, c).interactions)
  {
    match c
    case CreateCall(draft, scope, key, id) => CreateGrows(t, draft, scope, key, id);
    case RespondCall(user, request, a, rid, did, at) => RespondGrows(t, user, request, a, rid, did, at);
    case CancelCall(user, request, expected, reason, scope, key) =>
        CancelGrows(t, user, request, expected, reason, scope, key);
    case ExpireCall(user, at) => CloseMoves(t, DueRows(t, user, at), Expired);
    case SessionCall(user, session) => CloseMoves(t, SessionRows(t, user, session), Cancelled);
  }

  ghost function AfterAll(t: Tables, calls: seq<Call>): Tables {
    if calls == [] then t else After(AfterAll(t, calls[..|calls|-1]), calls[|calls|-1])
  }

  ghost predicate FreshRun(t: Tables, calls: seq<Call>) {
    forall k | 0 <= k < |calls| :: FreshIds(AfterAll(t, calls[..k]), calls[k])
  }

  lemma FreshPrefix(t: Tables, calls: seq<Call>)
    requires calls != [] && FreshRun(t, calls)
    ensures FreshRun(t, calls[..|calls|-1]) && FreshIds(AfterAll(t, calls[..|calls|-1]), calls[|calls|-1])
  {
    var n := |calls| - 1;
    forall k | 0 <= k < n ensures FreshIds(AfterAll(t, calls[..n][..k]), calls[..n][k]) {
      assert calls[..n][..k] == calls[..k];
    }
  }

  lemma {:induction false} RunKeeps(t: Tables, calls: seq<Call>)
    requires GatewayOk(t) && FreshRun(t, calls)
    ensures GatewayOk(AfterAll(t, calls))
  {
    if calls != [] {
      var n := |calls| - 1;
      FreshPrefix(t, calls);
      RunKeeps(t, calls[..n]);
      CallKeeps(AfterAll(t, calls[..n]), calls[n]);
    }
  }

  lemma {:induction false} RunGrows(t: Tables, calls: seq<Call>)
    requires FreshRun(t, calls)
    ensures Grown(t, AfterAll(t, calls))
  {
    if calls != [] {
      var n := |calls| - 1;
      FreshPrefix(t, calls);
      RunGrows(t, calls[..n]);
      CallGrows(AfterAll(t, calls[..n]), calls[n]);
      GrownTwice(t, AfterAll(t, calls[..n]), AfterAll(t, calls));
    }
  }

  /** Over every run the final answer of an interaction is given at most once. */
  lemma {:induction false} FinalIsForever(t: Tables, calls: seq<Call>, id: string)
    requires FreshRun(t, calls) && id in t.interactions && t.interactions[id].status != Pending
    ensures id in AfterAll(t, calls).interactions && AfterAll(t, calls).interactions[id] == t.interactions[id]
  {
    if calls != [] {
      var n := |calls| - 1;
      FreshPrefix(t, calls);
      FinalIsForever(t, calls[..n], id);
      CallGrows(AfterAll(t, calls[..n]), calls[n]);
    }
  }

  const EMPTY := Tables(map[], map[], map[], {}, multiset{}, map[], map[])

  function ResponsesTo(t: Tables, id: string): set<string> {
    set r | r in t.responses && t.responses[r].request == id
  }

  function DecisionsOn(t: Tables, id: string): set<string> {
    set d | d in t.decisions && t.decisions[d].request == id
  }

  function ProjectionsOf(t: Tables, id: string): set<string> {
    set p | p in t.projections && p in t.responses && t.responses[p].request == id
  }

  lemma ResponseCount(t: Tables, id: string)
    requires GatewayOk(t) && id in t.interactions
    ensures |ResponsesTo(t, id)| == if t.interactions[id].status == Resolved then 1 else 0
    ensures ProjectionsOf(t, id) == ResponsesTo(t, id)
  {
    if t.interactions[id].status == Resolved {
      assert HasResponse(t.responses, id);
      var r :| r in t.responses && t.responses[r].request == id;
      assert ResponsesTo(t, id) == {r};
    } else {
      forall r | r in t.responses ensures t.responses[r].request != id {
        assert ResponseFits(t.interactions, r, t.responses[r]);
      }
      assert ResponsesTo(t, id) == {};
    }
  }

  lemma DecisionCount(t: Tables, id: string)
    requires DecisionsOk(t.decisions, t.responses) && OnePerRequest(t.responses)
    ensures |DecisionsOn(t, id)| == if HasResponse(t.responses, id) then 1 else 0
  {
    if HasResponse(t.responses, id) {
      var r :| r in t.responses && t.responses[r].request == id;
      assert HasDecision(t.decisions, r);
      var d :| d in t.decisions && t.decisions[d].response == r;
      assert DecisionsOn(t, id) == {d};
    } else {
      assert DecisionsOn(t, id) == {};
    }
  }

  /** Pending is version 1 and a final answer version 2; resolved means exactly one response,
      one decision and one projection; one created and at most one terminal event; and every
      response answers the reviewed input, validly and before the expiry. */
  ghost predicate FinalOnce(t: Tables, id: string)
    requires id in t.interactions
  {
    var row := t.interactions[id];
    var answered := if row.status == Resolved then 1 else 0;
    && row.rowVersion == (if row.status == Pending then 1 else 2)
    && |ResponsesTo(t, id)| == answered && |DecisionsOn(t, id)| == answered && |ProjectionsOf(t, id)| == answered
    && t.outbox[Event(id, CreatedEvent)] == 1 && t.outbox[Event(id, ResolvedEvent)] == answered
    && t.outbox[Event(id, ResolvedEvent)] + t.outbox[Event(id, ExpiredEvent)] + t.outbox[Event(id,
         CancelledEvent)] == (if row.status == Pending then 0 else 1)
    && (forall r | r in ResponsesTo(t, id) ::
          && (row.draft.expires.Some? ==> t.responses[r].at < row.draft.expires.value)
          && t.responses[r].answer.inputHash == row.draft.inputHash && AnswerValid(row.draft, t.responses[r].answer))
  }

  lemma DecisionIffResolved(t: Tables, id: string)
    requires GatewayOk(t) && id in t.interactions
    ensures HasResponse(t.responses, id) <==> t.interactions[id].status == Resolved
  {
    if HasResponse(t.responses, id) {
      var r :| r in t.responses && t.responses[r].request == id;
      assert ResponseFits(t.interactions, r, t.responses[r]);
    }
  }

  lemma EventCounts(t: Tables, id: string)
    requires EventsOk(t) && id in t.interactions
    ensures t.outbox[Event(id, CreatedEvent)] == 1
    ensures forall kind | kind in {ResolvedEvent, ExpiredEvent, CancelledEvent} ::
      t.outbox[Event(id, kind)] == if kind == KindOf(t.interactions[id].status) then 1 else 0
  {
    assert t.outbox[Event(id, CreatedEvent)] == Emitted(t.interactions, id, CreatedEvent);
    forall kind ensures t.outbox[Event(id, kind)] == Emitted(t.interactions, id, kind) {
    }
  }

  lemma GatewayIsFinalOnce(t: Tables, id: string)
    requires GatewayOk(t) && id in t.interactions
    ensures FinalOnce(t, id)
  {
    ResponseCount(t, id);
    DecisionCount(t, id);
    DecisionIffResolved(t, id);
    EventCounts(t, id);
    forall r | r in ResponsesTo(t, id)
      ensures t.interactions[id].draft.expires.Some? ==> t.responses[r].at < t.interactions[id].draft.expires.value
      ensures t.responses[r].answer.inputHash == t.interactions[id].draft.inputHash
          && AnswerValid(t.interactions[id].draft, t.responses[r].answer)
    {
      assert ResponseFits(t.interactions, r, t.responses[r]);
    }
  }

  lemma OneFinalAnswer(calls: seq<Call>, id: string)
    requires FreshRun(EMPTY, calls) && id in AfterAll(EMPTY, calls).interactions
    ensures FinalOnce(AfterAll(EMPTY, calls), id)
  {
    RunKeeps(EMPTY, calls);
    GatewayIsFinalOnce(AfterAll(EMPTY, calls), id);
  }

  /** What a call may close, and how it ends: its own pending row, for the version it was asked
      about, or all rows that are due or belong to the session. */
  ghost predicate MayClose(row: Interaction, c: Call, to: Status) {
    row.status == Pending &&
    match c
    case CreateCall(_, _, _, _) => false
    case RespondCall(user, request, a, _, _, at) =>
      row.draft.user == user && if Due(row, at) then to == Expired else to == Resolved && row.rowVersion == a.expected
    case CancelCall(user, _, expected, _, _, _) => row.draft.user == user && to == Cancelled
        && row.rowVersion == expected
    case ExpireCall(user, at) => row.draft.user == user && to == Expired && Due(row, at)
    case SessionCall(user, session) => row.draft.user == user && to == Cancelled && row.draft.session == session
  }

  ghost predicate About(c: Call, id: string) {
    match c
    case RespondCall(_, request, _, _, _, _) => id == request
    case CancelCall(_, request, _, _, _, _) => id == request
    case _ => true
  }

  lemma RespondTouches(t: Tables, user: string, request: string, a: Answer, rid: string, did: string, at: int,
                       id: string)
    requires id in t.interactions
    ensures var after := Respond(t, user, request, a, rid, did, at).tables.interactions;
      id in after
        && (after[id] != t.interactions[id] ==>
             id == request
               && MayClose(t.interactions[id], RespondCall(user, request, a, rid, did, at), after[id].status))
  {
  }

  lemma CancelTouches(t: Tables, user: string, request: string, expected: int, reason: string, scope: string,
                      key: string, id: string)
    requires id in t.interactions
    ensures var after := Cancel(t, user, request, expected, reason, scope, key).tables.interactions;
      id in after
        && (after[id] != t.interactions[id] ==>
             id == request
               && MayClose(t.interactions[id], CancelCall(user, request, expected, reason, scope, key),
                   after[id].status))
  {
  }

  lemma SweepTouches(t: Tables, ids: set<string>, to: Status, id: string)
    requires id in t.interactions
    ensures id in Close(t, ids, to).interactions
    ensures Close(t, ids, to).interactions[id] == if id in ids then Closing(t.interactions[id], to)
        else t.interactions[id]
  {
  }

  /** A call changes no row but the ones it is about; an expiry pass and a session's end close
      all of theirs. */
  lemma CallTouches(t: Tables, c: Call, id: string)
    requires FreshIds(t, c) && id in t.interactions
    ensures id in After(t, c).interactions
    ensures var after := After(t, c).interactions[id];
      after != t.interactions[id] ==> About(c, id) && MayClose(t.interactions[id], c, after.status)
    ensures c.ExpireCall? && c.user != "" && MayClose(t.interactions[id], c, Expired) ==>
        After(t, c).interactions[id].status == Expired
    ensures c.SessionCall? && c.user != "" && c.session != "" && MayClose(t.interactions[id], c, Cancelled) ==>
        After(t, c).interactions[id].status == Cancelled
  {
    match c
    case CreateCall(draft, scope, key, newId) => CreateTouches(t, draft, scope, key, newId, id);
    case RespondCall(user, request, a, rid, did, at) => RespondTouches(t, user, request, a, rid, did, at, id);
    case CancelCall(user, request, expected, reason, scope, key) =>
        CancelTouches(t, user, request, expected, reason, scope, key, id);
    case ExpireCall(user, at) => SweepTouches(t, DueRows(t, user, at), Expired, id);
    case SessionCall(user, session) => SweepTouches(t, SessionRows(t, user, session), Cancelled, id);
  }

  lemma CreateTouches(t: Tables, draft: Draft, scope: string, key: string, id: string, other: string)
    requires id !in t.interactions && other in t.interactions
    ensures other in Create(t, draft, scope, key, id).tables.interactions
    ensures Create(t, draft, scope, key, id).tables.interactions[other] == t.interactions[other]
  {
  }

  /** What a first creation under a key, or one without a key, answers with is stored, and it is
      the one row of that request: a new one, or the one an earlier request made. Later calls
      under the key give the same answer again: CreateRetries. */
  lemma CreateGives(t: Tables, draft: Draft, scope: string, key: string, id: string)
    requires GatewayOk(t) && id !in t.interactions && Create(t, draft, scope, key, id).reply.Ok?
    requires key == "" || PostKey(draft.user, scope, CreateOperation, key) !in t.posts
    ensures var done := Create(t, draft, scope, key, id);
      IsRowOf(done.tables.interactions, draft, done.reply.value)
        && OnlyRowOf(done.tables.interactions, Normalised(draft), done.reply.value.id)
    ensures Create(t, draft, scope, key, id).reply.value.id == id && draft.highRisk ==>
      "approve_session" !in Create(t, draft, scope, key, id).reply.value.draft.allowed
  {
    CreateKeeps(t, draft, scope, key, id);
    CreateStored(t, draft, scope, key, id);
    var done := Create(t, draft, scope, key, id);
    OneRowOf(done.tables.interactions, Normalised(draft), done.reply.value.id);
  }

  ghost predicate IsRowOf(rows: map<string, Interaction>, draft: Draft, row: Interaction) {
    row.id in rows && rows[row.id] == row && SameVendor(row, Normalised(draft))
      && row.draft.inputHash == draft.inputHash
  }

  lemma CreateStored(t: Tables, draft: Draft, scope: string, key: string, id: string)
    requires RowsOk(t.interactions) && id !in t.interactions && Create(t, draft, scope, key, id).reply.Ok?
    requires key == "" || PostKey(draft.user, scope, CreateOperation, key) !in t.posts
    ensures IsRowOf(Create(t, draft, scope, key, id).tables.interactions, draft,
        Create(t, draft, scope, key, id).reply.value)
    ensures Create(t, draft, scope, key, id).reply.value.id == id ==>
        Create(t, draft, scope, key, id).reply.value.draft == Normalised(draft)
  {
  }

  ghost predicate OnlyRowOf(rows: map<string, Interaction>, d: Draft, id: string) {
    forall other | other in rows && SameVendor(rows[other], d) :: other == id
  }

  lemma OneRowOf(rows: map<string, Interaction>, d: Draft, id: string)
    requires RowsOk(rows) && id in rows && SameVendor(rows[id], d)
    ensures OnlyRowOf(rows, d, id)
  {
    forall other | other in rows && SameVendor(rows[other], d) ensures other == id {
      assert SameVendor(rows[other], rows[id].draft);
    }
  }

  // ---------------------------------------------------------------- retries

  /** The key is taken, by this payload and with this response. */
  ghost predicate Holds(t: Tables, key: AnswerKey, payload: Payload, x: Response) {
    key in t.answers && t.answers[key].payload == payload && x.id == t.answers[key].response && x.id in t.responses
      && t.responses[x.id] == x
    && x.user == key.user
  }

  lemma AnswerHolds(t: Tables, user: string, request: string, a: Answer, rid: string, did: string, now: int)
    requires GatewayOk(t) && Respond(t, user, request, a, rid, did, now).reply.Ok?
    ensures var done := Respond(t, user, request, a, rid, did, now);
      Holds(done.tables, AnswerKey(user, ScopeOf(a), a.key), PayloadOf(request, a), done.reply.value.0)
  {
    var key := AnswerKey(user, ScopeOf(a), a.key);
    if key in t.answers {
      assert KeyFits(key, t.answers[key], t.responses);
      assert ResponseFits(t.interactions, t.answers[key].response, t.responses[t.answers[key].response]);
    }
  }

  lemma HeldReplays(t: Tables, key: AnswerKey, payload: Payload, x: Response, request: string, b: Answer, rid: string,
                    did: string, now: int)
    requires Holds(t, key, payload, x) && ScopeOf(b) == key.scope && b.key == key.key && b.actor != "" && b.key != ""
        && b.expected >= 1
    ensures Respond(t, key.user, request, b, rid, did, now) ==
            Done(t, if PayloadOf(request, b) == payload then Ok((x, true)) else Refused(Conflict))
  {
  }

  /** All successful answers under one key give the first one's response and only the first
      writes; a different answer under the key is a conflict that writes nothing. The order
      of the selected options makes no difference. */
  lemma AnswerRetries(t: Tables, user: string, request: string, a: Answer, rid: string, did: string, now: int,
                      between: seq<Call>, other: string, b: Answer, rid2: string, did2: string, later: int)
    requires GatewayOk(t) && Respond(t, user, request, a, rid, did, now).reply.Ok?
    requires FreshRun(Respond(t, user, request, a, rid, did, now).tables, between)
    requires ScopeOf(b) == ScopeOf(a) && b.key == a.key && b.actor != "" && b.expected >= 1
    ensures var first := Respond(t, user, request, a, rid, did, now);
      var t2 := AfterAll(first.tables, between);
      Respond(t2, user, other, b, rid2, did2, later) ==
      Done(t2, if PayloadOf(other, b) == PayloadOf(request, a) then Ok((first.reply.value.0, true))
        else Refused(Conflict))
  {
    var first := Respond(t, user, request, a, rid, did, now);
    var key := AnswerKey(user, ScopeOf(a), a.key);
    AnswerHolds(t, user, request, a, rid, did, now);
    RunGrows(first.tables, between);
    HeldReplays(AfterAll(first.tables, between), key, PayloadOf(request, a), first.reply.value.0, other, b, rid2, did2,
        later);
  }

  lemma CreateHolds(t: Tables, draft: Draft, scope: string, key: string, id: string)
    requires key != "" && Create(t, draft, scope, key, id).reply.Ok?
    ensures var done := Create(t, draft, scope, key, id);
      var post := PostKey(draft.user, scope, CreateOperation, key);
      && scope != "" && post in done.tables.posts
           && done.tables.posts[post] == Posted(CreatePayload(Normalised(draft)), done.reply.value)
  {
  }

  /** The same for creation, with the draft as the server normalises it. */
  lemma CreateRetries(t: Tables, draft: Draft, scope: string, key: string, id: string,
                      between: seq<Call>, other: Draft, id2: string)
    requires key != "" && Create(t, draft, scope, key, id).reply.Ok?
    requires FreshRun(Create(t, draft, scope, key, id).tables, between)
    requires other.user == draft.user && DraftValid(Normalised(other))
    ensures var first := Create(t, draft, scope, key, id);
      var t2 := AfterAll(first.tables, between);
      Create(t2, other, scope, key, id2) == Done(t2, if Normalised(other) == Normalised(draft) then first.reply
        else Refused(Conflict))
  {
    CreateHolds(t, draft, scope, key, id);
    RunGrows(Create(t, draft, scope, key, id).tables, between);
  }

  lemma CancelHolds(t: Tables, user: string, request: string, expected: int, reason: string, scope: string, key: string)
    requires key != "" && Cancel(t, user, request, expected, reason, scope, key).reply.Ok?
    ensures var done := Cancel(t, user, request, expected, reason, scope, key);
      var post := PostKey(user, scope, CancelOperation, key);
      && scope != "" && post in done.tables.posts
           && done.tables.posts[post] == Posted(CancelPayload(request, expected, reason), done.reply.value)
  {
  }

  lemma CancelRetries(t: Tables, user: string, request: string, expected: int, reason: string, scope: string,
                      key: string,
                      between: seq<Call>, request2: string, expected2: int, reason2: string)
    requires key != "" && Cancel(t, user, request, expected, reason, scope, key).reply.Ok? && expected2 >= 1
    requires FreshRun(Cancel(t, user, request, expected, reason, scope, key).tables, between)
    ensures var first := Cancel(t, user, request, expected, reason, scope, key);
      var t2 := AfterAll(first.tables, between);
      Cancel(t2, user, request2, expected2, reason2, scope, key) ==
      Done(t2, if (request2, expected2, reason2) == (request, expected, reason) then first.reply else Refused(Conflict))
  {
    CancelHolds(t, user, request, expected, reason, scope, key);
    RunGrows(Cancel(t, user, request, expected, reason, scope, key).tables, between);
  }
}
