/** The gateway's tables as they are updated, statement by statement. */
module GatewayStore {
  import opened Basics
  import opened DecisionGateway

  /** One row closed, and said so. */
  function CloseOne(t: Tables, id: string, to: Status): Tables
    requires id in t.interactions
  {
    t.(interactions := t.interactions[id := Closing(t.interactions[id], to)],
       outbox := t.outbox + multiset{Event(id, KindOf(to))})
  }

  lemma OneMoreEvent(done: set<string>, id: string, kind: Kind)
    requires id !in done
    ensures multiset(set x | x in done + {id} :: Event(x, kind)) == multiset(set x | x in done ::
        Event(x, kind)) + multiset{Event(id, kind)}
  {
    var more := set x | x in done + {id} :: Event(x, kind);
    var some := set x | x in done :: Event(x, kind);
    assert more == some + {Event(id, kind)};
    assert Event(id, kind) !in some;
  }

  lemma CloseOneMore(t: Tables, done: set<string>, id: string, to: Status)
    requires id !in done && id in t.interactions
    ensures Close(t, done, to).interactions[id] == t.interactions[id]
    ensures Close(t, done + {id}, to) == CloseOne(Close(t, done, to), id, to)
  {
    OneMoreEvent(done, id, KindOf(to));
    var more, one := Close(t, done + {id}, to), CloseOne(Close(t, done, to), id, to);
    assert more.interactions.Keys == one.interactions.Keys;
    assert more.interactions == one.interactions;
  }

  lemma CloseNone(t: Tables, to: Status)
    ensures Close(t, {}, to) == t
  {
    assert (set x | x in {} :: Event(x, KindOf(to))) == {};
    assert Close(t, {}, to).interactions == t.interactions;
  }

  lemma CloseIsOne(t: Tables, id: string, to: Status)
    requires id in t.interactions
    ensures Close(t, {id}, to) == CloseOne(t, id, to)
  {
    CloseNone(t, to);
    CloseOneMore(t, {}, id, to);
    assert {} + {id} == {id};
  }

  /** Rows of one adapter request are unique, so the look-up is determined. */
  lemma EarlierIs(rows: map<string, Interaction>, d: Draft, id: string)
    requires RowsOk(rows) && Known(rows, d, id)
    ensures Earlier(rows, d) == Some(rows[id])
  {
    assert Earlier(rows, d).Some?;
    var other :| Known(rows, d, other) && rows[other] == Earlier(rows, d).value;
    assert SameVendor(rows[id], rows[other].draft);
  }

  class Store {
    var interactions: map<string, Interaction>
    var responses: map<string, Response>
    var decisions: map<string, Decision>
    var projections: set<string>
    var outbox: multiset<Event>
    var posts: map<PostKey, Posted>
    var answers: map<AnswerKey, Answered>

    ghost function View(): Tables
      reads this
    {
      Tables(interactions, responses, decisions, projections, outbox, posts, answers)
    }

    constructor ()
      ensures View() == EMPTY
    {
      interactions, responses, decisions, projections := map[], map[], map[], {};
      outbox, posts, answers := multiset{}, map[], map[];
    }

    /** The conditional update: it hits only a pending row at the expected version. */
    method CloseRow(user: string, id: string, version: int, to: Status) returns (hit: bool)
      modifies this`interactions
      ensures hit <==> (id in old(interactions) && old(interactions)[id].draft.user == user
                        && old(interactions)[id].status == Pending && old(interactions)[id].rowVersion == version)
      ensures interactions == if hit then old(interactions)[id := Closing(old(interactions)[id], to)]
          else old(interactions)
    {
      if id in interactions && interactions[id].draft.user == user && interactions[id].status == Pending
          && interactions[id].rowVersion == version {
        interactions := interactions[id := interactions[id].(
          status := to, rowVersion := interactions[id].rowVersion + 1)];
        return true;
      }
      return false;
    }

    /** Closes rows one by one; within the transaction every one of them is still pending. */
    method CloseAll(user: string, ids: set<string>, to: Status) returns (closed: set<string>)
      requires forall id | id in ids ::
          id in interactions && interactions[id].status == Pending && interactions[id].draft.user == user
      modifies this`interactions, this`outbox
      ensures View() == Close(old(View()), ids, to) && closed == ids
    {
      closed := {};
      ghost var was := View();
      CloseNone(was, to);
      while ids - closed != {}
        invariant closed <= ids && View() == Close(was, closed, to)
        decreases ids - closed
      {
        var id :| id in ids - closed;
        CloseOneMore(was, closed, id, to);
        var hit := CloseRow(user, id, interactions[id].rowVersion, to);
        if hit {
          outbox := outbox + multiset{Event(id, KindOf(to))};
          closed := closed + {id};
        }
      }
      assert closed == ids;
    }

    method ExpireDueInteractions(user: string, now: int) returns (r: Reply<set<string>>)
      modifies this`interactions, this`outbox
      ensures Done(View(), r) == ExpireDue(old(View()), user, now)
    {
      if user == "" {
        return Refused(Invalid);
      }
      var keys, due := interactions.Keys, {};
      while keys != {}
        invariant keys <= interactions.Keys && View() == old(View())
        invariant due == set id | id in interactions.Keys - keys && interactions[id].draft.user == user
            && Due(interactions[id], now)
      {
        var id :| id in keys;
        var row := interactions[id];
        if row.draft.user == user && row.status == Pending && row.draft.expires.Some?
            && row.draft.expires.value <= now {
          due := due + {id};
        }
        keys := keys - {id};
      }
      assert due == DueRows(View(), user, now);
      var closed := CloseAll(user, due, Expired);
      return Ok(closed);
    }

    method CancelPendingForSession(user: string, session: string) returns (r: Reply<set<string>>)
      modifies this`interactions, this`outbox
      ensures Done(View(), r) == CancelSession(old(View()), user, session)
    {
      if user == "" || session == "" {
        return Refused(Invalid);
      }
      var keys, pending := interactions.Keys, {};
      while keys != {}
        invariant keys <= interactions.Keys && View() == old(View())
        invariant pending == set id | id in interactions.Keys - keys && interactions[id].draft.user == user
            && interactions[id].draft.session == session && interactions[id].status == Pending
      {
        var id :| id in keys;
        if interactions[id].draft.user == user && interactions[id].draft.session == session
            && interactions[id].status == Pending {
          pending := pending + {id};
        }
        keys := keys - {id};
      }
      assert pending == SessionRows(View(), user, session);
      var closed := CloseAll(user, pending, Cancelled);
      return Ok(closed);
    }

    /** Cancels one interaction, once per key. */
    method CancelInteraction(user: string, request: string, expected: int, reason: string, scope: string, key: string)
      returns (r: Reply<Interaction>)
      modifies this
      ensures Done(View(), r) == Cancel(old(View()), user, request, expected, reason, scope, key)
    {
      if expected < 1 || (scope == "") != (key == "") {
        return Refused(Invalid);
      }
      var post := PostKey(user, scope, CancelOperation, key);
      if key != "" && post in posts {
        if posts[post].payload != CancelPayload(request, expected, reason) {
          return Refused(Conflict);
        }
        return Ok(posts[post].result);
      }
      var hit := CloseRow(user, request, expected, Cancelled);
      if !hit {
        return Refused(Conflict);
      }
      outbox := outbox + multiset{Event(request, CancelledEvent)};
      if key != "" {
        posts := posts[post := Posted(CancelPayload(request, expected, reason), interactions[request])];
      }
      CloseIsOne(old(View()), request, Cancelled);
      return Ok(interactions[request]);
    }

    /** Looks for the row an insert would duplicate, and for the one of the same request. */
    method FindClash(d: Draft) returns (clash: bool, earlier: Option<Interaction>)
      requires RowsOk(interactions)
      ensures clash <==> Clashes(interactions, d)
      ensures earlier == Earlier(interactions, d)
    {
      clash, earlier := false, None;
      var keys := interactions.Keys;
      while keys != {}
        invariant keys <= interactions.Keys
        invariant clash <==>
            exists id | id in interactions.Keys - keys ::
                SameVendor(interactions[id], d) || SameCheckpoint(interactions[id], d)
        invariant earlier.None? ==> forall id | id in interactions.Keys - keys :: !Known(interactions, d, id)
        invariant earlier.Some? ==>
            exists id | id in interactions.Keys - keys ::
                Known(interactions, d, id) && earlier.value == interactions[id]
      {
        var id :| id in keys;
        var row := interactions[id];
        if SameVendor(row, d) || SameCheckpoint(row, d) { clash := true; }
        if SameVendor(row, d) && row.draft.inputHash == d.inputHash {
          assert Known(interactions, d, id);
          earlier := Some(row);
        }
        keys := keys - {id};
      }
      if earlier.Some? {
        ghost var id :| Known(interactions, d, id) && earlier.value == interactions[id];
        EarlierIs(interactions, d, id);
      }
    }

    /** Creates an interaction, or gives back the one an earlier call created. */
    method CreateInteraction(draft: Draft, scope: string, key: string, id: string) returns (r: Reply<Interaction>)
      requires RowsOk(interactions) && id !in interactions
      modifies this
      ensures Done(View(), r) == Create(old(View()), draft, scope, key, id)
    {
      var d := draft.(allowed := draft.allowed - {""});
      if draft.highRisk {
        d := d.(allowed := d.allowed - {"approve_session"});
      }
      assert d.allowed == Normalised(draft).allowed;
      if !DraftValid(d) || (scope == "") != (key == "") {
        return Refused(Invalid);
      }
      var post := PostKey(d.user, scope, CreateOperation, key);
      if key != "" && post in posts {
        if posts[post].payload != CreatePayload(d) {
          return Refused(Conflict);
        }
        return Ok(posts[post].result);
      }
      var row := Interaction(id, d, Pending, 1);
      var clash, earlier := FindClash(d);
      if clash {
        if earlier.None? {
          return Refused(Conflict);
        }
        row := earlier.value;
      } else {
        interactions := interactions[id := row];
        outbox := outbox + multiset{Event(id, CreatedEvent)};
      }
      if key != "" {
        posts := posts[post := Posted(CreatePayload(d), row)];
      }
      return Ok(row);
    }

    /** The writes of an accepted answer. */
    method Record(user: string, request: string, a: Answer, rid: string, did: string,
                  now: int) returns (response: Response)
      requires request in interactions && interactions[request].draft.user == user
          && interactions[request].status == Pending
      requires interactions[request].rowVersion == a.expected
      modifies this
      ensures View() == Recorded(old(View()), user, request, a, rid, did, now)
          && response == Response(rid, user, request, a, now)
    {
      CloseIsOne(View(), request, Resolved);
      response := Response(rid, user, request, a, now);
      responses := responses[rid := response];
      decisions := decisions[did := Decision(request, rid)];
      var hit := CloseRow(user, request, a.expected, Resolved);
      answers := answers[AnswerKey(user, a.actor + ":" + a.device, a.key) := Answered(PayloadOf(request, a), rid)];
      projections := projections + {rid};
      outbox := outbox + multiset{Event(request, ResolvedEvent)}
          + multiset{Event(request, DecisionReady), Event(request, ProjectionRequested)};
    }

    /** Records the one final answer of an interaction, once per key. */
    method RespondTo(user: string, request: string, a: Answer, rid: string, did: string, now: int)
      returns (r: Reply<(Response, bool)>)
      requires rid !in responses && did !in decisions
      modifies this
      ensures Done(View(), r) == Respond(old(View()), user, request, a, rid, did, now)
    {
      if a.actor == "" || a.key == "" || a.expected < 1 {
        return Refused(Invalid);
      }
      var key := AnswerKey(user, a.actor + ":" + a.device, a.key);
      if key in answers {
        if answers[key].payload != PayloadOf(request, a) {
          return Refused(Conflict);
        }
        var stored := answers[key].response;
        if stored !in responses || responses[stored].user != user {
          return Refused(NotFound);
        }
        return Ok((responses[stored], true));
      }
      if request !in interactions || interactions[request].draft.user != user {
        return Refused(NotFound);
      }
      var row := interactions[request];
      if Due(row, now) {
        var hit := CloseAll(user, {request}, Expired);
        return Refused(Conflict);
      }
      if row.status != Pending || row.rowVersion != a.expected || a.inputHash != row.draft.inputHash {
        return Refused(Conflict);
      }
      if !AnswerValid(row.draft, a) {
        return Refused(Invalid);
      }
      if exists x | x in responses :: responses[x].request == request {
        return Refused(Conflict);
      }
      var response := Record(user, request, a, rid, did, now);
      return Ok((response, false));
    }
  }
}
