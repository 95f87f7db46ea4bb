/** The send-broadcast endpoint: checks the request and the broadcast, counts
    the audience, and moves a draft broadcast to `sending` with its dispatch
    counters reset. The `send-broadcasts` task does the rest. */
module SendBroadcastEndpoint {
  import opened Common
  import opened Access
  import opened ApiResponse
  import opened Store
  import opened Request
  import opened Dispatcher

  /** `validateRequestBody`: the `broadcastId` to look up, or `None` for a
      falsy one (absent, `0`, `''`, `null`, `false`). */
  function ValidateRequestBody(broadcastId: Json): (r: Option<Json>)
    ensures r.Some? <==> Truthy(broadcastId)
    ensures r.Some? ==> r.value == broadcastId
  {
    if !Truthy(broadcastId) then None else Some(broadcastId)
  }

  /** The endpoint's own `buildContactsWhereClause`: `emailOptIn = true`, and
      the tag ids when the broadcast goes to a non-empty tag list. */
  function CountTagIds(b: Broadcast): (tagIds: Option<seq<nat>>)
    ensures tagIds.Some? <==> b.to == "tags" && b.tags.Some? && |b.tags.value| > 0
  {
    if b.to == "tags" && b.tags.Some? && |b.tags.value| > 0 then Some(TagIds(b.tags.value)) else None
  }

  /** `db.count` of the contacts that are opted in and, with a tag condition,
      share a tag with it. */
  function CountAudience(cs: seq<Contact>, tagIds: Option<seq<nat>>): (n: nat)
    ensures n <= |cs|
  {
    if cs == [] then 0
    else CountAudience(cs[1..], tagIds) + (if OptedIn(cs[0]) && TagMatch(cs[0], tagIds) then 1 else 0)
  }

  /** The broadcast with the status and the counters the send request sets. */
  function Started(b: Broadcast, contactsCount: nat): Broadcast
  {
    b.(status := Sending, meta := Meta(contactsCount, 0, 0))
  }

  /** The endpoint as a function of the store and the request. */
  function SendBroadcastSpec(s: State, req: JsonRequest): Outcome
  {
    if !req.jsonMethod then Outcome(s, ErrorResponse(BadRequest, "No JSON body provided", 400))
    else if !Authenticated(req.user) then Outcome(s, ErrorResponse(Unauthorized, "Unauthorized", 401))
    else
      var internal := Outcome(s, ErrorResponse(InternalError, "Error queueing broadcast", 500));
      if req.body.None? then internal
      else match Member(req.body.value, "broadcastId")
        case None => internal
        case Some(v) =>
          match ValidateRequestBody(v)
          case None => Outcome(s, ErrorResponse(BadRequest, "broadcastId is required", 400))
          case Some(id) =>
            match FindByJsonId(BroadcastIds(s.broadcasts), id)
            case None => Outcome(s, ErrorResponse(BroadcastNotFound, "Broadcast not found", 404))
            case Some(i) =>
              var b := s.broadcasts[i];
              if b.status != Draft then
                Outcome(s, ErrorResponse(ValidationError, "Broadcast must be in draft status to send", 400))
              else
                var count := CountAudience(s.contacts, CountTagIds(b));
                Outcome(s.(broadcasts := s.broadcasts[i := Started(b, count)]),
                        SuccessResponse(MessageData("Broadcast queued for sending"), 200))
  }

  /** The handler against the store. */
  method SendBroadcast(st: Store, req: JsonRequest) returns (response: Response)
    modifies st
    ensures Outcome(st.View(), response) == SendBroadcastSpec(old(st.View()), req)
  {
    if !req.jsonMethod {
      return ErrorResponse(BadRequest, "No JSON body provided", 400);
    }
    if !Authenticated(req.user) {
      return ErrorResponse(Unauthorized, "Unauthorized", 401);
    }
    var internal := ErrorResponse(InternalError, "Error queueing broadcast", 500);
    if req.body.None? {
      return internal;
    }
    var field := Member(req.body.value, "broadcastId");
    if field.None? {
      return internal;
    }
    var validation := ValidateRequestBody(field.value);
    if validation.None? {
      return ErrorResponse(BadRequest, "broadcastId is required", 400);
    }
    var found := FindByJsonId(BroadcastIds(st.broadcasts), validation.value);
    if found.None? {
      return ErrorResponse(BroadcastNotFound, "Broadcast not found", 404);
    }
    var i := found.value;
    var broadcast := st.broadcasts[i];
    if broadcast.status != Draft {
      return ErrorResponse(ValidationError, "Broadcast must be in draft status to send", 400);
    }
    var contactsCount := CountAudience(st.contacts, CountTagIds(broadcast));
    st.broadcasts := st.broadcasts[i := Started(broadcast, contactsCount)];
    return SuccessResponse(MessageData("Broadcast queued for sending"), 200);
  }

  // ---------------------------------------------------------------------
  // Properties.

  /** The request checks, in order: no body reader gives 400 before the user
      is looked at, then no user gives 401, then a falsy `broadcastId` gives
      400, an unknown broadcast 404 and a broadcast not in draft 400; none of
      them writes anything. */
  lemma SendBroadcastRejections(s: State, req: JsonRequest)
    ensures var o := SendBroadcastSpec(s, req);
      && (!req.jsonMethod ==> o == Outcome(s, ErrorResponse(BadRequest, "No JSON body provided", 400)))
      && (req.jsonMethod && !req.user.Present? ==> o == Outcome(s, ErrorResponse(Unauthorized, "Unauthorized", 401)))
      && (req.jsonMethod && req.user.Present? && req.body.Some? && req.body.value.Obj?
            && !Truthy(Lookup(req.body.value.fields, "broadcastId")) ==>
            o == Outcome(s, ErrorResponse(BadRequest, "broadcastId is required", 400)))
      && (o.state != s ==> o.response.status == 200)
  {
  }

  /** A broadcast id that names no broadcast gives 404, and one whose
      broadcast is not a draft gives 400 VALIDATION_ERROR, without any write. */
  lemma SendBroadcastNeedsDraft(s: State, req: JsonRequest, id: nat)
    requires req.jsonMethod && req.user.Present?
    requires req.body == Some(Obj(map["broadcastId" := Num(id)])) && id != 0
    ensures var o := SendBroadcastSpec(s, req);
      && (id !in BroadcastIds(s.broadcasts) ==> o == Outcome(s, ErrorResponse(BroadcastNotFound, "Broadcast not found", 404)))
      && (forall i :: 0 <= i < |s.broadcasts| && s.broadcasts[i].id == id && s.broadcasts[i].status != Draft ==>
            Increasing(BroadcastIds(s.broadcasts)) ==>
            o == Outcome(s, ErrorResponse(ValidationError, "Broadcast must be in draft status to send", 400)))
  {
    assert Lookup(map["broadcastId" := Num(id)], "broadcastId") == Num(id);
    forall i | 0 <= i < |s.broadcasts| && s.broadcasts[i].id == id && s.broadcasts[i].status != Draft
      && Increasing(BroadcastIds(s.broadcasts))
      ensures SendBroadcastSpec(s, req) == Outcome(s, ErrorResponse(ValidationError, "Broadcast must be in draft status to send", 400))
    {
      FindIdOfIncreasing(BroadcastIds(s.broadcasts), i);
    }
  }

  /** Every response that writes is the 200 success, and it writes exactly
      one thing: the named draft broadcast becomes `sending` with
      `contactsCount` the audience size and both progress counters at 0. */
  lemma SendBroadcastStarts(s: State, req: JsonRequest)
    requires SendBroadcastSpec(s, req).response.status == 200
    ensures var o := SendBroadcastSpec(s, req);
      exists i :: 0 <= i < |s.broadcasts| && s.broadcasts[i].status == Draft
        && o.state == s.(broadcasts := s.broadcasts[i := s.broadcasts[i].(
             status := Sending,
             meta := Meta(CountAudience(s.contacts, CountTagIds(s.broadcasts[i])), 0, 0))])
        && o.response.body.success
  {
    var i :| FindByJsonId(BroadcastIds(s.broadcasts), Member(req.body.value, "broadcastId").value) == Some(i);
    assert 0 <= i < |s.broadcasts|;
  }

  /** The counted audience is the dispatcher's: the same tag condition, and,
      as contact ids start at 1, the contacts its query at cursor 0 matches. */
  lemma {:induction false} CountIsDispatchAudience(cs: seq<Contact>, b: Broadcast)
    requires forall k :: 0 <= k < |cs| ==> cs[k].id >= 1
    ensures CountTagIds(b) == BuildContactsWhere(b).tagIds
    ensures CountAudience(cs, CountTagIds(b)) == |Select(cs, BuildContactsWhere(b).(cursor := 0))|
    decreases |cs|
  {
    if cs != [] {
      CountIsDispatchAudience(cs[1..], b);
    }
  }

  /** The request keeps the ids and the dispatch invariant, and the broadcast
      it starts has nothing queued and nothing yet to cover at cursor 0, so
      the dispatcher's coverage argument starts from it. */
  lemma SendBroadcastKeepsInvariants(s: State, req: JsonRequest)
    requires Consistent(s) && DispatchInvariant(s)
    ensures var o := SendBroadcastSpec(s, req);
      && Consistent(o.state) && DispatchInvariant(o.state)
      && forall i :: (0 <= i < |s.broadcasts| && i < |o.state.broadcasts| && s.broadcasts[i].status == Draft
           && o.state.broadcasts[i].status == Sending) ==> Covered(o.state, i)
  {
    var o := SendBroadcastSpec(s, req);
    if o.state != s {
      SendBroadcastStarts(s, req);
      var i :| 0 <= i < |s.broadcasts| && s.broadcasts[i].status == Draft
        && o.state == s.(broadcasts := s.broadcasts[i := Started(s.broadcasts[i], CountAudience(s.contacts, CountTagIds(s.broadcasts[i])))]);
      StartKeepsInvariants(s, i, CountAudience(s.contacts, CountTagIds(s.broadcasts[i])));
    }
  }

  /** Starting the draft broadcast at `i`. */
  lemma StartKeepsInvariants(s: State, i: nat, count: nat)
    requires Consistent(s) && DispatchInvariant(s)
    requires i < |s.broadcasts| && s.broadcasts[i].status == Draft
    ensures var s' := s.(broadcasts := s.broadcasts[i := Started(s.broadcasts[i], count)]);
      && Consistent(s') && DispatchInvariant(s')
      && forall j :: (0 <= j < |s.broadcasts| && s.broadcasts[j].status == Draft
           && s'.broadcasts[j].status == Sending) ==> Covered(s', j)
  {
    var s' := s.(broadcasts := s.broadcasts[i := Started(s.broadcasts[i], count)]);
    assert BroadcastIds(s'.broadcasts) == BroadcastIds(s.broadcasts);
    assert JobContactIds(s.jobs, s.broadcasts[i].id) == [];
    var w := BuildContactsWhere(s'.broadcasts[i]);
    assert Reached(s.contacts, w.tagIds, 0) == {};
  }
}
