/**
  The contacts handler: a token gate, three read queries selected by
  `?action=` on a GET, and three operations selected by the body's `action`
  on a POST (`search`, `send_request`, `handle_request`). The caller's id,
  which the handler takes from a token resolver, is a parameter here, and so
  is the database's current time.
 */
module Contacts {
  import opened Events
  import opened Store
  import opened Text
  import opened Listing

  const MsgAuthRequired := "Требуется авторизация"
  const MsgUserNotFound := "Пользователь не найден"
  const MsgAlreadySent := "Заявка уже отправлена"
  const MsgSent := "Заявка отправлена"
  const MsgRequestNotFound := "Заявка не найдена"
  const MsgHandled := "Заявка обработана"
  const MsgBadAction := "Неверное действие"

  /** An entry of `{contacts: [...]}`. */
  datatype ContactItem = ContactItem(user: UserView, addedAt: int)
  /** An entry of `{requests: [...]}`: a pending request addressed to the caller. */
  datatype RequestItem = RequestItem(requestId: nat, from: UserView, createdAt: int)
  /** An entry of `{sent_requests: [...]}`: a pending request the caller sent. */
  datatype SentItem = SentItem(requestId: nat, to: UserView, status: Status, createdAt: int)

  /** The response bodies. */
  datatype ReplyBody =
    | Preflight
    | Error(message: string)
    | ContactList(contacts: seq<ContactItem>)
    | RequestList(requests: seq<RequestItem>)
    | SentList(sent: seq<SentItem>)
    | SearchResults(results: seq<UserView>)
    | Success(message: string)

  // ---- request schemas ----------------------------------------------------

  datatype SearchRequest = SearchRequest(query: string)
  datatype ContactRequest = ContactRequest(contactEmail: string)
  datatype Decision = Accept | Reject
  datatype RequestAction = RequestAction(requestId: int, decision: Decision)

  /** `SearchRequest(**body)`: `query` is a string of at least one character. */
  function SearchSchema(fields: map<string, Json>): (r: Option<SearchRequest>)
    ensures r.Some? <==> StringField(fields, "query", 1, None)
    ensures r.Some? ==> fields["query"] == JStr(r.value.query) && r.value.query != ""
  {
    if StringField(fields, "query", 1, None) then Some(SearchRequest(fields["query"].s)) else None
  }

  /** `ContactRequest(**body)`: `contact_email` is a non-empty string. */
  function ContactSchema(fields: map<string, Json>): (r: Option<ContactRequest>)
    ensures r.Some? <==> StringField(fields, "contact_email", 1, None)
    ensures r.Some? ==> fields["contact_email"] == JStr(r.value.contactEmail)
  {
    if StringField(fields, "contact_email", 1, None) then Some(ContactRequest(fields["contact_email"].s)) else None
  }

  /** `RequestAction(**body)`: `request_id` is an integer and `action`
      matches `^(accept|reject)$`. */
  function RequestActionSchema(fields: map<string, Json>): (r: Option<RequestAction>)
    ensures r.Some? <==> && "request_id" in fields && fields["request_id"].JInt?
                         && (ActionOf(fields) == Some("accept") || ActionOf(fields) == Some("reject"))
    ensures r.Some? ==> && r.value.requestId == fields["request_id"].n
                        && (r.value.decision == Accept <==> ActionOf(fields) == Some("accept"))
  {
    match (Field(fields, "request_id"), ActionOf(fields))
    case (Some(JInt(id)), Some("accept")) => Some(RequestAction(id, Accept))
    case (Some(JInt(id)), Some("reject")) => Some(RequestAction(id, Reject))
    case _ => None
  }

  // ---- dispatch -------------------------------------------------------------

  /** `headers.get('X-User-Token') or headers.get('x-user-token')`: the first
      of the two spellings that holds a non-empty string. */
  function UserToken(headers: map<string, string>): (r: Option<string>)
    ensures r.Some? <==> || ("X-User-Token" in headers && headers["X-User-Token"] != "")
                         || ("x-user-token" in headers && headers["x-user-token"] != "")
    ensures r.Some? ==> r.value != ""
  {
    if "X-User-Token" in headers && headers["X-User-Token"] != "" then Some(headers["X-User-Token"])
    else if "x-user-token" in headers && headers["x-user-token"] != "" then Some(headers["x-user-token"])
    else None
  }

  /** What the handler does against the store once a request is routed. */
  datatype Operation =
    | Read(query: Query)
    | Search(search: SearchRequest)
    | SendRequest(contact: ContactRequest)
    | HandleRequest(action: RequestAction)

  /** A routed request: either answered without the store, or an operation. */
  datatype Step = Respond(outcome: Outcome<ReplyBody>) | Execute(op: Operation)

  /** The GET `action` parameter, `list` when absent. */
  function ReadQuery(params: map<string, string>): (r: Option<Query>)
    ensures r == Some(List) <==> "action" !in params || params["action"] == "list"
    ensures r == Some(Requests) <==> "action" in params && params["action"] == "requests"
    ensures r == Some(Sent) <==> "action" in params && params["action"] == "sent"
  {
    var action := if "action" in params then params["action"] else "list";
    if action == "list" then Some(List)
    else if action == "requests" then Some(Requests)
    else if action == "sent" then Some(Sent)
    else None
  }

  /** The branch structure of the handler, up to the first store access.
      OPTIONS is answered whatever the headers; every other method needs a
      token; a method other than GET and POST falls through to the 400
      after the `try`, so the 405 written after it is never produced. */
  function Dispatch(ev: Event): (s: Step)
    ensures ev.httpMethod == "OPTIONS" ==> s == Respond(Reply(200, Preflight))
    ensures ev.httpMethod != "OPTIONS" && UserToken(ev.headers).None? ==>
              s == Respond(Reply(401, Error(MsgAuthRequired)))
    ensures ev.httpMethod !in {"GET", "POST", "OPTIONS"} && UserToken(ev.headers).Some? ==>
              s == Respond(Reply(400, Error(MsgBadAction)))
    ensures ev.httpMethod == "GET" && UserToken(ev.headers).Some? ==>
              s == match ReadQuery(ev.params)
                   case Some(q) => Execute(Read(q))
                   case None => Respond(Reply(400, Error(MsgBadAction)))
    ensures ev.httpMethod == "POST" && UserToken(ev.headers).Some? && ev.body.Malformed? ==>
              s == Respond(Raised(BadJson))
    ensures ev.httpMethod == "POST" && UserToken(ev.headers).Some? && ev.body.Object? &&
            ActionOf(ev.body.fields) !in {Some("search"), Some("send_request"), Some("handle_request")} ==>
              s == Respond(Reply(400, Error(MsgBadAction)))
    ensures ev.httpMethod == "POST" && UserToken(ev.headers).Some? && ev.body.Object? &&
            ActionOf(ev.body.fields) == Some("search") ==>
              s == match SearchSchema(ev.body.fields)
                   case Some(r) => Execute(Search(r))
                   case None => Respond(Raised(ValidationError))
    ensures ev.httpMethod == "POST" && UserToken(ev.headers).Some? && ev.body.Object? &&
            ActionOf(ev.body.fields) == Some("send_request") ==>
              s == match ContactSchema(ev.body.fields)
                   case Some(r) => Execute(SendRequest(r))
                   case None => Respond(Raised(ValidationError))
    ensures s.Respond? && s.outcome.Reply? ==> s.outcome.status in {200, 400, 401}
    ensures s.Execute? ==> UserToken(ev.headers).Some?
  {
    if ev.httpMethod == "OPTIONS" then Respond(Reply(200, Preflight))
    else if UserToken(ev.headers).None? then Respond(Reply(401, Error(MsgAuthRequired)))
    else if ev.httpMethod == "GET" then
      match ReadQuery(ev.params)
      case Some(q) => Execute(Read(q))
      case None => Respond(Reply(400, Error(MsgBadAction)))
    else if ev.httpMethod == "POST" then
      match ev.body
      case Malformed => Respond(Raised(BadJson))
      case Object(fields) =>
        var action := ActionOf(fields);
        if action == Some("search") then
          match SearchSchema(fields)
          case Some(r) => Execute(Search(r))
          case None => Respond(Raised(ValidationError))
        else if action == Some("send_request") then
          match ContactSchema(fields)
          case Some(r) => Execute(SendRequest(r))
          case None => Respond(Raised(ValidationError))
        else if action == Some("handle_request") then
          match RequestActionSchema(fields)
          case Some(r) => Execute(HandleRequest(r))
          case None => Respond(Raised(ValidationError))
        else Respond(Reply(400, Error(MsgBadAction)))
    else Respond(Reply(400, Error(MsgBadAction)))
  }

  /** A GET without `action` is the contacts list. */
  lemma GetDefaultsToList(ev: Event)
    requires ev.httpMethod == "GET" && UserToken(ev.headers).Some? && "action" !in ev.params
    ensures Dispatch(ev) == Execute(Read(List))
  {
  }

  /** The body key `action` both routes the request and is the schema's
      accept/reject field, so a body routed to `handle_request` always fails
      validation: the accept/reject transition is never reached by a request. */
  lemma HandleRequestNeverDispatched(ev: Event)
    ensures !(Dispatch(ev).Execute? && Dispatch(ev).op.HandleRequest?)
    ensures ev.httpMethod == "POST" && UserToken(ev.headers).Some? && ev.body.Object? &&
            ActionOf(ev.body.fields) == Some("handle_request") ==>
              Dispatch(ev) == Respond(Raised(ValidationError))
  {
  }

  /** An empty search query is rejected by validation, before the store. */
  lemma EmptySearchRejected(ev: Event)
    requires ev.httpMethod == "POST" && UserToken(ev.headers).Some? && ev.body.Object?
    requires ActionOf(ev.body.fields) == Some("search") && "query" in ev.body.fields
    requires ev.body.fields["query"] == JStr("")
    ensures Dispatch(ev) == Respond(Raised(ValidationError))
  {
  }

  // ---- read queries -------------------------------------------------------

  /** `{contacts: [...]}` built from the fetched rows, one item per row, in
      row order. */
  predicate ContactItemsOf(items: seq<ContactItem>, rows: seq<Joined>) {
    |items| == |rows| &&
    forall k :: 0 <= k < |rows| ==> items[k] == ContactItem(View(rows[k].user), rows[k].edge.createdAt)
  }

  /** `{requests: [...]}` built from the fetched rows. */
  predicate RequestItemsOf(items: seq<RequestItem>, rows: seq<Joined>) {
    |items| == |rows| &&
    forall k :: 0 <= k < |rows| ==> items[k] == RequestItem(rows[k].edge.id, View(rows[k].user), rows[k].edge.createdAt)
  }

  /** `{sent_requests: [...]}` built from the fetched rows. */
  predicate SentItemsOf(items: seq<SentItem>, rows: seq<Joined>) {
    |items| == |rows| &&
    forall k :: 0 <= k < |rows| ==>
      items[k] == SentItem(rows[k].edge.id, View(rows[k].user), rows[k].edge.status, rows[k].edge.createdAt)
  }

  /** `{users: [...]}` of the search, built from the fetched users rows. */
  predicate ViewsOf(results: seq<UserView>, rows: seq<User>) {
    |results| == |rows| && forall k :: 0 <= k < |rows| ==> results[k] == View(rows[k])
  }

  /** `?action=list`: the caller's accepted outgoing edges, newest first. */
  method ListContacts(db: Database, caller: nat) returns (items: seq<ContactItem>)
    ensures ContactItemsOf(items, Fetched(db.contacts, db.users, List, caller))
    ensures forall i, j :: 0 <= i < j < |items| ==> items[i].addedAt >= items[j].addedAt
  {
    var rows := Fetched(db.contacts, db.users, List, caller);
    items := [];
    var i := 0;
    while i < |rows|
      invariant 0 <= i <= |rows|
      invariant |items| == i
      invariant forall k :: 0 <= k < i ==> items[k] == ContactItem(View(rows[k].user), rows[k].edge.createdAt)
    {
      items := items + [ContactItem(View(rows[i].user), rows[i].edge.createdAt)];
      i := i + 1;
    }
  }

  /** `?action=requests`: pending edges addressed to the caller, newest first. */
  method IncomingRequests(db: Database, caller: nat) returns (items: seq<RequestItem>)
    ensures RequestItemsOf(items, Fetched(db.contacts, db.users, Requests, caller))
    ensures forall i, j :: 0 <= i < j < |items| ==> items[i].createdAt >= items[j].createdAt
  {
    var rows := Fetched(db.contacts, db.users, Requests, caller);
    items := [];
    var i := 0;
    while i < |rows|
      invariant 0 <= i <= |rows|
      invariant |items| == i
      invariant forall k :: 0 <= k < i ==>
                  items[k] == RequestItem(rows[k].edge.id, View(rows[k].user), rows[k].edge.createdAt)
    {
      items := items + [RequestItem(rows[i].edge.id, View(rows[i].user), rows[i].edge.createdAt)];
      i := i + 1;
    }
  }

  /** `?action=sent`: pending edges the caller sent, newest first. */
  method SentRequests(db: Database, caller: nat) returns (items: seq<SentItem>)
    ensures SentItemsOf(items, Fetched(db.contacts, db.users, Sent, caller))
    ensures forall k :: 0 <= k < |items| ==> items[k].status == Pending
    ensures forall i, j :: 0 <= i < j < |items| ==> items[i].createdAt >= items[j].createdAt
  {
    var rows := Fetched(db.contacts, db.users, Sent, caller);
    items := [];
    var i := 0;
    while i < |rows|
      invariant 0 <= i <= |rows|
      invariant |items| == i
      invariant forall k :: 0 <= k < i ==>
                  items[k] == SentItem(rows[k].edge.id, View(rows[k].user), rows[k].edge.status, rows[k].edge.createdAt)
    {
      items := items + [SentItem(rows[i].edge.id, View(rows[i].user), rows[i].edge.status, rows[i].edge.createdAt)];
      i := i + 1;
    }
    forall k | 0 <= k < |items| ensures items[k].status == Pending {
      assert rows[k] in rows;
      FetchedMembers(db.contacts, db.users, Sent, caller, rows[k]);
    }
  }

  /** An item of the contacts list is exactly an accepted edge from the caller
      joined with its recipient's row. */
  lemma ListContactsExact(contacts: seq<Edge>, users: seq<User>, caller: nat, e: Edge, u: User)
    ensures Joined(e, u) in Fetched(contacts, users, List, caller) <==>
              e in contacts && u in users && e.requester == caller && e.status == Accepted && u.id == e.recipient
  {
    FetchedMembers(contacts, users, List, caller, Joined(e, u));
  }

  /** A listed request is exactly a pending edge addressed to the caller,
      joined with its sender's row. */
  lemma IncomingRequestsExact(contacts: seq<Edge>, users: seq<User>, caller: nat, e: Edge, u: User)
    ensures Joined(e, u) in Fetched(contacts, users, Requests, caller) <==>
              e in contacts && u in users && e.recipient == caller && e.status == Pending && u.id == e.requester
  {
    FetchedMembers(contacts, users, Requests, caller, Joined(e, u));
  }

  /** A listed sent request is exactly a pending edge from the caller, joined
      with its recipient's row. */
  lemma SentRequestsExact(contacts: seq<Edge>, users: seq<User>, caller: nat, e: Edge, u: User)
    ensures Joined(e, u) in Fetched(contacts, users, Sent, caller) <==>
              e in contacts && u in users && e.requester == caller && e.status == Pending && u.id == e.recipient
  {
    FetchedMembers(contacts, users, Sent, caller, Joined(e, u));
  }

  // ---- search -------------------------------------------------------------

  /** `search`: at most twenty users other than the caller whose name or
      email contains the query, ignoring case; all of them when fewer than
      twenty match. */
  method SearchUsers(db: Database, caller: nat, req: SearchRequest) returns (results: seq<UserView>)
    ensures ViewsOf(results, SearchRows(db.users, caller, req.query))
    ensures |results| <= SearchLimit
    ensures forall k :: 0 <= k < |results| ==>
              results[k].id != caller &&
              (ContainsFolded(results[k].name, req.query) || ContainsFolded(results[k].email, req.query))
    ensures |results| < SearchLimit ==>
              forall u :: u in db.users && Found(u, caller, req.query) ==> View(u) in results
  {
    var rows := SearchRows(db.users, caller, req.query);
    SearchRowsSpec(db.users, caller, req.query);
    results := [];
    var i := 0;
    while i < |rows|
      invariant 0 <= i <= |rows|
      invariant |results| == i
      invariant forall k :: 0 <= k < i ==> results[k] == View(rows[k])
    {
      results := results + [View(rows[i])];
      i := i + 1;
    }
    forall k | 0 <= k < |results|
      ensures results[k].id != caller
      ensures ContainsFolded(results[k].name, req.query) || ContainsFolded(results[k].email, req.query)
    {
      assert rows[k] in rows;
    }
    if |results| < SearchLimit {
      forall u | u in db.users && Found(u, caller, req.query) ensures View(u) in results {
        var k :| 0 <= k < |rows| && rows[k] == u;
        assert results[k] == View(u);
      }
    }
  }

  // ---- send_request -------------------------------------------------------

  /** What `send_request` from `caller` for `email` answers, and the
      `contacts` table and edge counter it leaves (`contacts'`, `next'`),
      given the tables before it: 404 when no user has the email; 400 when an
      edge from the caller to that user already exists, whatever its status;
      otherwise one new pending edge stamped `now`. A request to oneself is
      not refused. */
  predicate SendEffect(users: seq<User>, contacts: seq<Edge>, next: nat, caller: nat, email: string, now: int,
                       out: Outcome<ReplyBody>, contacts': seq<Edge>, next': nat)
  {
    match Lookup(users, ByEmail(email))
    case None =>
      out == Reply(404, Error(MsgUserNotFound)) && contacts' == contacts && next' == next
    case Some(target) =>
      if HasEdge(contacts, caller, target.id) then
        out == Reply(400, Error(MsgAlreadySent)) && contacts' == contacts && next' == next
      else
        && out == Reply(200, Success(MsgSent))
        && contacts' == contacts + [Edge(next, caller, target.id, Pending, now)]
        && next' == next + 1
  }

  /** `send_request`: the effect above, on `contacts` only; it keeps at most
      one edge per ordered pair. */
  method SendContactRequest(db: Database, caller: nat, req: ContactRequest, now: int) returns (out: Outcome<ReplyBody>)
    requires db.Valid()
    modifies db
    ensures db.Valid()
    ensures db.users == old(db.users) && db.nextUserId == old(db.nextUserId)
    ensures SendEffect(old(db.users), old(db.contacts), old(db.nextEdgeId), caller, req.contactEmail, now,
                       out, db.contacts, db.nextEdgeId)
    ensures UniquePairs(old(db.contacts)) ==> UniquePairs(db.contacts)
  {
    var contact := Lookup(db.users, ByEmail(req.contactEmail));
    if contact.None? {
      return Reply(404, Error(MsgUserNotFound));
    }
    var contactUserId := contact.value.id;
    if HasEdge(db.contacts, caller, contactUserId) {
      return Reply(400, Error(MsgAlreadySent));
    }
    ghost var before := db.contacts;
    var e := db.InsertEdge(caller, contactUserId, now);
    if UniquePairs(before) {
      UniquePairsAfterInsert(before, e);
    }
    out := Reply(200, Success(MsgSent));
  }

  /** Once an edge from `a` to `b` exists, no write of the store removes it:
      inserting edges and changing statuses keep it, so every later
      `send_request` from `a` to `b` is refused, even after a rejection. */
  lemma EdgePersists(contacts: seq<Edge>, a: nat, b: nat, e: Edge, id: int, s: Status)
    requires HasEdge(contacts, a, b)
    ensures HasEdge(contacts + [e], a, b)
    ensures HasEdge(WithStatus(contacts, id, s), a, b)
  {
    var i :| 0 <= i < |contacts| && contacts[i].requester == a && contacts[i].recipient == b;
    assert (contacts + [e])[i] == contacts[i];
    assert WithStatus(contacts, id, s)[i].requester == a;
  }

  // ---- handle_request -----------------------------------------------------

  /** `SELECT user_id FROM contacts WHERE id = %s AND contact_user_id = %s
      AND status = 'pending'` finds a row. */
  predicate Actionable(contacts: seq<Edge>, id: int, caller: nat) {
    exists i :: 0 <= i < |contacts| && contacts[i].id == id && contacts[i].recipient == caller && contacts[i].status == Pending
  }

  function NewStatus(d: Decision): (s: Status)
    ensures s != Pending
    ensures s == Accepted <==> d == Accept
  {
    if d == Accept then Accepted else Rejected
  }

  /** The accept/reject transition on a `contacts` table: only the recipient
      of a pending edge may move it, to accepted or to rejected; any other
      request is a 404 that changes nothing. */
  predicate HandleEffect(contacts: seq<Edge>, caller: nat, req: RequestAction,
                         out: Outcome<ReplyBody>, contacts': seq<Edge>)
  {
    if Actionable(contacts, req.requestId, caller) then
      out == Reply(200, Success(MsgHandled)) && contacts' == WithStatus(contacts, req.requestId, NewStatus(req.decision))
    else
      out == Reply(404, Error(MsgRequestNotFound)) && contacts' == contacts
  }

  /** `handle_request` against the store: the transition above, on
      `contacts` only; it keeps at most one edge per ordered pair. */
  method HandleContactRequest(db: Database, caller: nat, req: RequestAction) returns (out: Outcome<ReplyBody>)
    requires db.Valid()
    modifies db
    ensures db.Valid()
    ensures db.users == old(db.users) && db.nextUserId == old(db.nextUserId) && db.nextEdgeId == old(db.nextEdgeId)
    ensures HandleEffect(old(db.contacts), caller, req, out, db.contacts)
    ensures UniquePairs(old(db.contacts)) ==> UniquePairs(db.contacts)
  {
    if !Actionable(db.contacts, req.requestId, caller) {
      return Reply(404, Error(MsgRequestNotFound));
    }
    if UniquePairs(db.contacts) {
      UniquePairsAfterUpdate(db.contacts, req.requestId, NewStatus(req.decision));
    }
    db.UpdateStatus(req.requestId, NewStatus(req.decision));
    out := Reply(200, Success(MsgHandled));
  }

  /** A successful transition changes the status of exactly the edge it was
      asked about, leaves every other row alone, and the edge is then no
      longer actionable: a second request on the same id is a 404. */
  lemma HandleChangesOneEdge(contacts: seq<Edge>, next: nat, caller: nat, req: RequestAction)
    requires EdgeIds(contacts, next)
    requires Actionable(contacts, req.requestId, caller)
    ensures exists k ::
              && 0 <= k < |contacts| && contacts[k].id == req.requestId
              && WithStatus(contacts, req.requestId, NewStatus(req.decision))[k] == contacts[k].(status := NewStatus(req.decision))
              && forall i :: 0 <= i < |contacts| && i != k ==> WithStatus(contacts, req.requestId, NewStatus(req.decision))[i] == contacts[i]
    ensures !Actionable(WithStatus(contacts, req.requestId, NewStatus(req.decision)), req.requestId, caller)
  {
    var k :| 0 <= k < |contacts| && contacts[k].id == req.requestId && contacts[k].recipient == caller && contacts[k].status == Pending;
    WithStatusTouchesOneRow(contacts, next, k, NewStatus(req.decision));
  }

  /** Two identical `send_request` calls: when the first one creates the
      edge, the second is refused and adds nothing. */
  method SendTwiceScenario(db: Database, caller: nat, req: ContactRequest, now1: int, now2: int)
    returns (first: Outcome<ReplyBody>, second: Outcome<ReplyBody>)
    requires db.Valid()
    modifies db
    ensures first == Reply(200, Success(MsgSent)) ==>
              second == Reply(400, Error(MsgAlreadySent)) && |db.contacts| == |old(db.contacts)| + 1
  {
    first := SendContactRequest(db, caller, req, now1);
    ghost var target := Lookup(db.users, ByEmail(req.contactEmail));
    if first == Reply(200, Success(MsgSent)) {
      assert db.contacts[|db.contacts| - 1].requester == caller;
      assert HasEdge(db.contacts, caller, target.value.id);
    }
    second := SendContactRequest(db, caller, req, now2);
  }

  /** Two identical `handle_request` transitions: the second is always a 404. */
  method HandleTwiceScenario(db: Database, caller: nat, req: RequestAction)
    returns (first: Outcome<ReplyBody>, second: Outcome<ReplyBody>)
    requires db.Valid()
    modifies db
    ensures second == Reply(404, Error(MsgRequestNotFound))
  {
    ghost var before := db.contacts;
    first := HandleContactRequest(db, caller, req);
    if Actionable(before, req.requestId, caller) {
      HandleChangesOneEdge(before, old(db.nextEdgeId), caller, req);
    }
    second := HandleContactRequest(db, caller, req);
  }

  // ---- the handler --------------------------------------------------------

  /** One invocation of the contacts handler. Nothing is read or written
      before the token check; each routed operation answers and changes the
      store as its own contract says; the 405 is never answered; at most one
      edge per ordered pair is kept. */
  method Handle(db: Database, ev: Event, caller: nat, now: int) returns (out: Outcome<ReplyBody>)
    requires db.Valid()
    modifies db
    ensures db.Valid()
    ensures Dispatch(ev).Respond? ==> out == Dispatch(ev).outcome && unchanged(db)
    ensures Dispatch(ev).Execute? && (Dispatch(ev).op.Read? || Dispatch(ev).op.Search?) ==> unchanged(db)
    ensures Dispatch(ev) == Execute(Read(List)) ==>
              out.Reply? && out.status == 200 && out.body.ContactList? &&
              ContactItemsOf(out.body.contacts, Fetched(old(db.contacts), old(db.users), List, caller))
    ensures Dispatch(ev) == Execute(Read(Requests)) ==>
              out.Reply? && out.status == 200 && out.body.RequestList? &&
              RequestItemsOf(out.body.requests, Fetched(old(db.contacts), old(db.users), Requests, caller))
    ensures Dispatch(ev) == Execute(Read(Sent)) ==>
              out.Reply? && out.status == 200 && out.body.SentList? &&
              SentItemsOf(out.body.sent, Fetched(old(db.contacts), old(db.users), Sent, caller))
    ensures Dispatch(ev).Execute? && Dispatch(ev).op.Search? ==>
              out.Reply? && out.status == 200 && out.body.SearchResults? &&
              ViewsOf(out.body.results, SearchRows(old(db.users), caller, Dispatch(ev).op.search.query))
    ensures Dispatch(ev).Execute? && Dispatch(ev).op.SendRequest? ==>
              SendEffect(old(db.users), old(db.contacts), old(db.nextEdgeId), caller,
                         Dispatch(ev).op.contact.contactEmail, now, out, db.contacts, db.nextEdgeId)
    ensures Dispatch(ev).Execute? && Dispatch(ev).op.HandleRequest? ==>
              HandleEffect(old(db.contacts), caller, Dispatch(ev).op.action, out, db.contacts)
              && db.nextEdgeId == old(db.nextEdgeId)
    ensures db.users == old(db.users) && db.nextUserId == old(db.nextUserId)
    ensures UniquePairs(old(db.contacts)) ==> UniquePairs(db.contacts)
    ensures out.Reply? ==> out.status != 405
  {
    match Dispatch(ev)
    case Respond(o) =>
      out := o;
    case Execute(Read(q)) =>
      if q == List {
        var items := ListContacts(db, caller);
        out := Reply(200, ContactList(items));
      } else if q == Requests {
        var items := IncomingRequests(db, caller);
        out := Reply(200, RequestList(items));
      } else {
        var items := SentRequests(db, caller);
        out := Reply(200, SentList(items));
      }
    case Execute(Search(r)) =>
      var results := SearchUsers(db, caller, r);
      out := Reply(200, SearchResults(results));
    case Execute(SendRequest(r)) =>
      out := SendContactRequest(db, caller, r, now);
    case Execute(HandleRequest(r)) =>
      out := HandleContactRequest(db, caller, r);
  }
}
