/**
  The relational store both handlers share: a `users` table and a `contacts`
  table, each a sequence of rows in insertion order, with the SERIAL counters
  that assign their ids. The SQL statements the handlers issue are modelled
  here: lookups that return the first matching row (`fetchone`), and the
  INSERT and UPDATE statements as methods of the store.
 */
module Store {
  import opened Events

  datatype Status = Pending | Accepted | Rejected

  /** A row of `users`. */
  datatype User = User(
    id: nat,
    email: string,
    name: string,
    passwordHash: Option<string>,
    googleId: Option<string>,
    avatarUrl: Option<string>)

  /** A row of `contacts`: a directed edge from `requester` (user_id) to
      `recipient` (contact_user_id). */
  datatype Edge = Edge(id: nat, requester: nat, recipient: nat, status: Status, createdAt: int)

  /** The public projection `{id, email, name, avatar_url}` of a user. */
  datatype UserView = UserView(id: nat, email: string, name: string, avatarUrl: Option<string>)

  function View(u: User): (v: UserView)
    ensures v.id == u.id && v.email == u.email && v.name == u.name && v.avatarUrl == u.avatarUrl
  {
    UserView(u.id, u.email, u.name, u.avatarUrl)
  }

  /** The WHERE clauses of the single-row lookups on `users`. */
  datatype Key =
    | ByEmail(email: string)                       // WHERE email = %s
    | ByCredentials(email: string, hash: string)   // WHERE email = %s AND password_hash = %s
    | ByGoogleId(googleId: string)                 // WHERE google_id = %s

  predicate Matches(u: User, k: Key) {
    match k
    case ByEmail(e) => u.email == e
    case ByCredentials(e, h) => u.email == e && u.passwordHash == Some(h)
    case ByGoogleId(g) => u.googleId == Some(g)
  }

  /** `cur.fetchone()` after a lookup: the first matching row in table order. */
  function Lookup(users: seq<User>, k: Key): (r: Option<User>)
    ensures r.Some? ==> r.value in users && Matches(r.value, k)
    ensures r.None? <==> forall u :: u in users ==> !Matches(u, k)
  {
    if users == [] then None
    else if Matches(users[0], k) then Some(users[0])
    else Lookup(users[1..], k)
  }

  /** A lookup that found a row keeps finding that row after an insert. */
  lemma {:induction false} LookupAfterAppendKeeps(users: seq<User>, u: User, k: Key)
    requires Lookup(users, k).Some?
    ensures Lookup(users + [u], k) == Lookup(users, k)
  {
    if !Matches(users[0], k) {
      assert (users + [u])[1..] == users[1..] + [u];
      LookupAfterAppendKeeps(users[1..], u, k);
    }
  }

  /** A lookup that found nothing finds the appended row when it matches, and
      still nothing otherwise. */
  lemma {:induction false} LookupAfterAppendNew(users: seq<User>, u: User, k: Key)
    requires Lookup(users, k).None?
    ensures Lookup(users + [u], k) == if Matches(u, k) then Some(u) else None
  {
    if users == [] {
      assert users + [u] == [u];
    } else {
      assert (users + [u])[1..] == users[1..] + [u];
      LookupAfterAppendNew(users[1..], u, k);
    }
  }

  /** `SELECT id FROM contacts WHERE user_id = %s AND contact_user_id = %s`
      finds a row, whatever its status. */
  predicate HasEdge(contacts: seq<Edge>, requester: nat, recipient: nat) {
    exists i :: 0 <= i < |contacts| && contacts[i].requester == requester && contacts[i].recipient == recipient
  }

  /** At most one edge per ordered pair (requester, recipient): the check
      before every insert of `send_request` keeps the table this way. */
  predicate UniquePairs(contacts: seq<Edge>) {
    forall i, j :: 0 <= i < j < |contacts| ==>
      !(contacts[i].requester == contacts[j].requester && contacts[i].recipient == contacts[j].recipient)
  }

  /** Appending an edge whose pair has no edge yet keeps the pairs unique;
      appending one whose pair has an edge breaks it. */
  lemma UniquePairsAfterInsert(contacts: seq<Edge>, e: Edge)
    requires UniquePairs(contacts)
    ensures UniquePairs(contacts + [e]) <==> !HasEdge(contacts, e.requester, e.recipient)
  {
    var cs := contacts + [e];
    if HasEdge(contacts, e.requester, e.recipient) {
      var i :| 0 <= i < |contacts| && contacts[i].requester == e.requester && contacts[i].recipient == e.recipient;
      assert cs[i] == contacts[i] && cs[|contacts|] == e;
    } else {
      forall i, j | 0 <= i < j < |cs|
        ensures !(cs[i].requester == cs[j].requester && cs[i].recipient == cs[j].recipient)
      {
        if j < |contacts| {
          assert cs[i] == contacts[i] && cs[j] == contacts[j];
        } else {
          assert cs[i] == contacts[i];
        }
      }
    }
  }

  /** `UPDATE contacts SET status = %s WHERE id = %s` on a table. */
  function WithStatus(contacts: seq<Edge>, id: int, s: Status): (r: seq<Edge>)
    ensures |r| == |contacts|
    ensures forall i :: 0 <= i < |r| ==> r[i] == if contacts[i].id == id then contacts[i].(status := s) else contacts[i]
  {
    seq(|contacts|, i requires 0 <= i < |contacts| => if contacts[i].id == id then contacts[i].(status := s) else contacts[i])
  }

  /** A status update leaves every edge's endpoints alone, so it keeps the
      pairs unique. */
  lemma UniquePairsAfterUpdate(contacts: seq<Edge>, id: int, s: Status)
    requires UniquePairs(contacts)
    ensures UniquePairs(WithStatus(contacts, id, s))
  {
    var cs := WithStatus(contacts, id, s);
    forall i, j | 0 <= i < j < |cs|
      ensures !(cs[i].requester == cs[j].requester && cs[i].recipient == cs[j].recipient)
    {
      assert cs[i].requester == contacts[i].requester && cs[i].recipient == contacts[i].recipient;
      assert cs[j].requester == contacts[j].requester && cs[j].recipient == contacts[j].recipient;
    }
  }

  /** Ids are positive, strictly increasing in insertion order and below the
      counter that will assign the next one (a SERIAL primary key). */
  ghost predicate UserIds(users: seq<User>, next: nat) {
    && 0 < next
    && (forall i :: 0 <= i < |users| ==> 0 < users[i].id < next)
    && (forall i, j :: 0 <= i < j < |users| ==> users[i].id < users[j].id)
  }

  ghost predicate EdgeIds(contacts: seq<Edge>, next: nat) {
    && 0 < next
    && (forall i :: 0 <= i < |contacts| ==> 0 < contacts[i].id < next)
    && (forall i, j :: 0 <= i < j < |contacts| ==> contacts[i].id < contacts[j].id)
  }

  /** With unique edge ids, the UPDATE by id changes exactly the row with that
      id and nothing else; the table keeps its ids. */
  lemma WithStatusTouchesOneRow(contacts: seq<Edge>, next: nat, k: nat, s: Status)
    requires EdgeIds(contacts, next)
    requires k < |contacts|
    ensures WithStatus(contacts, contacts[k].id, s)[k] == contacts[k].(status := s)
    ensures forall i :: 0 <= i < |contacts| && i != k ==> WithStatus(contacts, contacts[k].id, s)[i] == contacts[i]
    ensures EdgeIds(WithStatus(contacts, contacts[k].id, s), next)
  {
  }

  class Database {
    var users: seq<User>
    var contacts: seq<Edge>
    var nextUserId: nat
    var nextEdgeId: nat

    ghost predicate Valid()
      reads this
    {
      UserIds(users, nextUserId) && EdgeIds(contacts, nextEdgeId)
    }

    /** Empty tables; both SERIAL sequences start at 1. */
    constructor ()
      ensures Valid()
      ensures users == [] && contacts == [] && nextUserId == 1 && nextEdgeId == 1
    {
      users, contacts := [], [];
      nextUserId, nextEdgeId := 1, 1;
    }

    /** `INSERT INTO users (...) VALUES (...) RETURNING id, email, name, avatar_url`. */
    method InsertUser(email: string, name: string, passwordHash: Option<string>,
                      googleId: Option<string>, avatarUrl: Option<string>) returns (u: User)
      requires Valid()
      modifies this
      ensures Valid()
      ensures u == User(old(nextUserId), email, name, passwordHash, googleId, avatarUrl)
      ensures users == old(users) + [u] && nextUserId == old(nextUserId) + 1
      ensures contacts == old(contacts) && nextEdgeId == old(nextEdgeId)
    {
      u := User(nextUserId, email, name, passwordHash, googleId, avatarUrl);
      users := users + [u];
      nextUserId := nextUserId + 1;
    }

    /** `INSERT INTO contacts (user_id, contact_user_id, status) VALUES (%s, %s, 'pending')`,
        with `created_at` taking the database's current time `now`. */
    method InsertEdge(requester: nat, recipient: nat, now: int) returns (e: Edge)
      requires Valid()
      modifies this
      ensures Valid()
      ensures e == Edge(old(nextEdgeId), requester, recipient, Pending, now)
      ensures contacts == old(contacts) + [e] && nextEdgeId == old(nextEdgeId) + 1
      ensures users == old(users) && nextUserId == old(nextUserId)
    {
      e := Edge(nextEdgeId, requester, recipient, Pending, now);
      contacts := contacts + [e];
      nextEdgeId := nextEdgeId + 1;
    }

    /** `UPDATE contacts SET status = %s WHERE id = %s`. */
    method UpdateStatus(id: int, s: Status)
      requires Valid()
      modifies this
      ensures Valid()
      ensures contacts == WithStatus(old(contacts), id, s)
      ensures users == old(users) && nextUserId == old(nextUserId) && nextEdgeId == old(nextEdgeId)
    {
      contacts := WithStatus(contacts, id, s);
    }
  }
}
