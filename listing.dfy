/**
  The three read queries of the contacts handler (`list`, `requests`, `sent`)
  and the user search, as the database evaluates them: a filter over the
  `contacts` table, an inner join with `users`, and `ORDER BY created_at DESC`;
  for the search a filter over `users` and `LIMIT 20`.
 */
module Listing {
  import opened Store
  import opened Text

  /** The value of `?action=` on a GET. */
  datatype Query = List | Requests | Sent

  /** The WHERE clause of each query. */
  predicate Selects(q: Query, caller: nat, e: Edge) {
    match q
    case List => e.requester == caller && e.status == Accepted
    case Requests => e.recipient == caller && e.status == Pending
    case Sent => e.requester == caller && e.status == Pending
  }

  /** The column the query joins `users` on: the other end of the edge. */
  function Counterpart(q: Query, e: Edge): nat {
    if q.Requests? then e.requester else e.recipient
  }

  /** One result row of the join: the edge and the user at its other end. */
  datatype Joined = Joined(edge: Edge, user: User)

  /** The users rows whose id is `id`, each joined with `e`. */
  function Partners(e: Edge, users: seq<User>, id: nat): seq<Joined> {
    if users == [] then []
    else (if users[0].id == id then [Joined(e, users[0])] else []) + Partners(e, users[1..], id)
  }

  /** `FROM contacts c JOIN users u ON <counterpart> = u.id WHERE <selects>`,
      in table order. */
  function Join(contacts: seq<Edge>, users: seq<User>, q: Query, caller: nat): seq<Joined> {
    if contacts == [] then []
    else
      (if Selects(q, caller, contacts[0]) then Partners(contacts[0], users, Counterpart(q, contacts[0])) else [])
      + Join(contacts[1..], users, q, caller)
  }

  lemma {:induction false} PartnersMembers(e: Edge, users: seq<User>, id: nat, r: Joined)
    ensures r in Partners(e, users, id) <==> r.edge == e && r.user in users && r.user.id == id
  {
    if users != [] {
      PartnersMembers(e, users[1..], id, r);
      assert users == [users[0]] + users[1..];
    }
  }

  /** A row is in the join exactly when its edge is in the table and selected,
      and its user is in the table at the edge's other end. */
  lemma {:induction false} JoinMembers(contacts: seq<Edge>, users: seq<User>, q: Query, caller: nat, r: Joined)
    ensures r in Join(contacts, users, q, caller) <==>
              && r.edge in contacts && Selects(q, caller, r.edge)
              && r.user in users && r.user.id == Counterpart(q, r.edge)
  {
    if contacts != [] {
      PartnersMembers(contacts[0], users, Counterpart(q, contacts[0]), r);
      JoinMembers(contacts[1..], users, q, caller, r);
      assert contacts == [contacts[0]] + contacts[1..];
    }
  }

  /** Newest first: `created_at` never increases along the rows. */
  predicate NewestFirst(rows: seq<Joined>) {
    forall i, j :: 0 <= i < j < |rows| ==> rows[i].edge.createdAt >= rows[j].edge.createdAt
  }

  /** Puts `x` into rows already newest first, before the first older row. */
  function Insert(x: Joined, rows: seq<Joined>): seq<Joined> {
    if rows == [] || x.edge.createdAt >= rows[0].edge.createdAt then [x] + rows
    else [rows[0]] + Insert(x, rows[1..])
  }

  /** `ORDER BY c.created_at DESC`. Rows with equal timestamps keep their
      table order; SQL leaves that order open. */
  function OrderByCreatedDesc(rows: seq<Joined>): seq<Joined> {
    if rows == [] then [] else Insert(rows[0], OrderByCreatedDesc(rows[1..]))
  }

  lemma {:induction false} InsertPermutes(x: Joined, rows: seq<Joined>)
    ensures multiset(Insert(x, rows)) == multiset(rows) + multiset{x}
  {
    if rows != [] && x.edge.createdAt < rows[0].edge.createdAt {
      InsertPermutes(x, rows[1..]);
      assert rows == [rows[0]] + rows[1..];
    }
  }

  lemma {:induction false} InsertKeepsOrder(x: Joined, rows: seq<Joined>)
    requires NewestFirst(rows)
    ensures NewestFirst(Insert(x, rows))
  {
    if rows != [] && x.edge.createdAt < rows[0].edge.createdAt {
      var tail := Insert(x, rows[1..]);
      InsertKeepsOrder(x, rows[1..]);
      InsertPermutes(x, rows[1..]);
      forall k | 0 <= k < |tail| ensures rows[0].edge.createdAt >= tail[k].edge.createdAt {
        assert tail[k] in multiset(rows[1..]) + multiset{x};
        if tail[k] != x {
          assert tail[k] in rows[1..];
        }
      }
      assert Insert(x, rows) == [rows[0]] + tail;
    }
  }

  /** The ordering is a permutation of its input and puts the newest first. */
  lemma {:induction false} OrderByCreatedDescSorts(rows: seq<Joined>)
    ensures NewestFirst(OrderByCreatedDesc(rows))
    ensures multiset(OrderByCreatedDesc(rows)) == multiset(rows)
  {
    if rows != [] {
      OrderByCreatedDescSorts(rows[1..]);
      InsertKeepsOrder(rows[0], OrderByCreatedDesc(rows[1..]));
      InsertPermutes(rows[0], OrderByCreatedDesc(rows[1..]));
      assert rows == [rows[0]] + rows[1..];
    }
  }

  /** The rows `cur.fetchall()` yields for a read query. */
  function Fetched(contacts: seq<Edge>, users: seq<User>, q: Query, caller: nat): (rows: seq<Joined>)
    ensures NewestFirst(rows)
    ensures multiset(rows) == multiset(Join(contacts, users, q, caller))
  {
    OrderByCreatedDescSorts(Join(contacts, users, q, caller));
    OrderByCreatedDesc(Join(contacts, users, q, caller))
  }

  /** A fetched row is exactly an edge the query selects, joined with the
      user at its other end. */
  lemma FetchedMembers(contacts: seq<Edge>, users: seq<User>, q: Query, caller: nat, r: Joined)
    ensures r in Fetched(contacts, users, q, caller) <==>
              && r.edge in contacts && Selects(q, caller, r.edge)
              && r.user in users && r.user.id == Counterpart(q, r.edge)
  {
    JoinMembers(contacts, users, q, caller, r);
    var rows := Fetched(contacts, users, q, caller);
    assert r in rows <==> r in multiset(rows);
    assert r in Join(contacts, users, q, caller) <==> r in multiset(Join(contacts, users, q, caller));
  }

  // ---- search -------------------------------------------------------------

  /** The WHERE clause of the search. */
  predicate Found(u: User, caller: nat, query: string) {
    (ContainsFolded(u.name, query) || ContainsFolded(u.email, query)) && u.id != caller
  }

  /** All users the WHERE clause keeps, in table order. */
  function Hits(users: seq<User>, caller: nat, query: string): seq<User> {
    if users == [] then []
    else (if Found(users[0], caller, query) then [users[0]] else []) + Hits(users[1..], caller, query)
  }

  lemma {:induction false} HitsMembers(users: seq<User>, caller: nat, query: string, u: User)
    ensures u in Hits(users, caller, query) <==> u in users && Found(u, caller, query)
  {
    if users != [] {
      HitsMembers(users[1..], caller, query, u);
      assert users == [users[0]] + users[1..];
    }
  }

  /** Without the schema's minimum length an empty query would match every
      user: the search would return the first twenty users other than the
      caller. */
  lemma EmptyQueryHitsEveryone(users: seq<User>, caller: nat, u: User)
    ensures u in Hits(users, caller, "") <==> u in users && u.id != caller
  {
    HitsMembers(users, caller, "", u);
    EmptyNeedleMatchesAll(u.name);
  }

  /** The search does not depend on the case of the stored name and email. */
  lemma FoundIgnoresStoredCase(u: User, caller: nat, query: string)
    ensures Found(u, caller, query) <==> Found(u.(name := Folded(u.name), email := Folded(u.email)), caller, query)
  {
    ContainsIgnoresCase(u.name, query);
    ContainsIgnoresCase(u.email, query);
  }

  /** The cap of the search query. */
  const SearchLimit := 20

  /** `... LIMIT 20`: the first twenty hits. */
  function SearchRows(users: seq<User>, caller: nat, query: string): seq<User> {
    var hits := Hits(users, caller, query);
    if |hits| <= SearchLimit then hits else hits[..SearchLimit]
  }

  /** At most twenty rows, each one a user other than the caller whose name
      or email contains the query; when fewer than twenty come back they are
      all the matching users. */
  lemma SearchRowsSpec(users: seq<User>, caller: nat, query: string)
    ensures |SearchRows(users, caller, query)| <= SearchLimit
    ensures |Hits(users, caller, query)| >= SearchLimit ==> |SearchRows(users, caller, query)| == SearchLimit
    ensures forall u :: u in SearchRows(users, caller, query) ==> u in users && Found(u, caller, query)
    ensures |SearchRows(users, caller, query)| < SearchLimit ==>
              forall u :: u in users && Found(u, caller, query) ==> u in SearchRows(users, caller, query)
  {
    var hits := Hits(users, caller, query);
    forall u | u in SearchRows(users, caller, query) ensures u in users && Found(u, caller, query) {
      assert u in hits;
      HitsMembers(users, caller, query, u);
    }
    if |SearchRows(users, caller, query)| < SearchLimit {
      forall u | u in users && Found(u, caller, query) ensures u in SearchRows(users, caller, query) {
        HitsMembers(users, caller, query, u);
      }
    }
  }
}
