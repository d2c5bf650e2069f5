# Contact manager backend: identity and contact-graph handlers

This project models the two HTTP handlers behind a small contacts application.
Both handlers work on one relational store with two tables:

- `users` holds id, email, name, an optional password hash, an optional google
  id and an optional avatar URL.
- `contacts` holds directed edges with an id, a requester (`user_id`), a
  recipient (`contact_user_id`), a status (pending, accepted or rejected) and
  `created_at`.

The **identity handler** (`backend/auth/index.py`) answers `register`,
`login` and `google` on POST. The **contacts handler**
(`backend/contacts/index.py`) requires an `X-User-Token` header. On GET it
answers the three read queries `list`, `requests` and `sent`. On POST it
answers `search`, `send_request` and `handle_request`.

The store is a class, `Store.Database`. Its tables are sequences in insertion
order, and two SERIAL counters assign the ids. The INSERT and UPDATE
statements are methods of the class. The single-row lookups on `users`
(by email, by email and password hash, by google id) are `Store.Lookup`, which
returns the first matching row. The two lookups on `contacts` only ask whether
a row exists: `Store.HasEdge` (the duplicate check of `send_request`) and
`Contacts.Actionable` (the pending-request check of `handle_request`). The row
that `fetchone` reads after `INSERT ... RETURNING` is the result of
`Store.Database.InsertUser`. The read queries are
specified as they are evaluated: filter, inner join with `users`, and
`ORDER BY created_at DESC` (`Listing.Fetched`). The search is filter plus
`LIMIT 20` (`Listing.SearchRows`). The handlers' `for row in cur.fetchall()`
loops are methods with loop invariants.

Each handler is split in two parts:

- A pure `Dispatch` function follows the branch structure up to the first
  store access. It gives either a finished outcome or the operation to run.
- A `Handle` method runs that operation against the store.

An outcome is either a reply (status code and body) or an exception that
escapes the handler (`Events.Fault`). Pydantic validation errors and
undecodable bodies are never caught in the source, so they are exceptions
here.

Some values come from outside the handlers. The model takes them as
parameters:

- The caller's id, which `get_user_from_token` supplies.
- The password hash function `hash`, any deterministic function.
- The session token `token`, returned but never stored.
- The database's current time `now`, used for `created_at`.

Behaviours of the code that the model keeps on purpose:

- `handle_request` cannot succeed through the handler. The body key `action`
  both routes the request (`handle_request`) and is the schema's field, which
  must be `accept` or `reject`. So validation always fails
  (`Contacts.HandleRequestNeverDispatched`). The transition itself is modelled
  as its own method, `Contacts.HandleContactRequest`.
- In the contacts handler, the 405 after the `try` is unreachable. Any
  method other than GET, POST and OPTIONS, sent with a token, gets the 400
  "invalid action".
- A user may send a contact request to themself.
- The duplicate check ignores status. Once any edge from A to B exists,
  every later request from A to B is refused, even after a rejection
  (`Contacts.EdgePersists`).
- The contacts list shows only edges where the caller is the requester.

Behaviours a client might expect that the code does not have; the model follows the code:

- The contacts handler accepts the token header only as `X-User-Token` or
  `x-user-token`, not in any letter case.
- Other methods on the contacts handler get 400, not 405.
- Validation failures escape as exceptions; they are not turned into 400
  responses.
- A duplicate email or a duplicate contact edge is answered with 400, not
  with a distinct conflict status.

## Model

| member | source | states |
|---|---|---|
| Store.Lookup | backend/contacts/index.py:182-183 | the row `fetchone` returns is a row of the table that matches the WHERE clause; none is returned exactly when no row matches |
| Store.LookupAfterAppendKeeps | backend/auth/index.py:142-148 | a lookup that found a row still finds the same row after another row is inserted |
| Store.LookupAfterAppendNew | backend/auth/index.py:82-87 | a lookup that found nothing finds a newly inserted row when it matches, and nothing otherwise |
| Store.WithStatusTouchesOneRow | backend/contacts/index.py:240-242 | with unique ids, `UPDATE contacts SET status WHERE id` changes the status of exactly that row, leaves every other row equal and keeps the ids valid |
| Store.UniquePairsAfterInsert | backend/contacts/index.py:195-212 | with at most one edge per ordered pair, appending an edge keeps that property exactly when the pair had no edge yet, which is what the check before the INSERT tests |
| Store.UniquePairsAfterUpdate | backend/contacts/index.py:240-242 | a status update keeps at most one edge per ordered pair |
| Store.Database.InsertUser | backend/auth/index.py:82-86 | appends exactly one user row with the next SERIAL id and returns it; `contacts` is unchanged and the id invariant holds |
| Store.Database.InsertEdge | backend/contacts/index.py:208-212 | appends exactly one pending edge with the next id and `created_at = now`; `users` is unchanged |
| Store.Database.UpdateStatus | backend/contacts/index.py:240-242 | the contacts table becomes the old table with the status of the rows with that id replaced; nothing else changes |
| Text.Fold | backend/contacts/index.py:159 | case folding lowers Latin capitals by 32, the Cyrillic capitals А..Я by 32 and Ѐ..Џ (Ё among them) by 80, and leaves every other character alone; a folded character is a Latin small letter exactly when the input was a Latin letter |
| Text.ContainsIgnoresCase | backend/contacts/index.py:159-161 | the ILIKE `%q%` test gives the same answer on a text and on its lower-case form |
| Text.EmptyNeedleMatchesAll | backend/contacts/index.py:15 | an empty query would match every text, which is what `min_length=1` on `query` rules out |
| Listing.JoinMembers | backend/contacts/index.py:69-75 | a joined row exists exactly when its edge is in `contacts` and passes the WHERE clause, and its user is in `users` at the edge's other end |
| Listing.OrderByCreatedDescSorts | backend/contacts/index.py:74 | `ORDER BY created_at DESC` returns a permutation of its input whose `created_at` never increases |
| Listing.Fetched | backend/contacts/index.py:95-101 | the rows of a read query are newest first and are, counted with multiplicity, exactly the rows of the join |
| Listing.FetchedMembers | backend/contacts/index.py:122-128 | a row is fetched exactly when its edge is selected by the query and its user is the edge's other end |
| Listing.HitsMembers | backend/contacts/index.py:156-160 | a user passes the search's WHERE clause exactly when their name or email contains the query ignoring case and they are not the caller |
| Listing.SearchRowsSpec | backend/contacts/index.py:156-161 | the search returns at most 20 rows, each a user other than the caller matching the query; it returns exactly 20 when at least 20 match, and every match when fewer than 20 come back |
| Listing.EmptyQueryHitsEveryone | backend/contacts/index.py:14-15 | an empty query would let every user other than the caller through the WHERE clause, which is what `min_length=1` on `query` rules out |
| Listing.FoundIgnoresStoredCase | backend/contacts/index.py:159 | whether a user is found does not depend on the letter case of their stored name and email |
| Contacts.SearchSchema | backend/contacts/index.py:14-15 | a search body is valid exactly when `query` is a string of at least one character |
| Contacts.ContactSchema | backend/contacts/index.py:17-18 | a send_request body is valid exactly when `contact_email` is a non-empty string |
| Contacts.RequestActionSchema | backend/contacts/index.py:20-22 | a handle_request body is valid exactly when `request_id` is an integer and `action` is `accept` or `reject`; the decision follows `action` |
| Contacts.UserToken | backend/contacts/index.py:47-48 | a token is present exactly when `X-User-Token` or `x-user-token` holds a non-empty string |
| Contacts.Dispatch | backend/contacts/index.py:34-258 | OPTIONS gives 200 whatever the headers; any other method without a token gives 401 before the store is touched; a GET runs the query `?action=` names and gives 400 for any other value; a POST with an undecodable body raises; a POST action other than search, send_request and handle_request gives 400; a search or send_request body its schema rejects raises a validation error, and a valid one runs the operation; any method other than GET and POST gives 400, never 405 |
| Contacts.GetDefaultsToList | backend/contacts/index.py:65-68 | a GET with a token and no `action` parameter runs the `list` query |
| Contacts.HandleRequestNeverDispatched | backend/contacts/index.py:223-224 | no request ever reaches the accept/reject transition; a POST routed to `handle_request` always raises a validation error |
| Contacts.EmptySearchRejected | backend/contacts/index.py:153-154 | a search with an empty query raises a validation error and does not reach the store |
| Contacts.ListContacts | backend/contacts/index.py:68-92 | the `list` loop returns one item per fetched row, with the recipient's projection and `added_at`, newest first |
| Contacts.IncomingRequests | backend/contacts/index.py:94-119 | the `requests` loop returns one item per fetched row, with the request id, the requester's projection and `created_at`, newest first |
| Contacts.SentRequests | backend/contacts/index.py:121-147 | the `sent` loop returns one item per fetched row, with the request id, the recipient's projection, the status (always pending) and `created_at`, newest first |
| Contacts.ListContactsExact | backend/contacts/index.py:69-75 | `list` rows are exactly the accepted edges whose requester is the caller, joined with the recipient's row |
| Contacts.IncomingRequestsExact | backend/contacts/index.py:95-101 | `requests` rows are exactly the pending edges whose recipient is the caller, joined with the requester's row |
| Contacts.SentRequestsExact | backend/contacts/index.py:122-128 | `sent` rows are exactly the pending edges whose requester is the caller, joined with the recipient's row |
| Contacts.SearchUsers | backend/contacts/index.py:156-177 | the search loop returns the projection of each searched row: at most 20 users, none of them the caller, each with the query in its name or email ignoring case, and all matches when fewer than 20 |
| Contacts.SendContactRequest | backend/contacts/index.py:179-221 | unknown email gives 404 with no change; an existing caller-to-target edge of any status gives 400 with no change; otherwise exactly one pending edge (caller to target, next id, `created_at = now`) is appended and 200 returned; `users` is never written; at most one edge per ordered pair is kept |
| Contacts.EdgePersists | backend/contacts/index.py:195-206 | an existing edge from A to B survives every insert and status update, so a rejected request blocks re-requesting forever |
| Contacts.NewStatus | backend/contacts/index.py:239 | `accept` gives accepted, `reject` gives rejected; neither is pending |
| Contacts.HandleContactRequest | backend/contacts/index.py:226-251 | without a pending edge with that id addressed to the caller, 404 and no change; otherwise 200 and the table is the UPDATE of that id to accepted or rejected; at most one edge per ordered pair is kept |
| Contacts.HandleChangesOneEdge | backend/contacts/index.py:226-242 | a successful transition changes only the status of the requested edge, and that edge is no longer actionable |
| Contacts.SendTwiceScenario | backend/contacts/index.py:195-214 | when a first `send_request` succeeds, the same request again gives 400, and exactly one edge was added |
| Contacts.HandleTwiceScenario | backend/contacts/index.py:226-242 | a second `handle_request` on the same id always gives 404 |
| Contacts.Handle | backend/contacts/index.py:31-269 | a routed answer is returned with the store unchanged; `list`, `requests` and `sent` reply 200 with one item per row of their query on the store as it was, newest first; `search` replies 200 with the projection of the first 20 matching users; `send_request` and `handle_request` answer and change `contacts` exactly as their methods state; `users` is never written; at most one edge per ordered pair is kept; 405 is never answered |
| Auth.RegisterSchema | backend/auth/index.py:17-20 | a register body is valid exactly when it has a well-formed email, a name of 2 to 255 characters and a password of at least 6 |
| Auth.LoginSchema | backend/auth/index.py:22-24 | a login body is valid exactly when it has a well-formed email and a string password, with no length bound |
| Auth.GoogleSchema | backend/auth/index.py:26-30 | a google body is valid exactly when it has a non-empty google id, a well-formed email, a string name and an avatar that is absent, null or a string |
| Auth.LoginAcceptsAnyPassword | backend/auth/index.py:22-24 | with a well-formed email, any password string passes login validation, the empty one included |
| Auth.Dispatch | backend/auth/index.py:42-204 | OPTIONS gives 200; a method other than POST and OPTIONS gives 405; a POST with an undecodable body raises; a POST whose action is not register, login or google gives 400; for each of the three, a body its schema rejects raises a validation error and a valid one runs the operation |
| Auth.RegisterUser | backend/auth/index.py:66-103 | a taken email gives 400 and no insert; otherwise exactly one row (email, name, hash of the password, no google id, no avatar) is inserted with the next id and its projection returned with the token; `contacts` is never written |
| Auth.LoginUser | backend/auth/index.py:105-137 | succeeds exactly when some row has the email and the hash of the password, and then returns the first such row; an unknown email and a wrong password give the same 401; the store is only read |
| Auth.GoogleLogin | backend/auth/index.py:139-186 | a known google id returns its row unchanged; an unknown one inserts exactly one row (email, name, no password, the google id, the avatar) with the next id and returns its projection |
| Auth.Handle | backend/auth/index.py:42-204 | a routed answer leaves the store unchanged; `register`, `login` and `google` answer and change `users` exactly as their methods state; `contacts` is never written |
| Auth.RegisterThenLogin | backend/auth/index.py:107-112 | after a successful register, the lookup login performs with the same email and password finds the inserted row |
| Auth.RegisterTwiceRefused | backend/auth/index.py:70-80 | after a register the same email is taken, so a second register is refused |
| Auth.GoogleRepeatFindsSameUser | backend/auth/index.py:142-148 | after a google call inserted a row for an id, the lookup by that id finds that row |
| Auth.RegisterThenLoginScenario | backend/auth/index.py:66-137 | register followed by login with the same email and password both succeed and return the same user |
| Auth.GoogleTwiceScenario | backend/auth/index.py:139-186 | two google calls with the same request return the same user and add at most one row |

## Left out

- Database plumbing is not modelled: connection setup, `DATABASE_URL`, commits, and closing the cursor and connection. The store object stands for the database.
- JSON encoding of responses, the CORS header strings, `isBase64Encoded` and the `isoformat` rendering of timestamps are left out. Replies carry the status code and a structured body.
- SHA-256 is replaced by an arbitrary deterministic function passed as `hash`. `secrets.token_urlsafe` is replaced by a `token` parameter.
- `get_user_from_token` always returns 1. The model takes the caller's id as a parameter instead, and only the presence of a token matters.
- Concurrency is left out: two requests cannot race between the duplicate check and the insert in this model.
- Auth.EmailSyntax: pydantic's `EmailStr` check is replaced by a stand-in (exactly one `@` with text on both sides). The normalisation `EmailStr` applies to the address is not modelled.
- Contacts.RequestActionSchema: pydantic's lax coercions (a numeric string or an integral float accepted as `request_id`) are not modelled; only a JSON integer is accepted. Auth.RegisterSchema, Auth.LoginSchema and Auth.GoogleSchema likewise accept only JSON strings for string fields.
- Text.Fold: folds case only for Latin and basic Cyrillic letters, not the database's full locale rules. `%` and `_` in a search query are not treated as ILIKE wildcards; the query is a plain substring.
- Listing.OrderByCreatedDescSorts: rows with equal `created_at` keep their table order. The database leaves that order open. The search has no ORDER BY; the model returns matches in table order.
- Auth.GoogleLogin: the unique constraints on `users.email` and `users.google_id` live in the schema, not the handler. A google insert whose email already exists would raise in the database; the model inserts the row.
- A missing `httpMethod` (the handler defaults to GET) and a null `headers` or `queryStringParameters` are not modelled. A null value makes the handler raise on `.get`.
- A NULL `created_at` (rendered as null in the JSON) is not modelled; every edge has a timestamp.
