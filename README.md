# Ticket synchronizer of the Ticketmaster backend, in Dafny

The backend keeps tickets (`id`, `name`) in two places: a document collection,
which is the source of truth and holds one record per unique `id`, and a search
index, a derived projection used for substring search. Six HTTP handlers work on
them. Three only read: the paginated listing, the lazy (offset) listing and the
search. Three write: create, edit and delete. Each write changes the collection
first and the index second, and edit and delete first ask the index whether it
holds the document.

The model keeps both stores as maps from `id` to `name`:

- `tickets.dfy` (module `Tickets`): the ticket record, the status codes, the
  listing of a map in ascending `id` order (what `sort({ id: 1 })` returns),
  and the `skip`/`limit` window of a cursor.
- `wildcard.dfy` (module `Wildcard`): the index's wildcard query. `*` matches
  any run of characters, `?` matches one character, and a backslash escapes
  the next character. A lemma proves that the handler's pattern `*q*` matches
  a name exactly when `q` is a contiguous substring of it, for any `q` without
  `*`, `?` or backslash.
- `ticket_routes.dfy` (module `TicketRoutes`): the read handlers as functions
  of the maps. The write handlers are methods of the class
  `TicketSynchronizer`, which holds both maps and a ghost log of every adapter
  call it issues. Each handler method is proved to produce exactly the outcome
  (status, new maps, calls issued) of a pure function: `CreateOutcome`,
  `EditOutcome` or `DeleteOutcome`. The write-path properties are proved
  about those functions.

Failures are inputs. `Faults` says which adapter call of a request throws: the
store call, the index existence check, or the index write. A call that throws
changes nothing, and the handler's `catch` turns it into status 500 and stops
the sequence. Two library behaviours that the handlers rely on without stating
them are modelled:

- A cursor `limit` of 0 means no limit.
- A search request that names no `size` returns at most 10 hits
  (`DefaultSearchSize`).

The index refuses a partial update or a delete of a missing document. That is
why the handlers check existence first.

Two behaviours of the code differ from what a reader might expect:

- A create whose indexing fails after the record was saved answers 500, not
  "created". The saved record stays in the store.
- A duplicate `id` on create is rejected by the collection's unique index.
  The handler answers 500; there is no separate conflict status.

## Model

| member | source | states |
|---|---|---|
| `Tickets.Listing` | ticketmaster-backend/routes/ticketRoutes.js:15-16 | the store's entries, each once, in strictly ascending `id` order, and nothing else |
| `Tickets.SortedKeys` | ticketmaster-backend/routes/ticketRoutes.js:16 | the keys of a set in strictly ascending order, each key exactly once |
| `Tickets.ListingUnique` | ticketmaster-backend/routes/ticketRoutes.js:15-16 | any ascending enumeration of a store's entries equals `Listing`: sorting by the unique `id` fixes the order completely |
| `Tickets.Window` | ticketmaster-backend/routes/ticketRoutes.js:17-18 | item `i` of the result is item `skip + i` of the input; the length is `limit` or what remains after `skip` (all of it when `limit` is 0); ascending input gives ascending output |
| `Tickets.ListingRank` | ticketmaster-backend/routes/ticketRoutes.js:15-16 | the ticket at position `i` of an `id`-sorted listing has exactly `i` store keys below its `id` |
| `Tickets.WindowByRank` | ticketmaster-backend/routes/ticketRoutes.js:15-18 | a ticket is in the `skip`/`limit` window of the sorted listing exactly when it is a store entry with at least `skip`, and (for a positive limit) fewer than `skip + limit`, store keys below its `id` |
| `Tickets.AdjacentWindowsAscend` | ticketmaster-backend/routes/ticketRoutes.js:12-18 | in an ascending listing, for windows of positive size, every item of one window comes before every item of the next window of the same size |
| `Wildcard.Tokens` | ticketmaster-backend/routes/ticketRoutes.js:88-91 | a pattern gives at most one token per character; a run wildcard comes only from a `*` in the pattern and a one-character wildcard only from a `?` |
| `Wildcard.TokensOfPlain` | ticketmaster-backend/routes/ticketRoutes.js:88-91 | a query without `*`, `?` or backslash tokenises as one literal per character, whatever follows it |
| `Wildcard.Matches` | ticketmaster-backend/routes/ticketRoutes.js:88-91 | a matched value has at least one character for each `?` or literal of the pattern, and exactly that many when the pattern has no `*` |
| `Wildcard.ContainsPattern` | ticketmaster-backend/routes/ticketRoutes.js:88-91 | the handler's `*query*` pattern on one name: for a query without `*`, `?` or backslash it holds exactly when the query occurs in the name; a matched name is at least as long as the query's fixed characters |
| `Wildcard.ContainsPatternIsSubstring` | ticketmaster-backend/routes/ticketRoutes.js:88-91 | for a query without `*`, `?` or backslash, `*query*` matches a name exactly when the query is a contiguous substring of the name (both directions) |
| `TicketRoutes.Paginated` | ticketmaster-backend/routes/ticketRoutes.js:10-25 | page 1 and limit 20 by default; the result is the window of the store's `id`-ascending listing that starts after `(page - 1) * limit` tickets; it holds only store entries, in ascending order; a failing store read answers 500; the index is not read |
| `TicketRoutes.LazyList` | ticketmaster-backend/routes/ticketRoutes.js:28-42 | offset 0 and limit 20 by default; the result is the window of the store's `id`-ascending listing that starts after `offset` tickets; it holds only store entries, in ascending order; a failing read answers 500 |
| `TicketRoutes.PaginatedIsLazy` | ticketmaster-backend/routes/ticketRoutes.js:11-18 | page `p` with limit `l` returns the same reply as offset `(p - 1) * l` with limit `l` |
| `TicketRoutes.ConsecutivePagesAscend` | ticketmaster-backend/routes/ticketRoutes.js:11-18 | with a positive limit, every ticket of page `p` has a smaller `id` than every ticket of page `p + 1`, so consecutive pages never repeat a ticket |
| `TicketRoutes.PagesWithoutLimitRepeat` | ticketmaster-backend/routes/ticketRoutes.js:11-18 | with a limit of 0 every page, whatever its number, is the whole store in `id` order, so consecutive pages repeat every ticket |
| `TicketRoutes.LazyListByRank` | ticketmaster-backend/routes/ticketRoutes.js:29-35 | offset `o` with limit `l` sends exactly the store tickets that have at least `o`, and fewer than `o + l`, smaller store ids (both directions; no upper bound when `l` is 0) |
| `TicketRoutes.PaginatedByRank` | ticketmaster-backend/routes/ticketRoutes.js:11-18 | page `p` with limit `l` sends exactly the store tickets that have at least `(p - 1) * l`, and (when `l` is positive) fewer than `p * l`, smaller store ids, in both directions; a limit of 0 puts no upper bound on the rank, so page `p` then sends every ticket from rank `(p - 1) * l` on |
| `TicketRoutes.EveryTicketOnOnePage` | ticketmaster-backend/routes/ticketRoutes.js:11-18 | with a positive limit, each store ticket is on page `p` exactly when `p` is its rank divided by the limit, plus one: paging reaches every ticket, on one page only |
| `TicketRoutes.Hits` | ticketmaster-backend/routes/ticketRoutes.js:86-92 | only index documents, under their indexed names; for a query without `*`, `?` or backslash, exactly the index documents whose name contains the query as a substring |
| `TicketRoutes.Utf16Length` | ticketmaster-backend/routes/ticketRoutes.js:75 | the length JavaScript gives a string: at least its number of characters and at most twice it, and equal to it exactly when no character lies beyond U+FFFF |
| `TicketRoutes.QueryLengthInCodeUnits` | ticketmaster-backend/routes/ticketRoutes.js:75 | a query of two characters beyond U+FFFF counts 4 units and is searched, while `ab` is short |
| `TicketRoutes.Search` | ticketmaster-backend/routes/ticketRoutes.js:72-102 | a missing query, or one shorter than 3 UTF-16 code units, answers with every store ticket in ascending `id` order, or 500 if the store read fails; otherwise it answers 500 if the index search fails, else with at most 10 index documents matching `*query*`, taken from the index and not the store, ascending by `id`; a matching document is left out only when the page is full and its `id` is larger than every returned `id` |
| `TicketRoutes.FirstPageOfHits` | ticketmaster-backend/routes/ticketRoutes.js:86-96 | a matching document missing from the first page of hits means the page is full and every hit on it has a smaller `id` |
| `TicketRoutes.CreateOutcome` | ticketmaster-backend/routes/ticketRoutes.js:45-69 | 400 exactly when `id` is missing or 0 or `name` is missing or empty, with no call and no change; the store insert is the first call; the index is called only after the store accepted a new `id`; a store failure or a duplicate `id` gives 500 with no index call and no change; a record the store accepted stays even when indexing fails; 201 exactly when both writes succeed, and then both maps hold `id -> name`; no other `id` changes; a synced pair of stores stays synced unless the answer is 500 |
| `TicketRoutes.EditOutcome` | ticketmaster-backend/routes/ticketRoutes.js:105-151 | 400 exactly for a missing or empty name, and 404 exactly when the store has no such `id`; both leave the stores unchanged and make no index call; a successful store update always sets `store[id] := name`; the full document is indexed exactly when the existence check found none, and only the name is patched exactly when it found one; 200 exactly when nothing fails, and then `index[id] == store[id] == name`; no other `id` changes in either map |
| `TicketRoutes.DeleteOutcome` | ticketmaster-backend/routes/ticketRoutes.js:154-182 | 404 exactly when the store has no such `id`, with no change and no index call; a successful store delete always removes the record; the index delete is issued exactly once when the existence check found the document, and never otherwise; 200 exactly when no issued call fails, and then the `id` is in neither map; no other `id` changes |
| `TicketRoutes.TicketSynchronizer.Save` | ticketmaster-backend/routes/ticketRoutes.js:54-55 | the save succeeds exactly when it does not fail and the `id` is new, since the schema makes `id` unique (models/Ticket.js:4); only then does the store gain `id -> name` |
| `TicketRoutes.TicketSynchronizer.FindOneAndUpdate` | ticketmaster-backend/routes/ticketRoutes.js:114-118 | it answers whether the record existed, and renames it if so; it throws on failure |
| `TicketRoutes.TicketSynchronizer.FindOneAndDelete` | ticketmaster-backend/routes/ticketRoutes.js:158 | it answers whether the record existed, and removes it if so; it throws on failure |
| `TicketRoutes.TicketSynchronizer.IndexDocument` | ticketmaster-backend/routes/ticketRoutes.js:58-62 | it writes the full document, replacing any document with that `id`, unless it fails |
| `TicketRoutes.TicketSynchronizer.Exists` | ticketmaster-backend/routes/ticketRoutes.js:125-128 | it answers whether the index holds the document, and changes nothing |
| `TicketRoutes.TicketSynchronizer.UpdateDocument` | ticketmaster-backend/routes/ticketRoutes.js:139-143 | it patches the name of an existing document; a missing document makes it fail |
| `TicketRoutes.TicketSynchronizer.DeleteDocument` | ticketmaster-backend/routes/ticketRoutes.js:171-174 | it removes an existing document; a missing document makes it fail |
| `TicketRoutes.TicketSynchronizer.Create` | ticketmaster-backend/routes/ticketRoutes.js:45-69 | its status, its new maps and the calls it appends to the log are exactly those of `CreateOutcome` on the old maps |
| `TicketRoutes.TicketSynchronizer.Edit` | ticketmaster-backend/routes/ticketRoutes.js:105-151 | its status, its new maps and the calls it appends to the log are exactly those of `EditOutcome` on the old maps |
| `TicketRoutes.TicketSynchronizer.Delete` | ticketmaster-backend/routes/ticketRoutes.js:154-182 | its status, its new maps and the calls it appends to the log are exactly those of `DeleteOutcome` on the old maps |
| `TicketRoutes.PhaseOf` | ticketmaster-backend/routes/ticketRoutes.js:124-144 | a ticket is synced exactly when both maps hold it under the same name, stale exactly when both hold it under different names, absent exactly when neither holds it, store-only exactly when only the store holds it, and orphan exactly when only the index holds it |
| `TicketRoutes.PhaseTransitions` | ticketmaster-backend/routes/ticketRoutes.js:54-177 | a successful create or edit leaves the ticket synced, whatever its phase was; a create or edit whose index step fails leaves the new name in the store beside the old index entry: store-only if the index had none, synced if it already held that name, stale otherwise; a successful delete leaves it absent, and a delete whose index step fails leaves an orphan exactly when the index held the document |
| `TicketRoutes.SearchFindsEditedName` | ticketmaster-backend/routes/ticketRoutes.js:86-144 | after a successful edit, a plain query of 3 or more characters that occurs in the new name finds the ticket under that name, unless the page is full of tickets with smaller `id`s |
| `TicketRoutes.SearchMissesDeleted` | ticketmaster-backend/routes/ticketRoutes.js:72-177 | after a successful delete, no search, short or long, returns the deleted ticket |
| `TicketRoutes.SearchCanBeStale` | ticketmaster-backend/routes/ticketRoutes.js:86-96 | when the index holds an older name, the search returns the ticket under that name, which the store no longer lists |
| `TicketRoutes.Lifecycle` | ticketmaster-backend/routes/ticketRoutes.js:45-182 | create 5 "Concert A" answers 201 (`Status.Code`) and fills both maps; editing it to "Concert B" answers 200 and patches the index; deleting it issues one index delete and empties both maps; editing a ticket that the index never held re-indexes the full document and leaves both maps in sync |

## Left out

- `server.js` and `elastic/elasticClient.js` are not part of this model. They hold the HTTP server setup, CORS and body parsing, metrics, the health-check passthrough and client configuration. None of it holds logic that the handlers depend on.
- Response bodies and error logging are not modelled. Each handler yields only its status code, and a read handler also yields the tickets it sends.
- Concurrency is not modelled. Each request runs as one atomic sequence of calls, so interleaved requests on the same `id` are not covered.
- An adapter call that throws is modelled as having had no effect. A write that took effect but whose reply was lost is not modelled.
- Request values are already typed. `id` is an integer and `name` is a string. The model does not cover a JSON `id` sent as a string, values the collection cannot cast, or URL parameters that `parseInt` cannot read.
- `TicketRoutes.CreateOutcome`, `TicketRoutes.EditOutcome`, `TicketRoutes.DeleteOutcome` and the `TicketSynchronizer` handlers take `id` to be an unbounded integer. In the source it is a JavaScript number, a double: the schema declares `id` a Number, the request body is parsed as JSON, and edit and delete read the URL parameter with `parseInt`. The model matches the source only for integer ids of magnitude at most 2^53. Above that, distinct ids the model keeps apart collapse in the source. For example, with 9007199254740992 stored, a create of 9007199254740993 is a duplicate in the source (500) but new in the model (201), and an edit of 9007199254740993 reaches the stored ticket in the source but answers 404 in the model. Fractional ids are outside the model too: the source saves `5.5`, but `parseInt` turns `5.5` into 5, so edit and delete can never reach that ticket.
- `TicketRoutes.TicketSynchronizer.Delete` and `TicketRoutes.DeleteOutcome`: the source checks and deletes the index document under the raw URL parameter text, while edit uses the stored `ticket.id`. The model takes the parameter to be the canonical decimal spelling of the `id`, so both key the index by the same `id`. With a spelling such as `007`, the source deletes record 7 from the store but asks the index about document `007`, so document `7` would stay in the index. The model does not capture that case.
- `TicketRoutes.Paginated` requires `page >= 1`. A page of 0 gives a negative skip, and what the collection does with that is library behaviour that the model does not cover. The same goes for negative or non-numeric `page`, `offset` and `limit` values.
- `TicketRoutes.Paginated`, `TicketRoutes.PaginatedIsLazy`, `TicketRoutes.PaginatedByRank`, `TicketRoutes.ConsecutivePagesAscend` and `TicketRoutes.EveryTicketOnOnePage` compute the skip `(page - 1) * limit` exactly, with unbounded integers. The source computes it as a double, then reads it back with `parseInt`. Above 2^53 the product is rounded. From 1e21 up it prints in exponent form, and `parseInt` keeps only the leading digits: page 100000000000000000000 with limit 20 skips 2 tickets, not 2e21. The model, and the paging lemmas, match the source only while the skip stays below 2^53.
- The index's text analysis, case handling and collation are not modelled. A wildcard query is matched against the whole stored name, character by character.
- The index's existence check is taken to return a plain boolean.
- `TicketRoutes.Search`, `TicketRoutes.SearchFindsEditedName` and `TicketRoutes.SearchMissesDeleted` treat the index as searchable as soon as each write returns. The source's index, update and delete calls pass no refresh option. The index shows a write to search only after its next periodic refresh, while the existence check sees it at once. So a search right after a delete can still return the ticket, and one right after an edit can still show the old name. The model does not capture that window.
