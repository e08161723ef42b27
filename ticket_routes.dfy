/**
 The ticket routes: six request handlers over two stores kept in step.

 The primary store (the document collection, source of truth) and the search
 index (a derived projection used for substring search) are both modelled as
 maps from ticket `id` to `name`. The three read handlers are functions of
 the maps. The three write handlers are methods of `TicketSynchronizer`,
 which holds both maps and issues the adapter calls one after another; each
 method is proved to produce exactly the `Outcome` that a pure function of
 the old state describes, and the properties of the write path are proved
 about those functions.

 Adapter failures (an unreachable service, a rejected call) are an input:
 `Faults` says which adapter call of one request throws. A call that throws
 changes nothing and ends the request with status 500.
 */
module TicketRoutes {
  import opened Tickets
  import Wildcard

  datatype Option<T> = None | Some(value: T) {
    function GetOr(default: T): (v: T)
      ensures Some? ==> v == value
      ensures None? ==> v == default
    {
      match this
      case Some(v) => v
      case None => default
    }
  }

  /** Defaults of the listing handlers' query parameters. */
  const DefaultPage: nat := 1
  const DefaultOffset: nat := 0
  const DefaultLimit: nat := 20

  /** Queries shorter than this are answered from the primary store. */
  const MinQueryLength: nat := 3

  /** Number of hits the search index returns for a query that names no size. */
  const DefaultSearchSize: nat := 10

  // ---------------------------------------------------------------------------
  // Read handlers
  // ---------------------------------------------------------------------------

  /** The number of tickets before page `page` when a page holds `limit`. */
  function PageSkip(page: nat, limit: nat): (skip: nat)
    requires page >= 1
  {
    (page - 1) * limit
  }

  /** `GET /paginated?page&limit`: the store sorted by `id`, skipping
      `(page - 1) * limit` tickets and keeping at most `limit` (no limit when
      `limit` is 0). A failing store read answers 500. */
  function Paginated(store: map<int, string>, page: Option<nat>, limit: Option<nat>, storeFails: bool): (r: Reply)
    requires page.GetOr(DefaultPage) >= 1
    ensures storeFails ==> r.status == ServerError && r.tickets == []
    ensures !storeFails ==> r.status == Ok
    ensures Ascending(r.tickets) && ListsOnly(r.tickets, store)
    ensures !storeFails ==>
      IsWindowOf(r.tickets, Listing(store), PageSkip(page.GetOr(DefaultPage), limit.GetOr(DefaultLimit)), limit.GetOr(DefaultLimit))
  {
    if storeFails then Reply(ServerError, [])
    else
      var l := limit.GetOr(DefaultLimit);
      Reply(Ok, Window(Listing(store), PageSkip(page.GetOr(DefaultPage), l), l))
  }

  /** `GET /?offset&limit`: the store sorted by `id`, skipping `offset`
      tickets and keeping at most `limit` (no limit when `limit` is 0). */
  function LazyList(store: map<int, string>, offset: Option<nat>, limit: Option<nat>, storeFails: bool): (r: Reply)
    ensures storeFails ==> r.status == ServerError && r.tickets == []
    ensures !storeFails ==> r.status == Ok
    ensures Ascending(r.tickets) && ListsOnly(r.tickets, store)
    ensures !storeFails ==>
      IsWindowOf(r.tickets, Listing(store), offset.GetOr(DefaultOffset), limit.GetOr(DefaultLimit))
  {
    if storeFails then Reply(ServerError, [])
    else Reply(Ok, Window(Listing(store), offset.GetOr(DefaultOffset), limit.GetOr(DefaultLimit)))
  }

  /** The length JavaScript gives a string: its UTF-16 code units, of which a
      character beyond U+FFFF takes two. */
  function Utf16Length(s: string): (n: nat)
    ensures |s| <= n <= 2 * |s|
    ensures n == |s| <==> forall i :: 0 <= i < |s| ==> s[i] as int <= 0xFFFF
  {
    if s == [] then 0
    else (if s[0] as int > 0xFFFF then 2 else 1) + Utf16Length(s[1..])
  }

  /** A missing, empty or too short query is answered from the store; the
      length is counted in UTF-16 code units. */
  predicate IsShortQuery(query: Option<string>)
  {
    query.None? || Utf16Length(query.value) < MinQueryLength
  }

  /** Two characters beyond U+FFFF make a query of four code units, which is
      searched; two ordinary characters make a short one. */
  lemma QueryLengthInCodeUnits()
    ensures !IsShortQuery(Some("\U{1F600}\U{1F600}"))
    ensures IsShortQuery(Some("ab"))
  {
    assert "\U{1F600}\U{1F600}"[1..] == "\U{1F600}";
    assert "ab"[1..] == "b";
  }

  /** The index documents whose name the query `*q*` matches; for a query
      without wildcard or escape characters, the documents whose name
      contains it. */
  function Hits(index: map<int, string>, q: string): (h: map<int, string>)
    ensures forall k :: k in h ==> k in index && h[k] == index[k]
    ensures Wildcard.IsPlain(q) ==> forall k :: k in h <==> k in index && Wildcard.IsSubstring(q, index[k])
  {
    map k | k in index && Wildcard.ContainsPattern(q, index[k]) :: index[k]
  }

  /** `GET /search?query`: a short query returns the whole store in `id`
      order; any other query returns the first page of index documents whose
      name matches `*query*`, in `id` order, as the index holds them. */
  function Search(store: map<int, string>, index: map<int, string>, query: Option<string>,
                  storeFails: bool, indexFails: bool): (r: Reply)
    ensures IsShortQuery(query) ==>
      if storeFails then r.status == ServerError && r.tickets == []
      else r.status == Ok && SortedListingOf(r.tickets, store)
    ensures !IsShortQuery(query) && indexFails ==> r.status == ServerError && r.tickets == []
    ensures !IsShortQuery(query) && !indexFails ==>
      && r.status == Ok
      && Ascending(r.tickets)
      && |r.tickets| <= DefaultSearchSize
      && (forall t :: t in r.tickets ==>
            t.id in index && index[t.id] == t.name && Wildcard.ContainsPattern(query.value, t.name))
      // a matching document is left out only when the page is full and it sorts after it
      && (forall k :: k in index && Wildcard.ContainsPattern(query.value, index[k]) && Ticket(k, index[k]) !in r.tickets ==>
            |r.tickets| == DefaultSearchSize && forall t :: t in r.tickets ==> t.id < k)
  {
    if IsShortQuery(query) then
      if storeFails then Reply(ServerError, []) else Reply(Ok, Listing(store))
    else if indexFails then Reply(ServerError, [])
    else
      var h := Hits(index, query.value);
      var r := Reply(Ok, Window(Listing(h), 0, DefaultSearchSize));
      FirstPageOfHits(h, index, query.value);
      r
  }

  lemma FirstPageOfHits(h: map<int, string>, index: map<int, string>, q: string)
    requires h == Hits(index, q)
    ensures var page := Window(Listing(h), 0, DefaultSearchSize);
      forall k :: k in h && Ticket(k, h[k]) !in page ==>
        |page| == DefaultSearchSize && forall t :: t in page ==> t.id < k
  {
  }

  /** A page number and a limit ask for the same tickets as the offset
      `(page - 1) * limit` with that limit. */
  lemma PaginatedIsLazy(store: map<int, string>, page: nat, limit: nat, storeFails: bool)
    requires page >= 1
    ensures Paginated(store, Some(page), Some(limit), storeFails)
         == LazyList(store, Some(PageSkip(page, limit)), Some(limit), storeFails)
  {
  }

  /** With a positive limit, consecutive pages never repeat a ticket: every
      ticket of page `p` precedes, in `id` order, every ticket of page `p + 1`. */
  lemma ConsecutivePagesAscend(store: map<int, string>, page: nat, limit: nat)
    requires page >= 1 && limit > 0
    ensures var a := Paginated(store, Some(page), Some(limit), false).tickets;
            var b := Paginated(store, Some(page + 1), Some(limit), false).tickets;
            forall x, y :: x in a && y in b ==> x.id < y.id
  {
    var l := Listing(store);
    var skip := PageSkip(page, limit);
    PageIsWindow(store, page, limit);
    PageIsWindow(store, page + 1, limit);
    NextPageSkip(page, limit);
    var a := Paginated(store, Some(page), Some(limit), false).tickets;
    var b := Paginated(store, Some(page + 1), Some(limit), false).tickets;
    assert a == Window(l, skip, limit);
    assert b == Window(l, skip + limit, limit);
    AdjacentWindowsAscend(l, skip, limit);
  }

  lemma PageIsWindow(store: map<int, string>, page: nat, limit: nat)
    requires page >= 1
    ensures Paginated(store, Some(page), Some(limit), false).tickets == Window(Listing(store), PageSkip(page, limit), limit)
  {
  }

  lemma NextPageSkip(page: nat, limit: nat)
    requires page >= 1
    ensures PageSkip(page + 1, limit) == PageSkip(page, limit) + limit
  {
  }

  /** A limit of 0 means no limit and a skip of 0, so every page is the
      whole store and consecutive pages repeat every ticket. */
  lemma PagesWithoutLimitRepeat(store: map<int, string>, page: nat)
    requires page >= 1
    ensures Paginated(store, Some(page), Some(0), false).tickets == Listing(store)
  {
  }

  /** Offset `o` with limit `l` sends exactly the store tickets that have at
      least `o`, and fewer than `o + l`, smaller ids in the store. */
  lemma LazyListByRank(store: map<int, string>, offset: nat, limit: nat)
    ensures forall t :: t in LazyList(store, Some(offset), Some(limit), false).tickets
                    <==> RanksInWindow(t, store, offset, limit)
  {
    WindowByRank(store, offset, limit);
  }

  /** Page `p` with limit `l` sends exactly the store tickets that have at
      least `(p - 1) * l`, and fewer than `p * l`, smaller ids in the store. */
  lemma PaginatedByRank(store: map<int, string>, page: nat, limit: nat)
    requires page >= 1
    ensures forall t :: t in Paginated(store, Some(page), Some(limit), false).tickets
                    <==> RanksInWindow(t, store, PageSkip(page, limit), limit)
  {
    PageIsWindow(store, page, limit);
    WindowByRank(store, PageSkip(page, limit), limit);
  }

  /** Paging with a positive limit reaches every store ticket, on exactly one
      page: the one whose number is its rank divided by the limit, plus one. */
  lemma EveryTicketOnOnePage(store: map<int, string>, limit: nat, t: Ticket, page: nat)
    requires limit > 0 && page >= 1
    requires t.id in store && store[t.id] == t.name
    ensures t in Paginated(store, Some(page), Some(limit), false).tickets
        <==> page == Rank(store, t.id) / limit + 1
  {
    PaginatedByRank(store, page, limit);
    PageOfRank(Rank(store, t.id), limit, page);
  }

  lemma PageOfRank(r: nat, limit: nat, page: nat)
    requires limit > 0 && page >= 1
    ensures PageSkip(page, limit) <= r < PageSkip(page, limit) + limit <==> page == r / limit + 1
  {
    var q := r / limit;
    assert q * limit <= r < q * limit + limit;
    if page - 1 < q {
      assert (page - 1) * limit + limit == page * limit;
      assert page * limit <= q * limit;
    } else if page - 1 > q {
      assert (q + 1) * limit <= (page - 1) * limit;
    }
  }

  // ---------------------------------------------------------------------------
  // Write path: the adapter calls, the request inputs and the outcomes
  // ---------------------------------------------------------------------------

  /** One call to an adapter, as issued (whether or not it then threw). */
  datatype Call =
    | StoreInsert(id: int, name: string)    // save a new record
    | StoreUpdate(id: int, name: string)    // find one by id and set its name
    | StoreDelete(id: int)                  // find one by id and delete it
    | IndexPut(id: int, name: string)       // index the full document {id, name}
    | IndexExists(id: int)                  // does the index hold document id?
    | IndexPatch(id: int, name: string)     // partial update of the document's name
    | IndexDelete(id: int)                  // delete document id
  {
    predicate IsIndexCall()
    {
      IndexPut? || IndexExists? || IndexPatch? || IndexDelete?
    }
  }

  /** No call in `calls` goes to the search index. */
  predicate NoIndexCall(calls: seq<Call>)
  {
    forall c :: c in calls ==> !c.IsIndexCall()
  }

  /** Which adapter call of one request throws. */
  datatype Faults = Faults(storeFails: bool, existsFails: bool, indexWriteFails: bool)

  const NoFaults := Faults(false, false, false)

  /** The contents of both stores. */
  datatype Stores = Stores(store: map<int, string>, index: map<int, string>)

  /** What one write request answers, the stores it leaves, and the adapter
      calls it issued, in order. */
  datatype Outcome = Outcome(status: Status, after: Stores, calls: seq<Call>)

  /** The index holds exactly what the store holds. */
  predicate InSync(s: Stores)
  {
    s.store == s.index
  }

  /** `m1` and `m2` agree on every key other than `k`. */
  predicate SameExcept(m1: map<int, string>, m2: map<int, string>, k: int)
  {
    m1 - {k} == m2 - {k}
  }

  /** A request's `id` is rejected when it is missing or 0. */
  predicate IsTruthyId(id: Option<int>)
  {
    id.Some? && id.value != 0
  }

  /** A request's `name` is rejected when it is missing or empty. */
  predicate IsTruthyName(name: Option<string>)
  {
    name.Some? && name.value != ""
  }

  /** `POST /create {id, name}`. */
  function CreateOutcome(s: Stores, id: Option<int>, name: Option<string>, f: Faults): (o: Outcome)
    ensures o.status == BadRequest <==> !IsTruthyId(id) || !IsTruthyName(name)
    ensures o.status == BadRequest ==> o.after == s && o.calls == []
    ensures o.status in {BadRequest, Created, ServerError}
    // the store is written first, and the index only after the store accepted the record
    ensures IsTruthyId(id) && IsTruthyName(name) ==> |o.calls| > 0 && o.calls[0] == StoreInsert(id.value, name.value)
    ensures !NoIndexCall(o.calls) ==> IsTruthyId(id) && IsTruthyName(name) && !f.storeFails && id.value !in s.store
    ensures (f.storeFails || (id.Some? && id.value in s.store)) ==> o.after == s && NoIndexCall(o.calls)
    // a record the store accepted stays, even when indexing it fails
    ensures IsTruthyId(id) && IsTruthyName(name) && !f.storeFails && id.value !in s.store ==>
      o.after.store == s.store[id.value := name.value]
    ensures o.status == Created <==>
      IsTruthyId(id) && IsTruthyName(name) && !f.storeFails && id.value !in s.store && !f.indexWriteFails
    ensures o.status == Created ==> o.after.index == s.index[id.value := name.value]
    ensures o.status != Created ==> o.after.index == s.index
    ensures IsTruthyId(id) ==> SameExcept(o.after.store, s.store, id.value) && SameExcept(o.after.index, s.index, id.value)
    ensures InSync(s) && o.status != ServerError ==> InSync(o.after)
  {
    if !IsTruthyId(id) || !IsTruthyName(name) then Outcome(BadRequest, s, [])
    else
      var k, n := id.value, name.value;
      if f.storeFails || k in s.store then Outcome(ServerError, s, [StoreInsert(k, n)])
      else
        var saved := s.(store := s.store[k := n]);
        var calls := [StoreInsert(k, n), IndexPut(k, n)];
        if f.indexWriteFails then Outcome(ServerError, saved, calls)
        else Outcome(Created, saved.(index := s.index[k := n]), calls)
  }

  /** The edit request has passed the store update and the existence check,
      so it goes on to write the index. */
  predicate EditReachesIndexWrite(s: Stores, id: int, name: Option<string>, f: Faults)
  {
    IsTruthyName(name) && !f.storeFails && id in s.store && !f.existsFails
  }

  /** `PUT /edit/:id {name}`. */
  function EditOutcome(s: Stores, id: int, name: Option<string>, f: Faults): (o: Outcome)
    ensures o.status == BadRequest <==> !IsTruthyName(name)
    ensures o.status == NotFound <==> IsTruthyName(name) && !f.storeFails && id !in s.store
    ensures o.status in {BadRequest, NotFound} ==> o.after == s && NoIndexCall(o.calls)
    ensures f.storeFails ==> o.after == s && NoIndexCall(o.calls)
    ensures o.status == Ok <==> IsTruthyName(name) && id in s.store && f == NoFaults
    // the store is updated whenever its update succeeds, whatever the index then does
    ensures IsTruthyName(name) && !f.storeFails && id in s.store ==> o.after.store == s.store[id := name.value]
    // reconciliation: a full document when the index lacks it, a patch of the name when it has it
    ensures (exists c :: c in o.calls && c.IndexPut?) <==> EditReachesIndexWrite(s, id, name, f) && id !in s.index
    ensures (exists c :: c in o.calls && c.IndexPatch?) <==> EditReachesIndexWrite(s, id, name, f) && id in s.index
    ensures o.status == Ok ==>
      && o.after.store == s.store[id := name.value]
      && o.after.index == s.index[id := name.value]
      && o.after.index[id] == o.after.store[id] == name.value
    ensures o.status != Ok ==> o.after.index == s.index
    ensures SameExcept(o.after.store, s.store, id) && SameExcept(o.after.index, s.index, id)
    ensures InSync(s) && o.status != ServerError ==> InSync(o.after)
  {
    if !IsTruthyName(name) then Outcome(BadRequest, s, [])
    else
      var n := name.value;
      if f.storeFails then Outcome(ServerError, s, [StoreUpdate(id, n)])
      else if id !in s.store then Outcome(NotFound, s, [StoreUpdate(id, n)])
      else
        var updated := s.(store := s.store[id := n]);
        if f.existsFails then Outcome(ServerError, updated, [StoreUpdate(id, n), IndexExists(id)])
        else
          var write := if id in s.index then IndexPatch(id, n) else IndexPut(id, n);
          var calls := [StoreUpdate(id, n), IndexExists(id), write];
          assert forall c :: c in calls ==> c == StoreUpdate(id, n) || c == IndexExists(id) || c == write;
          assert calls[2] == write;
          if f.indexWriteFails then Outcome(ServerError, updated, calls)
          else Outcome(Ok, updated.(index := s.index[id := n]), calls)
  }

  /** How many times `calls` deletes index document `id`. */
  function IndexDeletesOf(calls: seq<Call>, id: int): (n: nat)
  {
    multiset(calls)[IndexDelete(id)]
  }

  /** `DELETE /delete/:id`. */
  function DeleteOutcome(s: Stores, id: int, f: Faults): (o: Outcome)
    ensures o.status == NotFound <==> !f.storeFails && id !in s.store
    ensures o.status == NotFound || f.storeFails ==> o.after == s && NoIndexCall(o.calls)
    ensures o.status in {Ok, NotFound, ServerError}
    // the store record goes whenever the store delete succeeds
    ensures !f.storeFails && id in s.store ==> o.after.store == s.store - {id}
    // the index delete is issued once when the document exists, and never otherwise
    ensures forall c :: c in o.calls && c.IndexDelete? ==> c == IndexDelete(id)
    ensures IndexDeletesOf(o.calls, id) == if !f.storeFails && id in s.store && !f.existsFails && id in s.index then 1 else 0
    ensures o.status == Ok <==> !f.storeFails && id in s.store && !f.existsFails && (id in s.index ==> !f.indexWriteFails)
    ensures o.status == Ok ==> id !in o.after.store && id !in o.after.index
    ensures o.status == Ok ==> o.after == Stores(s.store - {id}, s.index - {id})
    ensures o.status != Ok ==> o.after.index == s.index
    ensures SameExcept(o.after.store, s.store, id) && SameExcept(o.after.index, s.index, id)
    ensures InSync(s) && o.status != ServerError ==> InSync(o.after)
  {
    if f.storeFails then Outcome(ServerError, s, [StoreDelete(id)])
    else if id !in s.store then Outcome(NotFound, s, [StoreDelete(id)])
    else
      var removed := s.(store := s.store - {id});
      var checked := [StoreDelete(id), IndexExists(id)];
      if f.existsFails then Outcome(ServerError, removed, checked)
      else if id !in s.index then Outcome(Ok, removed, checked)
      else
        var calls := checked + [IndexDelete(id)];
        if f.indexWriteFails then Outcome(ServerError, removed, calls)
        else Outcome(Ok, removed.(index := s.index - {id}), calls)
  }

  // ---------------------------------------------------------------------------
  // Write path: the synchronizer
  // ---------------------------------------------------------------------------

  /** The answer of an adapter call that returns a value or throws. */
  datatype Answer<T> = Returned(value: T) | Threw

  class TicketSynchronizer {
    var store: map<int, string>
    var index: map<int, string>
    /** Every adapter call issued so far, in order. */
    ghost var calls: seq<Call>

    function State(): (s: Stores)
      reads this
      ensures s.store == store && s.index == index
    {
      Stores(store, index)
    }

    constructor (store0: map<int, string>, index0: map<int, string>)
      ensures store == store0 && index == index0 && calls == []
    {
      store, index := store0, index0;
      calls := [];
    }

    // -- primary store adapter ------------------------------------------------

    /** Saves a new record; the store refuses an `id` it already holds. */
    method Save(id: int, name: string, fails: bool) returns (ok: bool)
      modifies this
      ensures ok == (!fails && id !in old(store))
      ensures store == if ok then old(store)[id := name] else old(store)
      ensures index == old(index) && calls == old(calls) + [StoreInsert(id, name)]
    {
      calls := calls + [StoreInsert(id, name)];
      ok := !fails && id !in store;
      if ok {
        store := store[id := name];
      }
    }

    /** Sets the name of record `id`; answers whether there was one. */
    method FindOneAndUpdate(id: int, name: string, fails: bool) returns (found: Answer<bool>)
      modifies this
      ensures found == if fails then Threw else Returned(id in old(store))
      ensures store == if found == Returned(true) then old(store)[id := name] else old(store)
      ensures index == old(index) && calls == old(calls) + [StoreUpdate(id, name)]
    {
      calls := calls + [StoreUpdate(id, name)];
      if fails {
        found := Threw;
      } else if id in store {
        store := store[id := name];
        found := Returned(true);
      } else {
        found := Returned(false);
      }
    }

    /** Deletes record `id`; answers whether there was one. */
    method FindOneAndDelete(id: int, fails: bool) returns (found: Answer<bool>)
      modifies this
      ensures found == if fails then Threw else Returned(id in old(store))
      ensures store == if found == Returned(true) then old(store) - {id} else old(store)
      ensures index == old(index) && calls == old(calls) + [StoreDelete(id)]
    {
      calls := calls + [StoreDelete(id)];
      if fails {
        found := Threw;
      } else if id in store {
        store := store - {id};
        found := Returned(true);
      } else {
        found := Returned(false);
      }
    }

    // -- search index adapter -------------------------------------------------

    /** Indexes the full document `{id, name}`, replacing any document `id`. */
    method IndexDocument(id: int, name: string, fails: bool) returns (ok: bool)
      modifies this
      ensures ok == !fails
      ensures index == if ok then old(index)[id := name] else old(index)
      ensures store == old(store) && calls == old(calls) + [IndexPut(id, name)]
    {
      calls := calls + [IndexPut(id, name)];
      ok := !fails;
      if ok {
        index := index[id := name];
      }
    }

    method Exists(id: int, fails: bool) returns (present: Answer<bool>)
      modifies this
      ensures present == if fails then Threw else Returned(id in index)
      ensures store == old(store) && index == old(index) && calls == old(calls) + [IndexExists(id)]
    {
      calls := calls + [IndexExists(id)];
      present := if fails then Threw else Returned(id in index);
    }

    /** Patches the name of document `id`; the index refuses a missing document. */
    method UpdateDocument(id: int, name: string, fails: bool) returns (ok: bool)
      modifies this
      ensures ok == (!fails && id in old(index))
      ensures index == if ok then old(index)[id := name] else old(index)
      ensures store == old(store) && calls == old(calls) + [IndexPatch(id, name)]
    {
      calls := calls + [IndexPatch(id, name)];
      ok := !fails && id in index;
      if ok {
        index := index[id := name];
      }
    }

    /** Deletes document `id`; the index refuses a missing document. */
    method DeleteDocument(id: int, fails: bool) returns (ok: bool)
      modifies this
      ensures ok == (!fails && id in old(index))
      ensures index == if ok then old(index) - {id} else old(index)
      ensures store == old(store) && calls == old(calls) + [IndexDelete(id)]
    {
      calls := calls + [IndexDelete(id)];
      ok := !fails && id in index;
      if ok {
        index := index - {id};
      }
    }

    // -- handlers -------------------------------------------------------------

    method Create(id: Option<int>, name: Option<string>, f: Faults) returns (status: Status)
      modifies this
      ensures var o := CreateOutcome(old(State()), id, name, f);
        status == o.status && State() == o.after && calls == old(calls) + o.calls
    {
      if id.None? || id.value == 0 || name.None? || name.value == "" {
        return BadRequest;
      }
      var saved := Save(id.value, name.value, f.storeFails);
      if !saved {
        return ServerError;
      }
      var indexed := IndexDocument(id.value, name.value, f.indexWriteFails);
      if !indexed {
        return ServerError;
      }
      return Created;
    }

    method Edit(id: int, name: Option<string>, f: Faults) returns (status: Status)
      modifies this
      ensures var o := EditOutcome(old(State()), id, name, f);
        status == o.status && State() == o.after && calls == old(calls) + o.calls
    {
      if name.None? || name.value == "" {
        return BadRequest;
      }
      var found := FindOneAndUpdate(id, name.value, f.storeFails);
      if found.Threw? {
        return ServerError;
      }
      if !found.value {
        return NotFound;
      }
      var present := Exists(id, f.existsFails);
      if present.Threw? {
        return ServerError;
      }
      var ok;
      if !present.value {
        // re-index the whole document the index is missing
        ok := IndexDocument(id, name.value, f.indexWriteFails);
      } else {
        ok := UpdateDocument(id, name.value, f.indexWriteFails);
      }
      if !ok {
        return ServerError;
      }
      return Ok;
    }

    method Delete(id: int, f: Faults) returns (status: Status)
      modifies this
      ensures var o := DeleteOutcome(old(State()), id, f);
        status == o.status && State() == o.after && calls == old(calls) + o.calls
    {
      var found := FindOneAndDelete(id, f.storeFails);
      if found.Threw? {
        return ServerError;
      }
      if !found.value {
        return NotFound;
      }
      var present := Exists(id, f.existsFails);
      if present.Threw? {
        return ServerError;
      }
      if present.value {
        var ok := DeleteDocument(id, f.indexWriteFails);
        if !ok {
          return ServerError;
        }
      }
      return Ok;
    }
  }

  // ---------------------------------------------------------------------------
  // Properties across requests
  // ---------------------------------------------------------------------------

  /** After a successful edit, a search for any plain query of at least three
      characters that occurs in the new name finds the edited ticket under
      that name (unless the page is already full of tickets with smaller ids). */
  lemma SearchFindsEditedName(s: Stores, id: int, name: string, q: string)
    requires EditOutcome(s, id, Some(name), NoFaults).status == Ok
    requires Wildcard.IsPlain(q) && |q| >= MinQueryLength && Wildcard.IsSubstring(q, name)
    ensures var after := EditOutcome(s, id, Some(name), NoFaults).after;
      var r := Search(after.store, after.index, Some(q), false, false);
      Ticket(id, name) in r.tickets || (|r.tickets| == DefaultSearchSize && forall t :: t in r.tickets ==> t.id < id)
  {
    var after := EditOutcome(s, id, Some(name), NoFaults).after;
    Wildcard.ContainsPatternIsSubstring(q, name);
    assert after.index[id] == name;
  }

  /** After a successful delete, no search returns the deleted ticket. */
  lemma SearchMissesDeleted(s: Stores, id: int, query: Option<string>, t: Ticket)
    requires DeleteOutcome(s, id, NoFaults).status == Ok
    requires t.id == id
    ensures var after := DeleteOutcome(s, id, NoFaults).after;
      t !in Search(after.store, after.index, query, false, false).tickets
  {
  }

  /** Where one ticket stands across the two stores. */
  datatype Phase =
    | Absent      // in neither store
    | StoreOnly   // in the store, missing from the index
    | Synced      // in both, under the same name
    | Stale       // in both, the index holding an older name
    | Orphan      // left in the index after the store dropped it

  function PhaseOf(s: Stores, id: int): (p: Phase)
    ensures p == Synced <==> id in s.store && id in s.index && s.index[id] == s.store[id]
    ensures p == Absent <==> id !in s.store && id !in s.index
    ensures p == StoreOnly <==> id in s.store && id !in s.index
    ensures p == Stale <==> id in s.store && id in s.index && s.index[id] != s.store[id]
    ensures p == Orphan <==> id !in s.store && id in s.index
  {
    if id in s.store then
      if id !in s.index then StoreOnly
      else if s.index[id] == s.store[id] then Synced
      else Stale
    else if id in s.index then Orphan
    else Absent
  }

  /** Where a ticket stands when the store holds it under `name` and the
      index is as it was in `s`. */
  function PhaseAfterStoreWrite(s: Stores, id: int, name: string): (p: Phase)
    ensures p in {StoreOnly, Synced, Stale}
    ensures p == Synced <==> id in s.index && s.index[id] == name
  {
    if id !in s.index then StoreOnly else if s.index[id] == name then Synced else Stale
  }

  /** The life cycle the handlers drive one ticket through: a successful
      create or edit leaves it synced whatever its phase was; a create or an
      edit whose index step fails leaves the new name in the store beside
      whatever the index held before (store-only, synced or stale); a
      successful delete leaves it absent, and a delete whose index step
      fails leaves an orphan exactly when the index held the document. */
  lemma PhaseTransitions(s: Stores, id: int, name: string, f: Faults)
    ensures CreateOutcome(s, Some(id), Some(name), f).status == Created ==>
      PhaseOf(CreateOutcome(s, Some(id), Some(name), f).after, id) == Synced
    ensures id != 0 && name != "" && id !in s.store && !f.storeFails && f.indexWriteFails ==>
      PhaseOf(CreateOutcome(s, Some(id), Some(name), f).after, id) == PhaseAfterStoreWrite(s, id, name)
    ensures EditOutcome(s, id, Some(name), f).status == Ok ==>
      PhaseOf(EditOutcome(s, id, Some(name), f).after, id) == Synced
    ensures name != "" && id in s.store && !f.storeFails && (f.existsFails || f.indexWriteFails) ==>
      PhaseOf(EditOutcome(s, id, Some(name), f).after, id) == PhaseAfterStoreWrite(s, id, name)
    ensures DeleteOutcome(s, id, f).status == Ok ==> PhaseOf(DeleteOutcome(s, id, f).after, id) == Absent
    ensures id in s.store && !f.storeFails && (f.existsFails || f.indexWriteFails) ==>
      PhaseOf(DeleteOutcome(s, id, f).after, id) == if id in s.index then Orphan else Absent
  {
  }

  /** A search answers from the index, so it can show a name the store no
      longer holds until the next edit reconciles the document. */
  lemma SearchCanBeStale()
    ensures var store, index := map[1 := "Concert B"], map[1 := "Concert A"];
      var r := Search(store, index, Some("Concert A"), false, false);
      Ticket(1, "Concert A") in r.tickets && Ticket(1, "Concert A") !in Listing(store)
  {
    var store, index := map[1 := "Concert B"], map[1 := "Concert A"];
    var q := "Concert A";
    assert Wildcard.OccursAt(q, q, 0);
    Wildcard.ContainsPatternIsSubstring(q, q);
    assert 1 in index && Wildcard.ContainsPattern(q, index[1]);
    var r := Search(store, index, Some(q), false, false);
    // were it left out, the page would be full of tickets with ids below 1, and the index has none
    assert |r.tickets| == 0 || r.tickets[0] in r.tickets;
  }

  /** The scenario of a ticket's life: created, renamed with a patch of the
      index, deleted with one index delete; and a ticket the index never held
      re-indexed in full by its edit. */
  lemma Lifecycle()
    ensures var s0 := Stores(map[], map[]);
      var c := CreateOutcome(s0, Some(5), Some("Concert A"), NoFaults);
      && c.status == Created && c.status.Code() == 201 && c.after == Stores(map[5 := "Concert A"], map[5 := "Concert A"])
      && var e := EditOutcome(c.after, 5, Some("Concert B"), NoFaults);
      && e.status == Ok && e.status.Code() == 200 && e.calls[2] == IndexPatch(5, "Concert B")
      && e.after == Stores(map[5 := "Concert B"], map[5 := "Concert B"])
      && var d := DeleteOutcome(e.after, 5, NoFaults);
      && d.status == Ok && IndexDeletesOf(d.calls, 5) == 1 && d.after == s0
    ensures var e := EditOutcome(Stores(map[7 := "Y"], map[]), 7, Some("X"), NoFaults);
      e.status == Ok && e.calls[2] == IndexPut(7, "X") && InSync(e.after)
  {
  }
}
