/**
 The ticket record and the ordered scans over a keyed collection of tickets.

 A ticket is the pair of a caller-assigned integer `id`, unique across the
 primary store, and a `name`. Both stores are modelled as maps from `id` to
 `name`; a listing is the map's entries as tickets in ascending `id` order,
 which is what `find().sort({ id: 1 })` and an `id: 'asc'` search sort return.
 */
module Tickets {

  datatype Ticket = Ticket(id: int, name: string)

  /** The HTTP status a handler answers with. */
  datatype Status = Ok | Created | BadRequest | NotFound | ServerError {
    function Code(): (c: int)
      ensures 200 <= c < 600
      ensures c < 300 <==> Ok? || Created?
    {
      match this
      case Ok => 200
      case Created => 201
      case BadRequest => 400
      case NotFound => 404
      case ServerError => 500
    }
  }

  /** The answer of a read handler: a status and, on success, the tickets it sends. */
  datatype Reply = Reply(status: Status, tickets: seq<Ticket>)

  /** `r` lists tickets in strictly ascending `id` order (so no `id` twice). */
  predicate Ascending(r: seq<Ticket>)
  {
    forall i, j :: 0 <= i < j < |r| ==> r[i].id < r[j].id
  }

  /** Every ticket of `r` is an entry of `m`. */
  predicate ListsOnly(r: seq<Ticket>, m: map<int, string>)
  {
    forall t :: t in r ==> t.id in m && m[t.id] == t.name
  }

  /** Every entry of `m` is a ticket of `r`. */
  predicate ListsAll(r: seq<Ticket>, m: map<int, string>)
  {
    forall k :: k in m ==> Ticket(k, m[k]) in r
  }

  /** `r` is an ascending enumeration of exactly the entries of `m`. */
  predicate SortedListingOf(r: seq<Ticket>, m: map<int, string>)
  {
    Ascending(r) && ListsOnly(r, m) && ListsAll(r, m)
  }

  lemma {:induction false} MinExists(keys: set<int>)
    requires exists k :: k in keys
    ensures exists k :: k in keys && forall j :: j in keys ==> k <= j
    decreases |keys|
  {
    var x :| x in keys;
    if exists y :: y in keys && y != x {
      var rest := keys - {x};
      var y :| y in keys && y != x;
      assert y in rest;
      MinExists(rest);
      var m :| m in rest && forall j :: j in rest ==> m <= j;
      var least := if x < m then x else m;
      forall j | j in keys ensures least <= j {
        if j != x { assert j in rest; }
      }
    } else {
      forall j | j in keys ensures x <= j {
        assert j == x;
      }
    }
  }

  /** The least key of a non-empty set of keys. */
  function MinKey(keys: set<int>): (k: int)
    requires exists k :: k in keys
    ensures k in keys
    ensures forall j :: j in keys ==> k <= j
  {
    MinExists(keys);
    var k :| k in keys && forall j :: j in keys ==> k <= j;
    k
  }

  /** The keys in ascending order. */
  function SortedKeys(keys: set<int>): (r: seq<int>)
    ensures forall i, j :: 0 <= i < j < |r| ==> r[i] < r[j]
    ensures forall k :: k in r <==> k in keys
    decreases |keys|
  {
    if exists k :: k in keys then
      var k := MinKey(keys);
      [k] + SortedKeys(keys - {k})
    else
      []
  }

  /** The entries of `m` as tickets, sorted ascending by `id`. */
  function Listing(m: map<int, string>): (r: seq<Ticket>)
    ensures SortedListingOf(r, m)
  {
    var ks := SortedKeys(m.Keys);
    var r := seq(|ks|, i requires 0 <= i < |ks| => Ticket(ks[i], m[ks[i]]));
    assert forall k :: k in m ==> Ticket(k, m[k]) in r by {
      forall k | k in m ensures Ticket(k, m[k]) in r {
        var i :| 0 <= i < |ks| && ks[i] == k;
        assert r[i] == Ticket(k, m[k]);
      }
    }
    r
  }

  lemma HeadIsLeast(r: seq<Ticket>)
    requires Ascending(r) && |r| > 0
    ensures forall t :: t in r ==> r[0].id <= t.id
  {
  }

  lemma IdDeterminesTicket(r: seq<Ticket>)
    requires Ascending(r)
    ensures forall a, b :: a in r && b in r && a.id == b.id ==> a == b
  {
  }

  lemma SameHead(r1: seq<Ticket>, r2: seq<Ticket>)
    requires Ascending(r1) && Ascending(r2) && |r1| > 0 && |r2| > 0
    requires forall t :: t in r1 <==> t in r2
    ensures r1[0] == r2[0]
  {
    assert r1[0] in r2 && r2[0] in r1;
    HeadIsLeast(r1);
    HeadIsLeast(r2);
    IdDeterminesTicket(r2);
  }

  lemma SameTail(r1: seq<Ticket>, r2: seq<Ticket>)
    requires Ascending(r1) && Ascending(r2) && |r1| > 0 && |r2| > 0
    requires forall t :: t in r1 <==> t in r2
    requires r1[0] == r2[0]
    ensures forall t :: t in r1[1..] <==> t in r2[1..]
  {
    forall t | t in r1[1..] ensures t in r2[1..] {
      var a :| 1 <= a < |r1| && r1[a] == t;
      assert t in r2 && t != r2[0];
    }
    forall t | t in r2[1..] ensures t in r1[1..] {
      var b :| 1 <= b < |r2| && r2[b] == t;
      assert t in r1 && t != r1[0];
    }
  }

  /** Two ascending sequences of tickets with the same elements are equal. */
  lemma {:induction false} AscendingUnique(r1: seq<Ticket>, r2: seq<Ticket>)
    requires Ascending(r1) && Ascending(r2)
    requires forall t :: t in r1 <==> t in r2
    ensures r1 == r2
    decreases |r1|
  {
    // Neither can be empty unless both are.
    assert |r1| == 0 || r1[0] in r2;
    assert |r2| == 0 || r2[0] in r1;
    if r1 != [] {
      SameHead(r1, r2);
      SameTail(r1, r2);
      AscendingUnique(r1[1..], r2[1..]);
      assert r1 == [r1[0]] + r1[1..];
      assert r2 == [r2[0]] + r2[1..];
    }
  }

  /** Sorting by `id` determines the listing: any ascending enumeration of
      the entries of `m` is `Listing(m)`. */
  lemma {:induction false} ListingUnique(r: seq<Ticket>, m: map<int, string>)
    requires SortedListingOf(r, m)
    ensures r == Listing(m)
  {
    var l := Listing(m);
    forall t ensures t in r <==> t in l {
      if t in r { assert Ticket(t.id, m[t.id]) == t; }
      if t in l { assert Ticket(t.id, m[t.id]) == t; }
    }
    AscendingUnique(r, l);
  }

  /** `r` is what a cursor over `s` yields when it skips `skip` items and
      then keeps at most `limit` of them; a limit of 0 keeps all the rest. */
  predicate IsWindowOf(r: seq<Ticket>, s: seq<Ticket>, skip: nat, limit: nat)
  {
    && |r| == (if skip >= |s| then 0 else if limit == 0 || skip + limit > |s| then |s| - skip else limit)
    && forall i :: 0 <= i < |r| ==> skip + i < |s| && r[i] == s[skip + i]
  }

  /** The window a `skip(skip).limit(limit)` cursor returns from `s`. */
  function Window(s: seq<Ticket>, skip: nat, limit: nat): (r: seq<Ticket>)
    ensures IsWindowOf(r, s, skip, limit)
    ensures limit > 0 ==> |r| <= limit
    ensures Ascending(s) ==> Ascending(r)
  {
    var from := if skip <= |s| then skip else |s|;
    var to := if limit == 0 || from + limit > |s| then |s| else from + limit;
    s[from..to]
  }

  /** In an ascending sequence, every item of one window precedes every item
      of the window that starts where it ends. */
  lemma AdjacentWindowsAscend(s: seq<Ticket>, skip: nat, limit: nat)
    requires Ascending(s) && limit > 0
    ensures forall x, y :: x in Window(s, skip, limit) && y in Window(s, skip + limit, limit) ==> x.id < y.id
  {
  }

  /** The ids of the tickets in `r`. */
  function Ids(r: seq<Ticket>): (ids: set<int>)
  {
    if r == [] then {} else {r[0].id} + Ids(r[1..])
  }

  lemma {:induction false} IdsMembers(r: seq<Ticket>)
    ensures forall k :: k in Ids(r) <==> exists p :: 0 <= p < |r| && r[p].id == k
    decreases |r|
  {
    if r != [] {
      IdsMembers(r[1..]);
      assert Ids(r) == {r[0].id} + Ids(r[1..]);
      forall k | k in Ids(r) ensures exists p :: 0 <= p < |r| && r[p].id == k {
        if k != r[0].id {
          var p :| 0 <= p < |r[1..]| && r[1..][p].id == k;
          assert r[p + 1].id == k;
        }
      }
      forall k | exists p :: 0 <= p < |r| && r[p].id == k ensures k in Ids(r) {
        var p :| 0 <= p < |r| && r[p].id == k;
        if p > 0 { assert r[1..][p - 1].id == k; }
      }
    }
  }

  lemma {:induction false} IdsCount(r: seq<Ticket>)
    requires Ascending(r)
    ensures |Ids(r)| == |r|
    decreases |r|
  {
    if r != [] {
      IdsCount(r[1..]);
      IdsMembers(r[1..]);
      assert r[0].id !in Ids(r[1..]);
    }
  }

  /** The number of keys of `m` below `k`: the place an entry with key `k`
      takes when `m` is sorted by key. */
  function Rank(m: map<int, string>, k: int): (n: nat)
  {
    |set j | j in m && j < k|
  }

  /** In a sorted listing of `m`, the keys of `m` below the `i`-th ticket
      are exactly the ids of the tickets before it. */
  lemma KeysBelowArePrefix(l: seq<Ticket>, m: map<int, string>, i: nat)
    requires SortedListingOf(l, m) && i < |l|
    ensures (set j | j in m && j < l[i].id) == Ids(l[..i])
  {
    var below := set j | j in m && j < l[i].id;
    var prefix := l[..i];
    IdsMembers(prefix);
    forall j | j in below ensures j in Ids(prefix) {
      assert Ticket(j, m[j]) in l;
      var p :| 0 <= p < |l| && l[p] == Ticket(j, m[j]);
      assert l[p].id < l[i].id;
      assert p < i;
      assert prefix[p].id == j;
    }
    forall j | j in Ids(prefix) ensures j in below {
      var p :| 0 <= p < |prefix| && prefix[p].id == j;
      assert prefix[p] == l[p] && l[p] in l;
    }
  }

  /** The ticket at position `i` of a sorted listing has exactly `i` keys below it. */
  lemma ListingRank(l: seq<Ticket>, m: map<int, string>, i: nat)
    requires SortedListingOf(l, m) && i < |l|
    ensures Rank(m, l[i].id) == i
  {
    KeysBelowArePrefix(l, m, i);
    IdsCount(l[..i]);
  }

  /** `t` is an entry of `m` whose place in key order lies in the window
      that skips `skip` entries and keeps `limit` (all when `limit` is 0). */
  predicate RanksInWindow(t: Ticket, m: map<int, string>, skip: nat, limit: nat)
  {
    && t.id in m && m[t.id] == t.name
    && skip <= Rank(m, t.id)
    && (limit == 0 || Rank(m, t.id) < skip + limit)
  }

  lemma WindowRanks(w: seq<Ticket>, l: seq<Ticket>, m: map<int, string>, skip: nat, limit: nat, t: Ticket)
    requires SortedListingOf(l, m) && IsWindowOf(w, l, skip, limit) && t in w
    ensures RanksInWindow(t, m, skip, limit)
  {
    var i :| 0 <= i < |w| && w[i] == t;
    assert l[skip + i] == t && t in l;
    ListingRank(l, m, skip + i);
  }

  lemma RanksInWindowIsListed(w: seq<Ticket>, l: seq<Ticket>, m: map<int, string>, skip: nat, limit: nat, t: Ticket)
    requires SortedListingOf(l, m) && IsWindowOf(w, l, skip, limit) && RanksInWindow(t, m, skip, limit)
    ensures t in w
  {
    assert Ticket(t.id, m[t.id]) == t;
    var p :| 0 <= p < |l| && l[p] == t;
    ListingRank(l, m, p);
    assert w[p - skip] == t;
  }

  /** The window of the listing holds exactly the entries whose rank falls in it:
      the cursor skips the `skip` smallest ids and keeps the next `limit`. */
  lemma WindowByRank(m: map<int, string>, skip: nat, limit: nat)
    ensures forall t :: t in Window(Listing(m), skip, limit) <==> RanksInWindow(t, m, skip, limit)
  {
    var l := Listing(m);
    var w := Window(l, skip, limit);
    forall t ensures t in w <==> RanksInWindow(t, m, skip, limit) {
      if t in w { WindowRanks(w, l, m, skip, limit, t); }
      if RanksInWindow(t, m, skip, limit) { RanksInWindowIsListed(w, l, m, skip, limit, t); }
    }
  }
}
