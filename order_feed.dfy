/** The live order feed of src/data/order.ts: the parameter defaults of `useOrdersQuery`, the
    tracking-number prefix range, the fetch window and the page cut from each snapshot, the id
    override on each document, the new-order notification rule with its per-subscription set of
    notified ids, the paginator fields, and the snapshot-to-order step of `useOrderQuery`.
    Firestore itself is not modelled: a snapshot is the sequence of documents it delivers. */
module OrderFeed {
  import opened Js
  import OrderedProduct

  /** `PAGE_LIMIT`, the page size used when the caller gives none. */
  const PageLimit: int := 15

  /** Only this many orders at the head of each snapshot are examined for notifications. */
  const NotificationWindow: int := 5

  // ---------------------------------------------------------------------------------------
  // Parameters

  /** The fields `useOrdersQuery` destructures from its partial options; `None` is `undefined`. */
  datatype OrderQueryOptions = OrderQueryOptions(
    limit: Option<int>,
    page: Option<int>,
    orderBy: Option<string>,
    sortedBy: Option<string>,
    trackingNumber: Option<Utf16>)

  /** The parameters once the destructuring defaults have been applied. */
  datatype FeedParams = FeedParams(
    limit: int,
    page: int,
    sortField: string,
    sortedBy: string,
    trackingNumber: Option<Utf16>)

  function ResolveOptions(o: OrderQueryOptions): FeedParams {
    FeedParams(o.limit.GetOr(PageLimit), o.page.GetOr(1), o.orderBy.GetOr("created_at"),
               o.sortedBy.GetOr("desc"), o.trackingNumber)
  }

  /** Missing parameters default to limit 15, page 1, newest `created_at` first; a parameter
      that is given is used as it is. */
  lemma ResolveOptionsDefaults(o: OrderQueryOptions)
    ensures var p := ResolveOptions(o);
      && p.limit == (if o.limit.Some? then o.limit.value else 15)
      && p.page == (if o.page.Some? then o.page.value else 1)
      && p.sortField == (if o.orderBy.Some? then o.orderBy.value else "created_at")
      && p.sortedBy == (if o.sortedBy.Some? then o.sortedBy.value else "desc")
      && p.trackingNumber == o.trackingNumber
  {
  }

  // ---------------------------------------------------------------------------------------
  // Tracking-number prefix range

  /** A UTF-16 code unit: what `charCodeAt` returns and `String.fromCharCode` takes (mod 2^16). */
  newtype CodeUnit = x: int | 0 <= x < 0x1_0000

  /** A JavaScript string as its sequence of UTF-16 code units. */
  type Utf16 = seq<CodeUnit>

  /** `tn.slice(0, -1) + String.fromCharCode(tn.charCodeAt(tn.length - 1) + 1)`. For the empty
      string the char code is NaN and `fromCharCode` yields "\u0000"; a last unit of 0xFFFF
      wraps to 0. */
  function PrefixEnd(tn: Utf16): Utf16 {
    if |tn| == 0 then [0 as CodeUnit]
    else tn[..|tn| - 1] + [((tn[|tn| - 1] as int + 1) % 0x1_0000) as CodeUnit]
  }

  /** String order `a < b`, unit by unit; a proper prefix comes first. */
  predicate Below(a: Utf16, b: Utf16)
    decreases |a|
  {
    if |b| == 0 then false
    else if |a| == 0 then true
    else if a[0] != b[0] then a[0] < b[0]
    else Below(a[1..], b[1..])
  }

  /** `s >= lo && s < hi`, the two `where` clauses of the filtered query. */
  predicate InRange(s: Utf16, lo: Utf16, hi: Utf16) {
    !Below(s, lo) && Below(s, hi)
  }

  predicate StartsWith(s: Utf16, prefix: Utf16) {
    |prefix| <= |s| && s[..|prefix|] == prefix
  }

  /** For a last unit below 0xFFFF the bound has the same length, agrees on all but the last
      unit and increments that one. */
  lemma PrefixEndShape(tn: Utf16)
    requires |tn| > 0 && tn[|tn| - 1] < 0xFFFF
    ensures |PrefixEnd(tn)| == |tn|
    ensures PrefixEnd(tn)[..|tn| - 1] == tn[..|tn| - 1]
    ensures PrefixEnd(tn)[|tn| - 1] as int == tn[|tn| - 1] as int + 1
  {
  }

  lemma PrefixEndTail(tn: Utf16)
    requires |tn| > 1
    ensures PrefixEnd(tn)[0] == tn[0] && PrefixEnd(tn)[1..] == PrefixEnd(tn[1..])
  {
    assert tn[1..][..|tn[1..]| - 1] == tn[..|tn| - 1][1..];
  }

  /** The range `[tn, PrefixEnd(tn))` holds exactly the strings that start with `tn`. */
  lemma {:induction false} PrefixRangeIsPrefixFilter(tn: Utf16, s: Utf16)
    requires |tn| > 0 && tn[|tn| - 1] < 0xFFFF
    ensures InRange(s, tn, PrefixEnd(tn)) <==> StartsWith(s, tn)
    decreases |tn|
  {
    var hi := PrefixEnd(tn);
    if |s| == 0 {
      assert Below(s, tn);
    } else if |tn| == 1 {
      assert hi == [(tn[0] as int + 1) as CodeUnit];
      if s[0] == tn[0] {
        assert !Below(s, tn) by { assert tn[1..] == []; }
        assert Below(s, hi);
        assert s[..1] == tn;
      } else {
        assert !StartsWith(s, tn) by { assert |s[..1]| == 1 && s[..1][0] == s[0]; }
        if s[0] < tn[0] {
          assert Below(s, tn);
        } else {
          assert s[0] as int >= hi[0] as int;
          if s[0] == hi[0] {
            assert hi[1..] == [];
            assert !Below(s[1..], hi[1..]);
          }
          assert !Below(s, hi);
        }
      }
    } else {
      PrefixEndTail(tn);
      if s[0] == tn[0] {
        PrefixRangeIsPrefixFilter(tn[1..], s[1..]);
        assert StartsWith(s, tn) <==> StartsWith(s[1..], tn[1..]) by {
          if StartsWith(s[1..], tn[1..]) {
            assert s[..|tn|] == [s[0]] + s[1..][..|tn| - 1];
            assert tn == [tn[0]] + tn[1..];
          }
          if StartsWith(s, tn) {
            assert s[1..][..|tn| - 1] == s[..|tn|][1..];
          }
        }
      } else {
        assert !StartsWith(s, tn) by { assert |tn| <= |s| ==> s[..|tn|][0] == s[0]; }
      }
    }
  }

  /** As written, a tracking number ending in unit 0xFFFF gets an upper bound that wraps to 0,
      so the filtered query matches nothing. */
  lemma {:induction false} WrappedPrefixRangeIsEmpty(tn: Utf16, s: Utf16)
    requires |tn| > 0 && tn[|tn| - 1] == 0xFFFF
    ensures !InRange(s, tn, PrefixEnd(tn))
    decreases |tn|
  {
    if |s| == 0 {
      assert Below(s, tn);
    } else if |tn| == 1 {
      assert PrefixEnd(tn) == [0 as CodeUnit];
      assert !Below(s, PrefixEnd(tn)) by { assert PrefixEnd(tn)[1..] == []; }
    } else {
      PrefixEndTail(tn);
      if s[0] == tn[0] {
        WrappedPrefixRangeIsEmpty(tn[1..], s[1..]);
      }
    }
  }

  // ---------------------------------------------------------------------------------------
  // The query

  /** The live query `useOrdersQuery` builds: an optional tracking-number range, the sort and
      the number of documents fetched. */
  datatype OrderQuery = OrderQuery(range: Option<(Utf16, Utf16)>, sortField: string, sortedBy: string, fetchLimit: int)

  /** The query, or `None` when Firestore's `limit` throws on a fetch limit that is not positive;
      the hook's `catch` then publishes the error. Firestore's other argument checks (field
      paths, directions, range filters against `orderBy`) are not modelled. */
  function BuildQuery(p: FeedParams): Option<OrderQuery> {
    var range := if p.trackingNumber.Some? && |p.trackingNumber.value| > 0
                 then Some((p.trackingNumber.value, PrefixEnd(p.trackingNumber.value))) else None;
    var fetchLimit := p.limit * p.page;
    if fetchLimit <= 0 then None else Some(OrderQuery(range, p.sortField, p.sortedBy, fetchLimit))
  }

  /** The query fetches `limit * page` documents, in the requested order, and is filtered
      exactly when the tracking number is non-empty. */
  lemma BuildQueryWindow(p: FeedParams)
    requires p.limit >= 1 && p.page >= 1
    ensures BuildQuery(p).Some?
    ensures BuildQuery(p).value.fetchLimit == p.limit * p.page
    ensures BuildQuery(p).value.sortField == p.sortField && BuildQuery(p).value.sortedBy == p.sortedBy
    ensures BuildQuery(p).value.range.Some? <==> p.trackingNumber.Some? && |p.trackingNumber.value| > 0
  {
    assert p.limit * p.page >= 1 by { MulPositive(p.limit, p.page); }
  }

  lemma MulPositive(a: int, b: int)
    requires a >= 1 && b >= 1
    ensures a * b >= b
  {
  }

  // ---------------------------------------------------------------------------------------
  // Materialising a snapshot

  /** A document as Firestore delivers it: its id and its data. */
  datatype Doc = Doc(id: string, data: Record)

  /** `{...doc.data(), id: doc.id}` */
  function Materialize(d: Doc): Record {
    d.data["id" := Str(d.id)]
  }

  function MaterializeAll(docs: seq<Doc>): (orders: seq<Record>)
    ensures |orders| == |docs|
  {
    seq(|docs|, i requires 0 <= i < |docs| => Materialize(docs[i]))
  }

  /** The order's `id` is the document id, whatever id the data carried; nothing else changes. */
  lemma MaterializeOverridesId(d: Doc)
    ensures Field(Materialize(d), "id") == Str(d.id)
    ensures Materialize(d).Keys == d.data.Keys + {"id"}
    ensures forall k :: k != "id" ==> Field(Materialize(d), k) == Field(d.data, k)
  {
  }

  /** `Array.prototype.slice` index normalisation: a negative index counts from the end. */
  function SliceIndex(i: int, n: nat): (k: nat)
    ensures k <= n
  {
    if i < 0 then (if n + i < 0 then 0 else n + i) else if i > n then n else i
  }

  /** `s.slice(start, end)` */
  function Slice<T>(s: seq<T>, start: int, end: int): seq<T> {
    var a := SliceIndex(start, |s|);
    var b := SliceIndex(end, |s|);
    if a < b then s[a..b] else []
  }

  /** `allOrders.slice(startIndex, startIndex + limit)` with `startIndex = (page - 1) * limit`. */
  function PageSlice<T>(all: seq<T>, page: int, limit: int): seq<T> {
    var startIndex := (page - 1) * limit;
    Slice(all, startIndex, startIndex + limit)
  }

  function Min(a: int, b: int): int { if a < b then a else b }
  function Max(a: int, b: int): int { if a < b then b else a }

  /** The page is the run of `min(limit, max(0, n - (page-1)*limit))` snapshot elements that
      starts at `(page-1)*limit`; a short snapshot gives a short (possibly empty) page. */
  lemma PageSliceWindow<T>(all: seq<T>, page: int, limit: int)
    requires page >= 1 && limit >= 1
    ensures var start := (page - 1) * limit;
      var len := Min(limit, Max(0, |all| - start));
      && |PageSlice(all, page, limit)| == len
      && len <= limit
      && forall i :: 0 <= i < len ==> PageSlice(all, page, limit)[i] == all[start + i]
  {
    var start := (page - 1) * limit;
    assert start >= 0 by { MulNonNegative(page - 1, limit); }
  }

  lemma MulNonNegative(a: int, b: int)
    requires a >= 0 && b >= 0
    ensures a * b >= 0
  {
  }

  /** When the store has at least `limit * page` matching documents the snapshot is full and
      the page holds exactly `limit` orders: the last `limit` of the snapshot. */
  lemma FullSnapshotGivesFullPage<T>(all: seq<T>, page: int, limit: int)
    requires page >= 1 && limit >= 1
    requires |all| == limit * page
    ensures PageSlice(all, page, limit) == all[(page - 1) * limit..]
    ensures |PageSlice(all, page, limit)| == limit
  {
    assert (page - 1) * limit == page * limit - limit;
    assert (page - 1) * limit >= 0 by { MulNonNegative(page - 1, limit); }
  }

  /** Page 1 and page 2 of size 2 over a three-order snapshot. */
  lemma PageSliceScenario<T>(a: T, b: T, c: T)
    ensures PageSlice([a, b, c], 1, 2) == [a, b]
    ensures PageSlice([a, b, c], 2, 2) == [c]
  {
  }

  // ---------------------------------------------------------------------------------------
  // New-order notifications

  /** The orders examined for notifications: `allOrders.slice(0, 5)`. */
  function Head(all: seq<Record>): seq<Record> {
    Slice(all, 0, NotificationWindow)
  }

  /** `!order.is_seen && !notifiedOrderIds.has(order.id)` */
  predicate Admit(seen: set<Value>, o: Record) {
    !Truthy(Field(o, "is_seen")) && Field(o, "id") !in seen
  }

  /** The orders that raise a notification, in order, and the set of notified ids afterwards. */
  datatype Notified = Notified(alerted: seq<Record>, seen: set<Value>)

  /** The specification of the `forEach` over the head of a snapshot. */
  function Notify(seen: set<Value>, orders: seq<Record>): Notified
    decreases |orders|
  {
    if orders == [] then Notified([], seen)
    else if Admit(seen, orders[0]) then
      var rest := Notify(seen + {Field(orders[0], "id")}, orders[1..]);
      Notified([orders[0]] + rest.alerted, rest.seen)
    else Notify(seen, orders[1..])
  }

  function Ids(orders: seq<Record>): set<Value> {
    set i | 0 <= i < |orders| :: Field(orders[i], "id")
  }

  /** The ids of the unseen orders among `orders`. */
  function UnseenIds(orders: seq<Record>): set<Value> {
    set i | 0 <= i < |orders| && !Truthy(Field(orders[i], "is_seen")) :: Field(orders[i], "id")
  }

  /** At most five notifications per snapshot. */
  lemma {:induction false} NotifyBounded(seen: set<Value>, orders: seq<Record>)
    ensures |Notify(seen, orders).alerted| <= |orders|
    ensures |Notify(seen, Head(orders)).alerted| <= NotificationWindow
    decreases |orders|
  {
    if orders != [] {
      NotifyBounded(seen, orders[1..]);
      NotifyBounded(seen + {Field(orders[0], "id")}, orders[1..]);
    }
    var head := Head(orders);
    if head != [] {
      NotifyBounded(seen, head[1..]);
      NotifyBounded(seen + {Field(head[0], "id")}, head[1..]);
    }
  }

  /** Every notified order is an unseen order of the snapshot whose id was not yet notified,
      and no id is notified twice. */
  lemma {:induction false} NotifyAlertsAreNew(seen: set<Value>, orders: seq<Record>)
    ensures var alerted := Notify(seen, orders).alerted;
      && (forall i :: 0 <= i < |alerted| ==>
            alerted[i] in orders && !Truthy(Field(alerted[i], "is_seen")) && Field(alerted[i], "id") !in seen)
      && (forall i, j :: 0 <= i < j < |alerted| ==> Field(alerted[i], "id") != Field(alerted[j], "id"))
    decreases |orders|
  {
    if orders != [] && Admit(seen, orders[0]) {
      var id := Field(orders[0], "id");
      NotifyAlertsAreNew(seen + {id}, orders[1..]);
      var alerted := Notify(seen, orders).alerted;
      assert forall i :: 1 <= i < |alerted| ==> alerted[i] == Notify(seen + {id}, orders[1..]).alerted[i - 1];
    } else if orders != [] {
      var tail := orders[1..];
      NotifyAlertsAreNew(seen, tail);
      var alerted := Notify(seen, tail).alerted;
      assert Notify(seen, orders) == Notify(seen, tail);
      forall i | 0 <= i < |alerted| ensures alerted[i] in orders {
        var j :| 0 <= j < |tail| && tail[j] == alerted[i];
        assert orders[j + 1] == tail[j];
      }
    }
  }

  /** The set only grows, and exactly by the ids of the notified orders. */
  lemma {:induction false} NotifySeenGrowth(seen: set<Value>, orders: seq<Record>)
    ensures Notify(seen, orders).seen == seen + Ids(Notify(seen, orders).alerted)
    decreases |orders|
  {
    if orders != [] {
      var id := Field(orders[0], "id");
      if Admit(seen, orders[0]) {
        var rest := Notify(seen + {id}, orders[1..]);
        NotifySeenGrowth(seen + {id}, orders[1..]);
        assert Ids([orders[0]] + rest.alerted) == {id} + Ids(rest.alerted) by {
          var all := [orders[0]] + rest.alerted;
          forall v | v in Ids(all) ensures v in {id} + Ids(rest.alerted) {
            var i :| 0 <= i < |all| && Field(all[i], "id") == v;
            if i > 0 { assert all[i] == rest.alerted[i - 1]; }
          }
          forall v | v in Ids(rest.alerted) ensures v in Ids(all) {
            var i :| 0 <= i < |rest.alerted| && Field(rest.alerted[i], "id") == v;
            assert all[i + 1] == rest.alerted[i];
          }
          assert Field(all[0], "id") == id;
        }
      } else {
        NotifySeenGrowth(seen, orders[1..]);
      }
    }
  }

  /** The notified ids are exactly the ids of the unseen orders that were not notified before. */
  lemma {:induction false} NotifiedIdsExactly(seen: set<Value>, orders: seq<Record>)
    ensures Ids(Notify(seen, orders).alerted) == UnseenIds(orders) - seen
    decreases |orders|
  {
    if orders != [] {
      var o := orders[0];
      var id := Field(o, "id");
      var tail := orders[1..];
      assert UnseenIds(orders) == (if Truthy(Field(o, "is_seen")) then {} else {id}) + UnseenIds(tail) by {
        forall v | v in UnseenIds(orders)
          ensures v in (if Truthy(Field(o, "is_seen")) then {} else {id}) + UnseenIds(tail)
        {
          var i :| 0 <= i < |orders| && !Truthy(Field(orders[i], "is_seen")) && Field(orders[i], "id") == v;
          if i > 0 { assert orders[i] == tail[i - 1]; }
        }
        forall v | v in UnseenIds(tail) ensures v in UnseenIds(orders) {
          var i :| 0 <= i < |tail| && !Truthy(Field(tail[i], "is_seen")) && Field(tail[i], "id") == v;
          assert orders[i + 1] == tail[i];
        }
        if !Truthy(Field(o, "is_seen")) { assert orders[0] == o; }
      }
      if Admit(seen, o) {
        var rest := Notify(seen + {id}, tail);
        NotifiedIdsExactly(seen + {id}, tail);
        assert Ids([o] + rest.alerted) == {id} + Ids(rest.alerted) by {
          var all := [o] + rest.alerted;
          forall v | v in Ids(all) ensures v in {id} + Ids(rest.alerted) {
            var i :| 0 <= i < |all| && Field(all[i], "id") == v;
            if i > 0 { assert all[i] == rest.alerted[i - 1]; }
          }
          forall v | v in Ids(rest.alerted) ensures v in Ids(all) {
            var i :| 0 <= i < |rest.alerted| && Field(rest.alerted[i], "id") == v;
            assert all[i + 1] == rest.alerted[i];
          }
          assert Field(all[0], "id") == id;
        }
      } else {
        NotifiedIdsExactly(seen, tail);
      }
    }
  }

  /** An order already marked `is_seen` is skipped: it raises no notification and does not
      enter the set. */
  lemma SeenOrderIsSkipped(seen: set<Value>, o: Record, rest: seq<Record>)
    requires Truthy(Field(o, "is_seen"))
    ensures Notify(seen, [o] + rest) == Notify(seen, rest)
  {
    assert ([o] + rest)[1..] == rest;
  }

  /** A second delivery of the same orders within one subscription notifies nothing. */
  lemma NotifyAgainIsSilent(seen: set<Value>, orders: seq<Record>)
    ensures Notify(Notify(seen, orders).seen, orders).alerted == []
  {
    var first := Notify(seen, orders);
    NotifySeenGrowth(seen, orders);
    NotifiedIdsExactly(seen, orders);
    var again := Notify(first.seen, orders).alerted;
    NotifiedIdsExactly(first.seen, orders);
    assert Ids(again) == {};
    NoIdsNoOrders(again);
  }

  lemma NoIdsNoOrders(orders: seq<Record>)
    ensures Ids(orders) == {} ==> orders == []
  {
    if orders != [] {
      assert Field(orders[0], "id") in Ids(orders);
    }
  }

  /** A snapshot head [X, Y, X] of unseen orders notifies X once and Y once, in that order. */
  lemma NotifyBurstScenario(x: Record, y: Record)
    requires !Truthy(Field(x, "is_seen")) && !Truthy(Field(y, "is_seen"))
    requires Field(x, "id") != Field(y, "id")
    ensures Notify({}, [x, y, x]).alerted == [x, y]
  {
    assert [x, y, x][1..] == [y, x];
    assert [y, x][1..] == [x];
    assert [x][1..] == [];
    var idX, idY := Field(x, "id"), Field(y, "id");
    assert {idX} + {idY} == {idX, idY};
    assert Notify({idX, idY}, [x]).alerted == [];
    assert Notify({idX}, [y, x]).alerted == [y];
    assert {} + {idX} == {idX};
  }

  /** The state one snapshot listener keeps: `notifiedOrderIds`, created with the subscription
      and grown by each snapshot it handles, together with the page it serves. */
  class OrderSubscription {
    const page: int
    const limit: int
    var notifiedOrderIds: set<Value>

    constructor (page: int, limit: int)
      ensures this.page == page && this.limit == limit
      ensures notifiedOrderIds == {}
    {
      this.page := page;
      this.limit := limit;
      notifiedOrderIds := {};
    }

    /** The snapshot callback: materialise the documents, cut the requested page, and notify
        the new unseen orders among the first five. */
    method OnSnapshot(docs: seq<Doc>) returns (paginated: seq<Record>, alerted: seq<Record>)
      modifies this
      ensures paginated == PageSlice(MaterializeAll(docs), page, limit)
      ensures var n := Notify(old(notifiedOrderIds), Head(MaterializeAll(docs)));
        alerted == n.alerted && notifiedOrderIds == n.seen
    {
      var allOrders := MaterializeAll(docs);
      var startIndex := (page - 1) * limit;
      paginated := Slice(allOrders, startIndex, startIndex + limit);
      var head := Slice(allOrders, 0, NotificationWindow);
      alerted := [];
      var i := 0;
      while i < |head|
        invariant 0 <= i <= |head|
        invariant var rest := Notify(notifiedOrderIds, head[i..]);
          Notify(old(notifiedOrderIds), head) == Notified(alerted + rest.alerted, rest.seen)
      {
        var order := head[i];
        assert head[i..][1..] == head[i + 1..];
        if !Truthy(Field(order, "is_seen")) && Field(order, "id") !in notifiedOrderIds {
          alerted := alerted + [order];
          notifiedOrderIds := notifiedOrderIds + {Field(order, "id")};
        }
        i := i + 1;
      }
    }
  }

  // ---------------------------------------------------------------------------------------
  // Paginator

  /** `Math.ceil(total / limit)`; `None` where the quotient is not finite (`limit == 0`). */
  function LastPage(total: nat, limit: int): Option<int> {
    if limit == 0 then None
    else if limit > 0 then Some((total + limit - 1) / limit)
    else Some(-(total / -limit))
  }

  /** `last_page` is the least page count covering `total` orders; 0 when there are none. */
  lemma LastPageIsCeiling(total: nat, limit: int)
    requires limit >= 1
    ensures LastPage(total, limit).Some?
    ensures var k := LastPage(total, limit).value;
      && k >= 0
      && k * limit >= total
      && (k - 1) * limit < total
    ensures total == 0 ==> LastPage(total, limit) == Some(0)
  {
    var k := (total + limit - 1) / limit;
    var r := (total + limit - 1) % limit;
    assert total + limit - 1 == k * limit + r;
    assert (k - 1) * limit == k * limit - limit;
    if total == 0 {
      assert k == 0;
    }
  }

  /** The fields `useOrdersQuery` hands to `mapPaginatorData`. */
  datatype PaginatorFields = PaginatorFields(
    total: nat,
    currentPage: int,
    lastPage: Option<int>,
    perPage: int,
    from: int,
    to: int,
    data: seq<Record>)

  /** The paginator for a page of translated orders; `total` is the size of the whole
      collection, observed by a second, unfiltered listener. */
  function Paginator(p: FeedParams, collectionSize: nat, orders: seq<Record>): PaginatorFields {
    PaginatorFields(collectionSize, p.page, LastPage(collectionSize, p.limit), p.limit, 0, 0, orders)
  }

  /** `total`, `current_page`, `per_page` and `last_page` come from the collection size and the
      requested page alone: the tracking-number filter has no say in them. */
  lemma PaginatorIgnoresFilter(p: FeedParams, q: FeedParams, collectionSize: nat, orders: seq<Record>)
    requires p.limit == q.limit && p.page == q.page
    ensures Paginator(p, collectionSize, orders) == Paginator(q, collectionSize, orders)
    ensures Paginator(p, collectionSize, orders).total == collectionSize
    ensures Paginator(p, collectionSize, orders).currentPage == p.page
    ensures Paginator(p, collectionSize, orders).perPage == p.limit
  {
  }

  /** What `useOrdersQuery` returns once both listeners have delivered. */
  datatype FeedView = FeedView(orders: seq<Record>, paginatorInfo: PaginatorFields)

  /** `orders.map(o => applyOrderTranslations(o, locale ?? 'en'))`; `None` when one of them throws. */
  function TranslateOrders(orders: seq<Record>, locale: Option<string>): Option<seq<Record>> {
    if orders == [] then Some([])
    else
      match OrderedProduct.ApplyOrderTranslations(orders[0], Some(locale.GetOr("en")))
      case None => None
      case Some(first) =>
        match TranslateOrders(orders[1..], locale)
        case None => None
        case Some(rest) => Some([first] + rest)
  }

  function View(p: FeedParams, paginated: seq<Record>, collectionSize: nat, locale: Option<string>): Option<FeedView> {
    match TranslateOrders(paginated, locale)
    case None => None
    case Some(translated) => Some(FeedView(translated, Paginator(p, collectionSize, translated)))
  }

  /** What the hook publishes: the page's orders translated, and the paginator built from the
      collection size, the page and the limit around those same orders; nothing is published
      when a translation throws. */
  lemma ViewShape(p: FeedParams, paginated: seq<Record>, collectionSize: nat, locale: Option<string>)
    ensures View(p, paginated, collectionSize, locale).Some? <==> TranslateOrders(paginated, locale).Some?
    ensures View(p, paginated, collectionSize, locale).Some? ==>
      var v := View(p, paginated, collectionSize, locale).value;
      && |v.orders| == |paginated|
      && v.orders == TranslateOrders(paginated, locale).value
      && v.paginatorInfo.data == v.orders
      && v.paginatorInfo.total == collectionSize
      && v.paginatorInfo.currentPage == p.page
      && v.paginatorInfo.perPage == p.limit
      && v.paginatorInfo.lastPage == LastPage(collectionSize, p.limit)
      && v.paginatorInfo.from == 0 && v.paginatorInfo.to == 0
  {
    TranslateOrdersElementwise(paginated, locale);
  }

  /** The published orders are the page's orders, each translated, in the same order. */
  lemma {:induction false} TranslateOrdersElementwise(orders: seq<Record>, locale: Option<string>)
    ensures TranslateOrders(orders, locale).Some? <==>
      forall i :: 0 <= i < |orders| ==> OrderedProduct.ApplyOrderTranslations(orders[i], Some(locale.GetOr("en"))).Some?
    ensures TranslateOrders(orders, locale).Some? ==>
      var t := TranslateOrders(orders, locale).value;
      && |t| == |orders|
      && forall i :: 0 <= i < |orders| ==> t[i] == OrderedProduct.ApplyOrderTranslations(orders[i], Some(locale.GetOr("en"))).value
    decreases |orders|
  {
    if orders != [] {
      TranslateOrdersElementwise(orders[1..], locale);
      assert forall i :: 1 <= i < |orders| ==> orders[i] == orders[1..][i - 1];
    }
  }

  // ---------------------------------------------------------------------------------------
  // useOrderQuery

  /** A document snapshot: the document is missing, or it exists with its id and data. */
  datatype DocSnapshot = Missing | Exists(id: string, data: Record)

  /** The `order` state after a snapshot: untouched when there is no id to listen to, `null`
      for a missing document, the translated order otherwise, or an aborted callback. */
  datatype SingleOrder = NotListening | NoOrder | Found(order: Record) | Aborted

  function OrderFromSnapshot(id: string, snapshot: DocSnapshot, language: string): SingleOrder {
    if id == "" then NotListening
    else match snapshot
      case Missing => NoOrder
      case Exists(docId, data) =>
        match OrderedProduct.ApplyOrderTranslations(data["id" := Str(docId)], Some(language))
        case None => Aborted
        case Some(order) => Found(order)
  }

  /** An empty id never subscribes; a missing document gives `null`; an existing one gives its
      data, translated, with `id` set to the snapshot id: every other field but `products` is
      the data's, and the products are translated one by one. The callback aborts exactly when
      `products` is not an array of objects. */
  lemma OrderFromSnapshotCases(id: string, snapshot: DocSnapshot, language: string)
    ensures id == "" <==> OrderFromSnapshot(id, snapshot, language).NotListening?
    ensures id != "" && snapshot.Missing? ==> OrderFromSnapshot(id, snapshot, language) == NoOrder
    ensures id != "" && snapshot.Exists? ==>
      (OrderFromSnapshot(id, snapshot, language).Found? <==>
         Field(snapshot.data, "products").Arr? &&
         forall i :: 0 <= i < |Field(snapshot.data, "products").items| ==>
           OrderedProduct.IsObject(Field(snapshot.data, "products").items[i]))
    ensures id != "" && snapshot.Exists? ==>
      (OrderFromSnapshot(id, snapshot, language).Found? || OrderFromSnapshot(id, snapshot, language).Aborted?)
    ensures OrderFromSnapshot(id, snapshot, language).Found? ==>
      var order := OrderFromSnapshot(id, snapshot, language).order;
      var products := Field(snapshot.data, "products").items;
      && snapshot.Exists?
      && Field(order, "id") == Str(snapshot.id)
      && order.Keys == snapshot.data.Keys + {"id"}
      && (forall k :: k in snapshot.data && k != "id" && k != "products" ==> order[k] == snapshot.data[k])
      && order["products"].Arr?
      && |order["products"].items| == |products|
      && (forall i :: 0 <= i < |products| && products[i].Obj? ==>
            order["products"].items[i] == Obj(OrderedProduct.Translated(products[i].fields, language)))
      && (forall i :: 0 <= i < |products| && products[i].Arr? ==> order["products"].items[i] == products[i])
  {
    if id != "" && snapshot.Exists? {
      var data := snapshot.data["id" := Str(snapshot.id)];
      OrderedProduct.OrderTranslationsShape(data, Some(language));
      assert Field(data, "products") == Field(snapshot.data, "products");
    }
  }
}
