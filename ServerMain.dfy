/**
 * The price analytics of the server: items and auction listings as decoded from the
 * result files, the minimum unit buyout per snapshot, the average unit price of the
 * cheapest `n` units per snapshot, and the queries of the database on one item.
 * Kotlin's Double is modelled by `real`, so listings are required to have a positive
 * quantity (a zero quantity would give an infinite unit price).
 */
module ServerMain {
  import opened Wrappers
  import opened Sorting
  import opened LinkedMap

  datatype Item = Item(id: int, frenchName: Option<string>, englishName: Option<string>)

  predicate Complete(item: Item) {
    item.frenchName.Some? && item.englishName.Some?
  }

  /** A listing seen at `timestamp` (epoch seconds); `buyout` is the price of the whole stack. */
  datatype Auction = Auction(itemId: int, quantity: int, bid: int, buyout: Option<int>, timestamp: int)

  datatype AnalyticsError =
    | UnknownItem(itemId: int)   // IllegalArgumentException("Item … unknown")
    | EmptyCollection            // reduce over an empty list
    | NoSuchElement              // last() of an empty collection

  predicate Positive(auctions: seq<Auction>) {
    forall k :: 0 <= k < |auctions| ==> auctions[k].quantity > 0
  }

  function UnitBuyout(a: Auction): real
    requires a.quantity > 0 && a.buyout.Some?
  {
    a.buyout.value as real / a.quantity as real
  }

  /** buyoutByUnit: absent exactly when the buyout is absent; else the price of one unit. */
  function BuyoutByUnit(a: Auction): (r: Option<real>)
    requires a.quantity > 0
    ensures r.None? <==> a.buyout.None?
    ensures r.Some? ==> r.value * a.quantity as real == a.buyout.value as real
  {
    if a.buyout.None? then None else Some(UnitBuyout(a))
  }

  // ---------------------------------------------------------------------------
  // Grouping by snapshot

  function Timestamps(auctions: seq<Auction>): set<int> {
    set k | 0 <= k < |auctions| :: auctions[k].timestamp
  }

  /** The listings of one snapshot, in their order (groupBy). */
  function Group(auctions: seq<Auction>, t: int): (r: seq<Auction>)
    ensures forall a :: a in r <==> a in auctions && a.timestamp == t
    ensures Positive(auctions) ==> Positive(r)
    decreases |auctions|
  {
    if auctions == [] then []
    else
      var rest := Group(auctions[1..], t);
      assert forall a :: a in auctions <==> a == auctions[0] || a in auctions[1..];
      assert Positive(auctions) ==> Positive(auctions[1..]) by {
        if Positive(auctions) {
          forall k | 0 <= k < |auctions[1..]| ensures auctions[1..][k].quantity > 0 {
            assert auctions[1..][k] == auctions[k + 1];
          }
        }
      }
      (if auctions[0].timestamp == t then [auctions[0]] else []) + rest
  }

  /** The unit buyouts of the listings that have one (mapNotNull buyoutByUnit). */
  function UnitPrices(group: seq<Auction>): (r: seq<real>)
    requires Positive(group)
    ensures forall a :: a in group && a.buyout.Some? ==> UnitBuyout(a) in r
    ensures forall x :: x in r ==> exists a :: a in group && a.buyout.Some? && x == UnitBuyout(a)
    decreases |group|
  {
    if group == [] then []
    else
      var rest := group[1..];
      assert Positive(rest) by {
        forall k | 0 <= k < |rest| ensures rest[k].quantity > 0 {
          assert rest[k] == group[k + 1];
        }
      }
      assert forall a :: a in group <==> a == group[0] || a in rest;
      var head := group[0];
      (if head.buyout.Some? then [UnitBuyout(head)] else []) + UnitPrices(rest)
  }

  /** Kotlin's min() on a non-empty list. */
  function Min(s: seq<real>): (r: real)
    requires |s| > 0
    ensures r in s
    ensures forall x :: x in s ==> r <= x
    decreases |s|
  {
    if |s| == 1 then s[0]
    else
      var m := Min(s[1..]);
      assert forall x :: x in s ==> x == s[0] || x in s[1..];
      if s[0] <= m then s[0] else m
  }

  /** ItemAuctions.bestBuyout: for each snapshot with a priced listing, its lowest unit buyout. */
  function BestBuyout(auctions: seq<Auction>): map<int, real>
    requires Positive(auctions)
  {
    map t | t in Timestamps(auctions) && UnitPrices(Group(auctions, t)) != [] :: Min(UnitPrices(Group(auctions, t)))
  }

  /** A snapshot has a best buyout exactly when one of its listings has a buyout. */
  lemma BestBuyoutKeys(auctions: seq<Auction>, t: int)
    requires Positive(auctions)
    ensures t in BestBuyout(auctions) <==> exists a :: a in auctions && a.timestamp == t && a.buyout.Some?
  {
    var g := Group(auctions, t);
    if a :| a in auctions && a.timestamp == t && a.buyout.Some? {
      assert UnitBuyout(a) in UnitPrices(g);
      var k :| 0 <= k < |auctions| && auctions[k] == a;
      assert t in Timestamps(auctions);
    }
    if t in BestBuyout(auctions) {
      var x := UnitPrices(g)[0];
      assert x in UnitPrices(g);
    }
  }

  /** The best buyout of a snapshot is the unit buyout of one of its listings, and none is lower. */
  lemma BestBuyoutIsMinimum(auctions: seq<Auction>, t: int)
    requires Positive(auctions)
    requires t in BestBuyout(auctions)
    ensures forall a :: a in auctions && a.timestamp == t && a.buyout.Some? ==> BestBuyout(auctions)[t] <= UnitBuyout(a)
    ensures exists a :: a in auctions && a.timestamp == t && a.buyout.Some? && BestBuyout(auctions)[t] == UnitBuyout(a)
  {
    var prices := UnitPrices(Group(auctions, t));
    assert BestBuyout(auctions)[t] == Min(prices);
    assert Min(prices) in prices;
  }

  // ---------------------------------------------------------------------------
  // Average price of the cheapest units

  datatype AveragePrice = AveragePrice(price: real, quantity: int)

  function Larger(a: int, b: int): int {
    if a >= b then a else b
  }

  /**
   * AveragePrice.addPrice: nothing changes once `limit` units are reached; otherwise
   * the new listing counts with as many units as bring the total to `limit`, or all of
   * them if that is more, and the quantity grows by the whole listing.
   */
  function AddPrice(acc: AveragePrice, price: real, quantity: int, limit: int): (r: AveragePrice)
    requires acc.quantity >= 0
    ensures acc.quantity >= limit ==> r == acc
    ensures acc.quantity < limit ==> r.quantity == acc.quantity + quantity
    ensures acc.quantity < limit ==> Between(r.price, acc.price, price)
  {
    if acc.quantity >= limit then acc
    else
      var total := Larger(acc.quantity + quantity, limit);
      var avg := (acc.price * acc.quantity as real + price * (total - acc.quantity) as real) / total as real;
      WeightedBetween(acc.price, price, acc.quantity as real, (total - acc.quantity) as real);
      AveragePrice(avg, acc.quantity + quantity)
  }

  predicate Between(x: real, a: real, b: real) {
    (a <= x <= b) || (b <= x <= a)
  }

  lemma WeightedBetween(a: real, b: real, u: real, v: real)
    requires u >= 0.0 && v > 0.0
    ensures Between((a * u + b * v) / (u + v), a, b)
  {
    var w := u + v;
    var avg := (a * u + b * v) / w;
    assert avg * w == a * u + b * v;
    assert a * w == a * u + a * v && b * w == b * u + b * v;
    if a <= b {
      assert a * v <= b * v && a * u <= b * u;
    } else {
      assert b * v <= a * v && b * u <= a * u;
    }
  }

  /** The worked example: 5 units at 10 then 5 at 20, for 8 units, average 15. */
  lemma AddPriceExample()
    ensures AddPrice(AveragePrice(10.0, 5), 20.0, 5, 8) == AveragePrice(15.0, 10)
  {
    var r := AddPrice(AveragePrice(10.0, 5), 20.0, 5, 8);
    assert Larger(10, 8) == 10;
    assert r.price == (10.0 * 5.0 + 20.0 * 5.0) / 10.0;
  }

  /** `reduce` with addPrice, from an accumulator over the remaining listings. */
  function Fold(acc: AveragePrice, rest: seq<AveragePrice>, limit: int): (r: AveragePrice)
    requires acc.quantity >= 0
    requires Filled(rest)
    ensures r.quantity >= 0
    decreases |rest|
  {
    if rest == [] then acc
    else
      var next := AddPrice(acc, rest[0].price, rest[0].quantity, limit);
      Fold(next, rest[1..], limit)
  }

  function Total(s: seq<AveragePrice>): int
    decreases |s|
  {
    if s == [] then 0 else s[0].quantity + Total(s[1..])
  }

  /** The fold stops short of `limit` exactly when all the units together fall short of it. */
  lemma {:induction false} FoldShort(acc: AveragePrice, rest: seq<AveragePrice>, limit: int)
    requires acc.quantity >= 0
    requires Filled(rest)
    ensures Fold(acc, rest, limit).quantity < limit <==> acc.quantity + Total(rest) < limit
    decreases |rest|
  {
    if rest != [] {
      var next := AddPrice(acc, rest[0].price, rest[0].quantity, limit);
      if acc.quantity >= limit {
        FoldStays(next, rest[1..], limit);
        TotalNonNegative(rest);
      } else {
        FoldShort(next, rest[1..], limit);
      }
    }
  }

  /** Once `limit` is reached the fold changes nothing. */
  lemma {:induction false} FoldStays(acc: AveragePrice, rest: seq<AveragePrice>, limit: int)
    requires acc.quantity >= 0 && acc.quantity >= limit
    requires Filled(rest)
    ensures Fold(acc, rest, limit) == acc
    decreases |rest|
  {
    if rest != [] {
      FoldStays(acc, rest[1..], limit);
    }
  }

  lemma {:induction false} TotalNonNegative(s: seq<AveragePrice>)
    requires Filled(s)
    ensures Total(s) >= 0
    decreases |s|
  {
    if s != [] {
      TotalNonNegative(s[1..]);
    }
  }

  /** The folded price stays between the lowest and the highest price folded in. */
  lemma {:induction false} FoldBetween(acc: AveragePrice, rest: seq<AveragePrice>, limit: int, lo: real, hi: real)
    requires acc.quantity >= 0
    requires Filled(rest)
    requires lo <= acc.price <= hi
    requires forall k :: 0 <= k < |rest| ==> lo <= rest[k].price <= hi
    ensures lo <= Fold(acc, rest, limit).price <= hi
    decreases |rest|
  {
    if rest != [] {
      var next := AddPrice(acc, rest[0].price, rest[0].quantity, limit);
      FoldBetween(next, rest[1..], limit, lo, hi);
    }
  }

  function PriceKey(p: AveragePrice): real {
    p.price
  }

  /** The listings with a buyout, as (unit price, quantity). */
  function PricedListings(group: seq<Auction>): (r: seq<AveragePrice>)
    requires Positive(group)
    ensures Filled(r)
    ensures r == [] <==> forall a :: a in group ==> a.buyout.None?
    ensures forall p :: p in r ==> exists a :: a in group && a.buyout.Some? && p == AveragePrice(UnitBuyout(a), a.quantity)
    ensures forall a :: a in group && a.buyout.Some? ==> AveragePrice(UnitBuyout(a), a.quantity) in r
    decreases |group|
  {
    if group == [] then []
    else
      var rest := group[1..];
      assert Positive(rest) by {
        forall k | 0 <= k < |rest| ensures rest[k].quantity > 0 {
          assert rest[k] == group[k + 1];
        }
      }
      assert forall a :: a in group <==> a == group[0] || a in rest;
      var head := group[0];
      (if head.buyout.Some? then [AveragePrice(UnitBuyout(head), head.quantity)] else []) + PricedListings(rest)
  }

  /** The priced listings in ascending unit price (sortedBy). */
  function ByPrice(group: seq<Auction>): (r: seq<AveragePrice>)
    requires Positive(group)
    ensures SortedBy(r, PriceKey)
    ensures multiset(r) == multiset(PricedListings(group))
    ensures Filled(r)
    ensures r == [] <==> PricedListings(group) == []
  {
    var priced := PricedListings(group);
    var sorted := SortBy(priced, PriceKey);
    assert |sorted| == |priced| by {
      assert |multiset(sorted)| == |multiset(priced)|;
    }
    assert forall p :: p in sorted ==> p in multiset(priced);
    sorted
  }

  /** Listings of the same unit price keep their order in the group (sortedBy is stable). */
  lemma ByPriceStable(group: seq<Auction>, v: real)
    requires Positive(group)
    ensures WithKey(ByPrice(group), PriceKey, v) == WithKey(PricedListings(group), PriceKey, v)
  {
    SortByStable(PricedListings(group), PriceKey, v);
  }

  /**
   * The private bestAverageBuyout of one snapshot: the cheapest listings folded in
   * ascending unit price until `n` units, absent when there are fewer than `n` units,
   * and a failure when no listing has a buyout.
   */
  function AverageOf(group: seq<Auction>, n: int): (r: Result<Option<real>, AnalyticsError>)
    requires Positive(group)
    ensures r.Failure? <==> forall a :: a in group ==> a.buyout.None?
    ensures r.Failure? ==> r.error == EmptyCollection
  {
    var sorted := ByPrice(group);
    if sorted == [] then Failure(EmptyCollection)
    else
      var avg := Fold(sorted[0], sorted[1..], n);
      Success(if avg.quantity < n then None else Some(avg.price))
  }

  predicate Filled(s: seq<AveragePrice>) {
    forall p :: p in s ==> p.quantity > 0
  }

  function TotalPriced(group: seq<Auction>): int
    requires Positive(group)
  {
    Total(PricedListings(group))
  }

  lemma {:induction false} TotalAppend(a: seq<AveragePrice>, b: seq<AveragePrice>)
    ensures Total(a + b) == Total(a) + Total(b)
    decreases |a|
  {
    if a != [] {
      assert (a + b)[0] == a[0] && (a + b)[1..] == a[1..] + b;
      TotalAppend(a[1..], b);
    } else {
      assert a + b == b;
    }
  }

  /** Reordering listings does not change how many units they hold. */
  lemma {:induction false} TotalPermutation(a: seq<AveragePrice>, b: seq<AveragePrice>)
    requires multiset(a) == multiset(b)
    ensures Total(a) == Total(b)
    decreases |a|
  {
    if a == [] {
      assert |multiset(b)| == 0;
    } else {
      var x := a[0];
      assert x in multiset(b);
      var k :| 0 <= k < |b| && b[k] == x;
      var rest := b[..k] + b[k + 1..];
      TotalRemove(b, k);
      assert a == [x] + a[1..];
      TotalAppend([x], a[1..]);
      assert multiset(a[1..]) == multiset(a) - multiset{x};
      TotalPermutation(a[1..], rest);
    }
  }

  /** Taking out the listing at k leaves the others and their units. */
  lemma TotalRemove(b: seq<AveragePrice>, k: nat)
    requires k < |b|
    ensures Total(b) == Total([b[k]]) + Total(b[..k] + b[k + 1..])
    ensures multiset(b[..k] + b[k + 1..]) == multiset(b) - multiset{b[k]}
  {
    var p, x, q := b[..k], [b[k]], b[k + 1..];
    assert b == p + (x + q);
    TotalAppend(p, x + q);
    TotalAppend(x, q);
    TotalAppend(p, q);
    assert multiset(b) == multiset(p) + multiset(x + q);
  }

  /** The average is absent exactly when the snapshot holds fewer than `n` priced units. */
  lemma AverageShort(group: seq<Auction>, n: int)
    requires Positive(group)
    requires AverageOf(group, n).Success?
    ensures AverageOf(group, n).value.None? <==> TotalPriced(group) < n
  {
    var priced := PricedListings(group);
    var sorted := ByPrice(group);
    FoldShort(sorted[0], sorted[1..], n);
    assert sorted == [sorted[0]] + sorted[1..];
    TotalPermutation(sorted, priced);
  }

  lemma ByPriceEntry(group: seq<Auction>, p: AveragePrice)
    requires Positive(group)
    requires p in ByPrice(group)
    ensures exists a :: a in group && a.buyout.Some? && p == AveragePrice(UnitBuyout(a), a.quantity)
  {
    var priced := PricedListings(group);
    assert p in multiset(priced);
    assert p in priced;
  }

  lemma ByPriceHas(group: seq<Auction>, a: Auction)
    requires Positive(group)
    requires a in group && a.buyout.Some?
    ensures AveragePrice(UnitBuyout(a), a.quantity) in ByPrice(group)
  {
    assert AveragePrice(UnitBuyout(a), a.quantity) in multiset(PricedListings(group));
  }

  /** When every cheapest listing alone holds `n` units, the average is the best buyout. */
  lemma AverageCheapest(group: seq<Auction>, n: int)
    requires Positive(group)
    requires exists a :: a in group && a.buyout.Some?
    requires forall a :: a in group && a.buyout.Some? && UnitBuyout(a) == Min(UnitPrices(group)) ==> a.quantity >= n
    ensures AverageOf(group, n) == Success(Some(Min(UnitPrices(group))))
  {
    var best := Min(UnitPrices(group));
    var sorted := ByPrice(group);
    var c :| c in group && c.buyout.Some? && best == UnitBuyout(c);
    var cp := AveragePrice(UnitBuyout(c), c.quantity);
    ByPriceHas(group, c);
    var k :| 0 <= k < |sorted| && sorted[k] == cp;
    var head := sorted[0];
    ByPriceEntry(group, head);
    var a :| a in group && a.buyout.Some? && head == AveragePrice(UnitBuyout(a), a.quantity);
    assert UnitBuyout(a) in UnitPrices(group);
    if k > 0 {
      assert PriceKey(sorted[0]) <= PriceKey(sorted[k]);
    }
    assert head.price == best;
    FoldStays(head, sorted[1..], n);
  }

  /** The average lies between the best buyout and any bound on the unit buyouts. */
  lemma AverageBounds(group: seq<Auction>, n: int, hi: real)
    requires Positive(group)
    requires forall a :: a in group && a.buyout.Some? ==> UnitBuyout(a) <= hi
    requires AverageOf(group, n).Success? && AverageOf(group, n).value.Some?
    ensures Min(UnitPrices(group)) <= AverageOf(group, n).value.value <= hi
  {
    var lo := Min(UnitPrices(group));
    var sorted := ByPrice(group);
    forall k | 0 <= k < |sorted| ensures lo <= sorted[k].price <= hi {
      ByPriceEntry(group, sorted[k]);
      var a :| a in group && a.buyout.Some? && sorted[k] == AveragePrice(UnitBuyout(a), a.quantity);
      assert UnitBuyout(a) in UnitPrices(group);
    }
    assert forall k :: 0 <= k < |sorted[1..]| ==> sorted[1..][k] == sorted[k + 1];
    FoldBetween(sorted[0], sorted[1..], n, lo, hi);
  }

  /**
   * ItemAuctions.bestAverageBuyout: the average of each snapshot that holds `n` priced
   * units; a snapshot without any priced listing makes the whole query fail.
   */
  function BestAverageBuyout(auctions: seq<Auction>, n: int): (r: Result<map<int, real>, AnalyticsError>)
    requires Positive(auctions)
    ensures r.Failure? <==> exists t :: t in Timestamps(auctions) && forall a :: a in auctions && a.timestamp == t ==> a.buyout.None?
    ensures r.Failure? ==> r.error == EmptyCollection
  {
    if exists t :: t in Timestamps(auctions) && AverageOf(Group(auctions, t), n).Failure? then
      Failure(EmptyCollection)
    else
      Success(map t | t in Timestamps(auctions) && AverageOf(Group(auctions, t), n).value.Some? ::
        AverageOf(Group(auctions, t), n).value.value)
  }

  /** Which snapshots have an average, and what it is. */
  lemma BestAverageBuyoutKeys(auctions: seq<Auction>, n: int, t: int)
    requires Positive(auctions)
    requires BestAverageBuyout(auctions, n).Success?
    ensures t in BestAverageBuyout(auctions, n).value <==> t in Timestamps(auctions) && TotalPriced(Group(auctions, t)) >= n
    ensures t in BestAverageBuyout(auctions, n).value ==>
      BestAverageBuyout(auctions, n).value[t] == AverageOf(Group(auctions, t), n).value.value
  {
    if t in Timestamps(auctions) {
      AverageShort(Group(auctions, t), n);
    }
  }

  // ---------------------------------------------------------------------------
  // The database

  datatype Database = Database(items: seq<Item>, auctions: seq<Auction>)

  predicate Named(item: Item, name: string) {
    item.frenchName == Some(name) || item.englishName == Some(name)
  }

  /** No item before position `k` carries the name. */
  predicate Before(items: seq<Item>, k: int, name: string)
    requires 0 <= k <= |items|
  {
    forall j :: 0 <= j < k ==> !Named(items[j], name)
  }

  /** findItemByName: the first item carrying the name in either language. */
  function FindItemByName(items: seq<Item>, name: string): (r: Option<Item>)
    ensures r.None? <==> forall k :: 0 <= k < |items| ==> !Named(items[k], name)
    ensures r.Some? ==> exists k :: 0 <= k < |items| && items[k] == r.value && Named(r.value, name) && Before(items, k, name)
    decreases |items|
  {
    if items == [] then None
    else if Named(items[0], name) then Some(items[0])
    else
      var r := FindItemByName(items[1..], name);
      assert forall k :: 0 < k < |items| ==> items[1..][k - 1] == items[k];
      if r.Some? then
        var k :| 0 <= k < |items[1..]| && items[1..][k] == r.value && Named(r.value, name) && Before(items[1..], k, name);
        assert items[k + 1] == r.value;
        assert Before(items, k + 1, name) by {
          forall j | 0 <= j < k + 1 ensures !Named(items[j], name) {
            if j > 0 {
              assert items[j] == items[1..][j - 1];
            }
          }
        }
        r
      else
        r
  }

  /** The listings of one item (auctionsPerItem), or UnknownItem when it has none. */
  function AuctionsOf(db: Database, itemId: int): (r: Result<seq<Auction>, AnalyticsError>)
    requires Positive(db.auctions)
    ensures r.Failure? <==> forall a :: a in db.auctions ==> a.itemId != itemId
    ensures r.Failure? ==> r.error == UnknownItem(itemId)
    ensures r.Success? ==> Positive(r.value) && forall a :: a in r.value <==> a in db.auctions && a.itemId == itemId
  {
    var auctions := ItemFilter(db.auctions, itemId);
    assert auctions != [] ==> auctions[0] in auctions;
    if auctions == [] then Failure(UnknownItem(itemId)) else Success(auctions)
  }

  function ItemFilter(auctions: seq<Auction>, itemId: int): (r: seq<Auction>)
    ensures forall a :: a in r <==> a in auctions && a.itemId == itemId
    ensures Positive(auctions) ==> Positive(r)
    decreases |auctions|
  {
    if auctions == [] then []
    else
      var rest := ItemFilter(auctions[1..], itemId);
      assert forall a :: a in auctions <==> a == auctions[0] || a in auctions[1..];
      assert Positive(auctions) ==> Positive(auctions[1..]) by {
        if Positive(auctions) {
          forall k | 0 <= k < |auctions[1..]| ensures auctions[1..][k].quantity > 0 {
            assert auctions[1..][k] == auctions[k + 1];
          }
        }
      }
      (if auctions[0].itemId == itemId then [auctions[0]] else []) + rest
  }

  /** Database.bestBuyout: the best buyout per snapshot of a known item. */
  function DatabaseBestBuyout(db: Database, itemId: int): (r: Result<map<int, real>, AnalyticsError>)
    requires Positive(db.auctions)
    ensures r.Failure? <==> forall a :: a in db.auctions ==> a.itemId != itemId
    ensures r.Failure? ==> r.error == UnknownItem(itemId)
    ensures r.Success? ==> AuctionsOf(db, itemId).Success? && r.value == BestBuyout(AuctionsOf(db, itemId).value)
    ensures r.Success? ==> forall t :: t in r.value ==>
      exists a :: a in db.auctions && a.itemId == itemId && a.timestamp == t && a.buyout.Some? && r.value[t] == UnitBuyout(a)
  {
    var auctions :- AuctionsOf(db, itemId);
    var best := BestBuyout(auctions);
    assert forall t :: t in best ==>
      exists a :: a in auctions && a.timestamp == t && a.buyout.Some? && best[t] == UnitBuyout(a) by {
      forall t | t in best
        ensures exists a :: a in auctions && a.timestamp == t && a.buyout.Some? && best[t] == UnitBuyout(a) {
        BestBuyoutIsMinimum(auctions, t);
      }
    }
    Success(best)
  }

  /** Database.bestAverageBuyout on a known item. */
  function DatabaseBestAverageBuyout(db: Database, itemId: int, n: int): (r: Result<map<int, real>, AnalyticsError>)
    requires Positive(db.auctions)
    ensures (forall a :: a in db.auctions ==> a.itemId != itemId) ==> r == Failure(UnknownItem(itemId))
    ensures (exists a :: a in db.auctions && a.itemId == itemId) ==> r == BestAverageBuyout(AuctionsOf(db, itemId).value, n)
  {
    var auctions :- AuctionsOf(db, itemId);
    BestAverageBuyout(auctions, n)
  }

  predicate IsMax(m: int, s: set<int>) {
    m in s && forall x :: x in s ==> x <= m
  }

  lemma {:induction false} MaxExists(s: set<int>)
    requires s != {}
    ensures exists m :: IsMax(m, s)
    decreases |s|
  {
    if forall z :: z !in s {
      assert false;
    }
    var y :| y in s;
    if s == {y} {
      assert IsMax(y, s);
    } else {
      var rest := s - {y};
      MaxExists(rest);
      var m :| IsMax(m, rest);
      forall x | x in s ensures x == y || x in rest {}
      if y > m {
        assert IsMax(y, s);
      } else {
        assert IsMax(m, s);
      }
    }
  }

  /** The greatest key, which is where a sorted map ends. */
  function MaxKey(s: set<int>): (r: int)
    requires s != {}
    ensures IsMax(r, s)
  {
    MaxExists(s);
    var m :| IsMax(m, s);
    m
  }

  /** latestBestBuyout: the best buyout of the latest snapshot that has one. */
  function LatestBestBuyout(db: Database, itemId: int): (r: Result<real, AnalyticsError>)
    requires Positive(db.auctions)
    ensures (forall a :: a in db.auctions ==> a.itemId != itemId) ==> r == Failure(UnknownItem(itemId))
    ensures r.Success? ==> exists t :: IsMax(t, DatabaseBestBuyout(db, itemId).value.Keys) && r.value == DatabaseBestBuyout(db, itemId).value[t]
  {
    var best :- DatabaseBestBuyout(db, itemId);
    if best == map[] then Failure(NoSuchElement) else Success(best[MaxKey(best.Keys)])
  }

  /** The latest best buyout fails with NoSuchElement exactly when no listing of the item is priced. */
  lemma LatestBestBuyoutUnpriced(db: Database, itemId: int)
    requires Positive(db.auctions)
    requires exists a :: a in db.auctions && a.itemId == itemId
    ensures LatestBestBuyout(db, itemId) == Failure(NoSuchElement) <==>
      forall a :: a in db.auctions && a.itemId == itemId ==> a.buyout.None?
  {
    var auctions := AuctionsOf(db, itemId).value;
    if a :| a in db.auctions && a.itemId == itemId && a.buyout.Some? {
      BestBuyoutKeys(auctions, a.timestamp);
    }
    if LatestBestBuyout(db, itemId) != Failure(NoSuchElement) {
      var t :| t in BestBuyout(auctions);
      BestBuyoutKeys(auctions, t);
    }
  }

  // ---------------------------------------------------------------------------
  // Merging item names

  /**
   * buildItem: a complete newcomer replaces the item; otherwise each name already known
   * is kept and a missing one is taken from the newcomer.
   */
  function BuildItem(item: Option<Item>, next: Item): (r: Item)
    ensures r.id == next.id
    ensures item.None? || Complete(next) ==> r == next
    ensures item.Some? && !Complete(next) ==>
      r.frenchName == (if item.value.frenchName.Some? then item.value.frenchName else next.frenchName) &&
      r.englishName == (if item.value.englishName.Some? then item.value.englishName else next.englishName)
  {
    if item.None? || Complete(next) then next
    else Item(next.id, if item.value.frenchName.Some? then item.value.frenchName else next.frenchName,
                       if item.value.englishName.Some? then item.value.englishName else next.englishName)
  }

  /** A name, once known, is never lost, and merging an item with itself changes nothing. */
  lemma BuildItemKeepsNames(item: Item, next: Item)
    ensures item.frenchName.Some? || next.frenchName.Some? ==> BuildItem(Some(item), next).frenchName.Some?
    ensures item.englishName.Some? || next.englishName.Some? ==> BuildItem(Some(item), next).englishName.Some?
    ensures BuildItem(Some(next), next) == next
  {
  }
}
