/**
 * The stand-alone tool's analysis: the best buyout of an item per snapshot and per
 * day, and its first wish list, in which an entry is an item and an optional price.
 * Its items, listings, findItemByName, buildItem, ItemAuctions.bestBuyout and the
 * loading of result files are those of the server, so the model uses the server's.
 * The day of a time depends on the system's time zone, which is a parameter here.
 */
module LegacyMain {
  import opened Wrappers
  import opened Lists
  import opened ServerMain

  // ---------------------------------------------------------------------------
  // Analyzer

  /** Analyzer.bestBuyout(itemId): the best buyout per snapshot of a listed item. */
  function AnalyzerBestBuyout(auctions: seq<Auction>, itemId: int): (r: Result<map<int, real>, AnalyticsError>)
    requires Positive(auctions)
    ensures r.Failure? <==> forall a :: a in auctions ==> a.itemId != itemId
    ensures r.Failure? ==> r.error == UnknownItem(itemId)
  {
    var listed := ItemFilter(auctions, itemId);
    assert listed != [] ==> listed[0] in listed;
    if listed == [] then Failure(UnknownItem(itemId)) else Success(BestBuyout(listed))
  }

  /** The tool's analyzer and the server's database answer bestBuyout alike. */
  lemma AnalyzerAgreesWithServer(db: Database, itemId: int)
    requires Positive(db.auctions)
    ensures AnalyzerBestBuyout(db.auctions, itemId) == DatabaseBestBuyout(db, itemId)
  {
  }

  /** The days on which some listing was seen. */
  function Days(auctions: seq<Auction>, day: int -> int): set<int> {
    set k | 0 <= k < |auctions| :: day(auctions[k].timestamp)
  }

  /** The listings of every snapshot of one day (the flattened groups of that day). */
  function DayGroup(auctions: seq<Auction>, day: int -> int, d: int): (r: seq<Auction>)
    ensures forall a :: a in r <==> a in auctions && day(a.timestamp) == d
    ensures Positive(auctions) ==> Positive(r)
    decreases |auctions|
  {
    if auctions == [] then []
    else
      var rest := DayGroup(auctions[1..], day, d);
      assert forall a :: a in auctions <==> a == auctions[0] || a in auctions[1..];
      assert Positive(auctions) ==> Positive(auctions[1..]) by {
        if Positive(auctions) {
          forall k | 0 <= k < |auctions[1..]| ensures auctions[1..][k].quantity > 0 {
            assert auctions[1..][k] == auctions[k + 1];
          }
        }
      }
      (if day(auctions[0].timestamp) == d then [auctions[0]] else []) + rest
  }

  /** ItemAuctions.bestBuyoutPerDay: for each day with a priced listing, its lowest unit buyout. */
  function BestBuyoutPerDay(auctions: seq<Auction>, day: int -> int): map<int, real>
    requires Positive(auctions)
  {
    map d | d in Days(auctions, day) && UnitPrices(DayGroup(auctions, day, d)) != [] ::
      Min(UnitPrices(DayGroup(auctions, day, d)))
  }

  /** A day has a best buyout exactly when one of its listings has a buyout. */
  lemma PerDayKeys(auctions: seq<Auction>, day: int -> int, d: int)
    requires Positive(auctions)
    ensures d in BestBuyoutPerDay(auctions, day) <==>
      exists a :: a in auctions && day(a.timestamp) == d && a.buyout.Some?
  {
    var g := DayGroup(auctions, day, d);
    if a :| a in auctions && day(a.timestamp) == d && a.buyout.Some? {
      assert UnitBuyout(a) in UnitPrices(g);
      var k :| 0 <= k < |auctions| && auctions[k] == a;
      assert d in Days(auctions, day);
    }
    if d in BestBuyoutPerDay(auctions, day) {
      var x := UnitPrices(g)[0];
      assert x in UnitPrices(g);
    }
  }

  /** The best buyout of a day is the unit buyout of one of its listings, and none is lower. */
  lemma PerDayIsMinimum(auctions: seq<Auction>, day: int -> int, d: int)
    requires Positive(auctions)
    requires d in BestBuyoutPerDay(auctions, day)
    ensures forall a :: a in auctions && day(a.timestamp) == d && a.buyout.Some? ==>
      BestBuyoutPerDay(auctions, day)[d] <= UnitBuyout(a)
    ensures exists a :: (a in auctions && day(a.timestamp) == d && a.buyout.Some? &&
      BestBuyoutPerDay(auctions, day)[d] == UnitBuyout(a))
  {
    var prices := UnitPrices(DayGroup(auctions, day, d));
    assert BestBuyoutPerDay(auctions, day)[d] == Min(prices);
    assert Min(prices) in prices;
  }

  /** Snapshot `t` has a best buyout and falls on day `d`. */
  predicate SnapshotOf(best: map<int, real>, t: int, day: int -> int, d: int) {
    t in best && day(t) == d
  }

  /** A day has a best buyout exactly when one of its snapshots has one. */
  lemma PerDaySnapshotKeys(auctions: seq<Auction>, day: int -> int, d: int)
    requires Positive(auctions)
    ensures d in BestBuyoutPerDay(auctions, day) <==> exists t :: SnapshotOf(BestBuyout(auctions), t, day, d)
  {
    PerDayKeys(auctions, day, d);
    if t :| SnapshotOf(BestBuyout(auctions), t, day, d) {
      BestBuyoutKeys(auctions, t);
    }
    if a :| a in auctions && day(a.timestamp) == d && a.buyout.Some? {
      BestBuyoutKeys(auctions, a.timestamp);
      assert SnapshotOf(BestBuyout(auctions), a.timestamp, day, d);
    }
  }

  /** The best buyout of a day is no higher than that of any of its snapshots. */
  lemma PerDayBelowSnapshots(auctions: seq<Auction>, day: int -> int, d: int, t: int)
    requires Positive(auctions)
    requires d in BestBuyoutPerDay(auctions, day) && SnapshotOf(BestBuyout(auctions), t, day, d)
    ensures BestBuyoutPerDay(auctions, day)[d] <= BestBuyout(auctions)[t]
  {
    BestBuyoutIsMinimum(auctions, t);
    var b :| b in auctions && b.timestamp == t && b.buyout.Some? && BestBuyout(auctions)[t] == UnitBuyout(b);
    PerDayIsMinimum(auctions, day, d);
  }

  /** The best buyout of a day is that of one of its snapshots. */
  lemma PerDayIsSnapshot(auctions: seq<Auction>, day: int -> int, d: int)
    requires Positive(auctions)
    requires d in BestBuyoutPerDay(auctions, day)
    ensures exists t :: SnapshotOf(BestBuyout(auctions), t, day, d) && BestBuyoutPerDay(auctions, day)[d] == BestBuyout(auctions)[t]
  {
    PerDayIsMinimum(auctions, day, d);
    var a :| a in auctions && day(a.timestamp) == d && a.buyout.Some? && BestBuyoutPerDay(auctions, day)[d] == UnitBuyout(a);
    BestBuyoutKeys(auctions, a.timestamp);
    assert SnapshotOf(BestBuyout(auctions), a.timestamp, day, d);
    PerDayBelowSnapshots(auctions, day, d, a.timestamp);
    BestBuyoutIsMinimum(auctions, a.timestamp);
  }

  /** Analyzer.bestBuyoutPerDay(itemId). */
  function AnalyzerBestBuyoutPerDay(auctions: seq<Auction>, itemId: int, day: int -> int): (r: Result<map<int, real>, AnalyticsError>)
    requires Positive(auctions)
    ensures r.Failure? <==> forall a :: a in auctions ==> a.itemId != itemId
    ensures r.Failure? ==> r.error == UnknownItem(itemId)
    ensures r.Success? ==> r.value == BestBuyoutPerDay(ItemFilter(auctions, itemId), day)
  {
    var listed := ItemFilter(auctions, itemId);
    assert listed != [] ==> listed[0] in listed;
    if listed == [] then Failure(UnknownItem(itemId)) else Success(BestBuyoutPerDay(listed, day))
  }

  // ---------------------------------------------------------------------------
  // Wish list

  datatype WishListItem = WishListItem(id: int, price: Option<int>)

  datatype WishListItemConfig = WishListItemConfig(name: string, price: Option<int>)

  /** The wish-list entry of one configured entry, when its name is an item of the database. */
  function Entry(items: seq<Item>, config: WishListItemConfig): (r: Option<WishListItem>)
    ensures r.None? <==> FindItemByName(items, config.name).None?
    ensures r.Some? ==> r.value.id == FindItemByName(items, config.name).value.id && r.value.price == config.price
  {
    match FindItemByName(items, config.name)
    case None => None
    case Some(item) => Some(WishListItem(item.id, config.price))
  }

  /** loadWishList with the configuration already decoded. */
  function LoadWishList(items: seq<Item>, configs: seq<WishListItemConfig>): seq<WishListItem> {
    MapNotNull(configs, config => Entry(items, config))
  }

  /**
   * The configuration is read entry by entry in order: the list of a concatenation is
   * the concatenation of the lists, and one entry gives the first item carrying its
   * name with its price or, when no item carries the name, nothing.
   */
  lemma LoadWishListOrder(items: seq<Item>, a: seq<WishListItemConfig>, b: seq<WishListItemConfig>, config: WishListItemConfig)
    ensures LoadWishList(items, a + b) == LoadWishList(items, a) + LoadWishList(items, b)
    ensures LoadWishList(items, [config]) ==
      if forall k :: 0 <= k < |items| ==> !Named(items[k], config.name) then []
      else [WishListItem(FindItemByName(items, config.name).value.id, config.price)]
  {
    MapNotNullAppend(a, b, config => Entry(items, config));
    MapNotNullOne(config, config => Entry(items, config));
  }

  /** Every loaded entry comes from a configured entry, with its price, and names an item's id. */
  lemma LoadWishListSources(items: seq<Item>, configs: seq<WishListItemConfig>, w: WishListItem)
    requires w in LoadWishList(items, configs)
    ensures exists config :: config in configs && Entry(items, config) == Some(w) && w.price == config.price
    ensures exists k :: 0 <= k < |items| && items[k].id == w.id
  {
    var config :| config in configs && Entry(items, config) == Some(w);
    var item := FindItemByName(items, config.name).value;
    var k :| 0 <= k < |items| && items[k] == item && Named(item, config.name) && Before(items, k, config.name);
  }
}
