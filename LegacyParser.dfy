/**
 * The first reader of the Auctionator save file, from the stand-alone tool: the same
 * rewriting of the snapshot, but every item name is taken as French and the buyout of
 * every entry is kept as it is, so an entry saved with a buyout of 0 counts as priced
 * at 0. The JSON decoder is a parameter of the model.
 */
module LegacyParser {
  import opened Wrappers
  import opened LinkedSet
  import opened SnapshotRewriter
  import opened ServerMain
  import opened AuctionatorParser
  import TsmParser

  datatype LegacyResult = LegacyResult(items: seq<Item>, auctions: seq<Auction>)

  function LegacyItem(a: AuctionatorAuction): (r: Item)
    ensures r.id == a.i && r.frenchName == Some(a.n) && r.englishName.None?
  {
    Item(a.i, Some(a.n), None)
  }

  /** The listing of an entry, its buyout always present. */
  function LegacyAuction(a: AuctionatorAuction, timestamp: int): (r: Auction)
    ensures r.itemId == a.i && r.quantity == a.q && r.bid == a.s && r.timestamp == timestamp
    ensures r.buyout == Some(a.b)
  {
    Auction(a.i, a.q, a.s, Some(a.b), timestamp)
  }

  function LegacyItems(entries: seq<AuctionatorAuction>): (r: seq<Item>)
    ensures |r| == |entries|
    ensures forall k :: 0 <= k < |r| ==> r[k] == LegacyItem(entries[k])
  {
    seq(|entries|, k requires 0 <= k < |entries| => LegacyItem(entries[k]))
  }

  function LegacyAuctions(entries: seq<AuctionatorAuction>, timestamp: int): (r: seq<Auction>)
    ensures |r| == |entries|
    ensures forall k :: 0 <= k < |r| ==> r[k] == LegacyAuction(entries[k], timestamp)
  {
    seq(|entries|, k requires 0 <= k < |entries| => LegacyAuction(entries[k], timestamp))
  }

  function LegacyFromSnapshot(o: AuctionatorSnapshot): (r: Result<LegacyResult, ParseError>)
    ensures r.Failure? <==> !(TsmParser.INSTANT_MIN_SECONDS <= o.snapshotAt <= TsmParser.INSTANT_MAX_SECONDS)
    ensures r.Success? ==> Distinct(r.value.items) && |r.value.auctions| == |o.auctions|
    ensures r.Success? ==> forall k :: 0 <= k < |o.auctions| ==>
      r.value.auctions[k] == LegacyAuction(o.auctions[k], o.snapshotAt) && LegacyItem(o.auctions[k]) in r.value.items
    ensures r.Success? ==> forall item :: item in r.value.items ==>
      exists k :: 0 <= k < |o.auctions| && item == LegacyItem(o.auctions[k])
  {
    if TsmParser.INSTANT_MIN_SECONDS <= o.snapshotAt <= TsmParser.INSTANT_MAX_SECONDS then
      var names := LegacyItems(o.auctions);
      assert forall k :: 0 <= k < |o.auctions| ==> names[k] in names;
      Success(LegacyResult(Dedup(names), LegacyAuctions(o.auctions, o.snapshotAt)))
    else
      Failure(InstantOutOfRange(o.snapshotAt))
  }

  function LegacyParse(lines: seq<string>, lineSeparator: string,
                       decode: string -> Option<AuctionatorSnapshot>): Result<LegacyResult, ParseError>
  {
    match decode(Rewrite(lines, lineSeparator))
    case None => Failure(MalformedSnapshot)
    case Some(o) => LegacyFromSnapshot(o)
  }

  /** parseAuctionerFile of the stand-alone tool, without writing the result file. */
  method ParseLegacyFile(lines: seq<string>, lineSeparator: string,
                         decode: string -> Option<AuctionatorSnapshot>) returns (r: Result<LegacyResult, ParseError>)
    ensures r == LegacyParse(lines, lineSeparator, decode)
  {
    var s := RewriteSnapshot(lines, lineSeparator);
    var o := decode(s);
    if o.None? {
      return Failure(MalformedSnapshot);
    }
    r := LegacyFromSnapshot(o.value);
  }

  /**
   * An entry saved without a buyout: the server's reader leaves it unpriced, while this
   * reader prices it at 0, which then is the best buyout of its snapshot whenever no
   * buyout of that snapshot is negative.
   */
  lemma ZeroBuyout(o: AuctionatorSnapshot, k: nat)
    requires LegacyFromSnapshot(o).Success?
    requires k < |o.auctions| && o.auctions[k].b == 0
    requires forall j :: 0 <= j < |o.auctions| ==> o.auctions[j].q > 0 && o.auctions[j].b >= 0
    ensures BuyoutByUnit(ToAuction(o.auctions[k], o.snapshotAt)).None?
    ensures Positive(LegacyFromSnapshot(o).value.auctions)
    ensures BestBuyout(LegacyFromSnapshot(o).value.auctions)[o.snapshotAt] == 0.0
  {
    var auctions := LegacyFromSnapshot(o).value.auctions;
    assert auctions == LegacyAuctions(o.auctions, o.snapshotAt);
    BestIsZero(auctions, o.snapshotAt, k);
  }

  lemma BestIsZero(auctions: seq<Auction>, t: int, k: nat)
    requires Positive(auctions)
    requires k < |auctions| && auctions[k].timestamp == t && auctions[k].buyout == Some(0)
    requires forall j :: 0 <= j < |auctions| && auctions[j].buyout.Some? ==> auctions[j].buyout.value >= 0
    ensures t in BestBuyout(auctions) && BestBuyout(auctions)[t] == 0.0
  {
    var zero := auctions[k];
    assert zero in auctions;
    BestBuyoutKeys(auctions, t);
    BestBuyoutIsMinimum(auctions, t);
    var a :| a in auctions && a.timestamp == t && a.buyout.Some? && BestBuyout(auctions)[t] == UnitBuyout(a);
    var j :| 0 <= j < |auctions| && auctions[j] == a;
    NonNegativeQuotient(a.buyout.value as real, a.quantity as real);
    NonNegativeQuotient(zero.buyout.value as real, zero.quantity as real);
    var best := BestBuyout(auctions)[t];
    assert best <= UnitBuyout(zero) == 0.0;
    assert best == UnitBuyout(a) >= 0.0;
  }

  lemma NonNegativeQuotient(x: real, y: real)
    requires x >= 0.0 && y > 0.0
    ensures x / y >= 0.0
    ensures x == 0.0 ==> x / y == 0.0
  {
    assert (x / y) * y == x;
  }
}
