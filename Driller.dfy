/**
 * The native reader of the Auctionator save file: the same rewriting with a fixed
 * "\n" separator and the same choice of name slot by language, but the snapshot time
 * is kept as the decimal text of its epoch seconds instead of an Instant, so no time
 * is out of range. The JSON decoder is a parameter of the model.
 */
module Driller {
  import opened Wrappers
  import opened Text
  import opened LinkedSet
  import opened SnapshotRewriter
  import opened ServerMain
  import opened AuctionatorParser

  const DRILLER_SEPARATOR := "\n"

  datatype DrillerAuction = DrillerAuction(itemId: int, quantity: int, bid: int, buyout: Option<int>, timestamp: string)

  datatype DrillerResult = DrillerResult(language: Language, items: seq<Item>, auctions: seq<DrillerAuction>, timestamp: string)

  /** buyoutByUnit of the native reader's listing. */
  function DrillerBuyoutByUnit(a: DrillerAuction): (r: Option<real>)
    requires a.quantity > 0
    ensures r.None? <==> a.buyout.None?
    ensures r.Some? ==> r.value * a.quantity as real == a.buyout.value as real
  {
    if a.buyout.None? then None else Some(a.buyout.value as real / a.quantity as real)
  }

  function DrillerListing(a: AuctionatorAuction, timestamp: string): (r: DrillerAuction)
    ensures r.itemId == a.i && r.quantity == a.q && r.bid == a.s && r.timestamp == timestamp
    ensures r.buyout.None? <==> a.b == 0
    ensures r.buyout.Some? ==> r.buyout.value == a.b
  {
    DrillerAuction(a.i, a.q, a.s, if a.b == 0 then None else Some(a.b), timestamp)
  }

  function DrillerListings(entries: seq<AuctionatorAuction>, timestamp: string): (r: seq<DrillerAuction>)
    ensures |r| == |entries|
    ensures forall k :: 0 <= k < |r| ==> r[k] == DrillerListing(entries[k], timestamp)
  {
    seq(|entries|, k requires 0 <= k < |entries| => DrillerListing(entries[k], timestamp))
  }

  /** The mapping after decoding; it cannot fail. */
  function DrillerFromSnapshot(o: AuctionatorSnapshot, language: Language): (r: DrillerResult)
    ensures r.language == language && r.timestamp == LongToString(o.snapshotAt)
    ensures Distinct(r.items) && |r.auctions| == |o.auctions|
    ensures forall k :: 0 <= k < |r.auctions| ==> r.auctions[k].timestamp == r.timestamp
  {
    var timestamp := LongToString(o.snapshotAt);
    DrillerResult(language, Dedup(CreateItems(o.auctions, language)), DrillerListings(o.auctions, timestamp), timestamp)
  }

  function DrillerParse(lines: seq<string>, language: Language,
                        decode: string -> Option<AuctionatorSnapshot>): Result<DrillerResult, ParseError>
  {
    match decode(Rewrite(lines, DRILLER_SEPARATOR))
    case None => Failure(MalformedSnapshot)
    case Some(o) => Success(DrillerFromSnapshot(o, language))
  }

  /** parseAuctionerFile(lines, language) of the native reader. */
  method ParseDrillerLines(lines: seq<string>, language: Language,
                           decode: string -> Option<AuctionatorSnapshot>) returns (r: Result<DrillerResult, ParseError>)
    ensures r == DrillerParse(lines, language, decode)
  {
    var s := RewriteSnapshot(lines, DRILLER_SEPARATOR);
    var o := decode(s);
    if o.None? {
      return Failure(MalformedSnapshot);
    }
    r := Success(DrillerFromSnapshot(o.value, language));
  }

  /** The timestamp text reads back as the snapshot's epoch seconds. */
  lemma TimestampReadsBack(o: AuctionatorSnapshot, language: Language)
    requires LONG_MIN <= o.snapshotAt <= LONG_MAX
    ensures ParseLong(DrillerFromSnapshot(o, language).timestamp) == Some(o.snapshotAt)
  {
    ParseLongToString(o.snapshotAt);
  }

  /**
   * Where the server's reader succeeds, both readers give the same items and listings
   * that agree field by field, with the time kept once as a number and once as text.
   */
  lemma AgreesWithServer(o: AuctionatorSnapshot, language: Language)
    requires FromSnapshot(o, language).Success?
    ensures DrillerFromSnapshot(o, language).items == FromSnapshot(o, language).value.items
    ensures forall k :: 0 <= k < |o.auctions| ==>
      var d := DrillerFromSnapshot(o, language).auctions[k];
      var a := FromSnapshot(o, language).value.auctions[k];
      d.itemId == a.itemId && d.quantity == a.quantity && d.bid == a.bid && d.buyout == a.buyout &&
      d.timestamp == LongToString(a.timestamp)
  {
  }
}
