/**
 * The server's reader of the Auctionator save file: the snapshot text is rewritten
 * into JSON, decoded, and turned into the items it names and one auction listing per
 * entry, all stamped with the snapshot's time. A listing without a buyout is saved
 * with a buyout of 0, which is read back as no buyout. The JSON decoder is a
 * parameter of the model.
 */
module AuctionatorParser {
  import opened Wrappers
  import opened LinkedSet
  import opened SnapshotRewriter
  import opened ServerMain
  import TsmParser

  datatype Language = French | English

  /** One entry of the snapshot: quantity, bid, buyout, item id and item name. */
  datatype AuctionatorAuction = AuctionatorAuction(q: int, s: int, b: int, i: int, n: string)

  datatype AuctionatorSnapshot = AuctionatorSnapshot(snapshotAt: int, auctions: seq<AuctionatorAuction>)

  datatype ParserResult = ParserResult(language: Language, items: seq<Item>, auctions: seq<Auction>, timestamp: int)

  datatype ParseError =
    | MalformedSnapshot               // the rewritten text is not a snapshot
    | InstantOutOfRange(seconds: int) // Instant.ofEpochSecond beyond the Instant range

  /** createItem: the entry's name goes in the slot of the game client's language. */
  function CreateItem(a: AuctionatorAuction, language: Language): (r: Item)
    ensures r.id == a.i && Named(r, a.n) && !Complete(r)
    ensures language == French <==> r.frenchName.Some?
  {
    match language
    case French => Item(a.i, Some(a.n), None)
    case English => Item(a.i, None, Some(a.n))
  }

  /** The listing of an entry; a zero buyout means the entry has none. */
  function ToAuction(a: AuctionatorAuction, timestamp: int): (r: Auction)
    ensures r.itemId == a.i && r.quantity == a.q && r.bid == a.s && r.timestamp == timestamp
    ensures r.buyout.None? <==> a.b == 0
    ensures r.buyout.Some? ==> r.buyout.value == a.b
  {
    Auction(a.i, a.q, a.s, if a.b == 0 then None else Some(a.b), timestamp)
  }

  function CreateItems(entries: seq<AuctionatorAuction>, language: Language): (r: seq<Item>)
    ensures |r| == |entries|
    ensures forall k :: 0 <= k < |r| ==> r[k] == CreateItem(entries[k], language)
  {
    seq(|entries|, k requires 0 <= k < |entries| => CreateItem(entries[k], language))
  }

  function ToAuctions(entries: seq<AuctionatorAuction>, timestamp: int): (r: seq<Auction>)
    ensures |r| == |entries|
    ensures forall k :: 0 <= k < |r| ==> r[k] == ToAuction(entries[k], timestamp)
  {
    seq(|entries|, k requires 0 <= k < |entries| => ToAuction(entries[k], timestamp))
  }

  /** What the decoded snapshot gives: its time must be an Instant; items are kept once each. */
  function FromSnapshot(o: AuctionatorSnapshot, language: Language): (r: Result<ParserResult, ParseError>)
    ensures r.Failure? <==> !(TsmParser.INSTANT_MIN_SECONDS <= o.snapshotAt <= TsmParser.INSTANT_MAX_SECONDS)
    ensures r.Failure? ==> r.error == InstantOutOfRange(o.snapshotAt)
    ensures r.Success? ==> r.value.language == language && r.value.timestamp == o.snapshotAt
    ensures r.Success? ==> Distinct(r.value.items) && |r.value.auctions| == |o.auctions|
  {
    if TsmParser.INSTANT_MIN_SECONDS <= o.snapshotAt <= TsmParser.INSTANT_MAX_SECONDS then
      Success(ParserResult(language, Dedup(CreateItems(o.auctions, language)), ToAuctions(o.auctions, o.snapshotAt), o.snapshotAt))
    else
      Failure(InstantOutOfRange(o.snapshotAt))
  }

  /** The whole reading, with `decode` standing for the JSON decoder. */
  function Parse(lines: seq<string>, language: Language, lineSeparator: string,
                 decode: string -> Option<AuctionatorSnapshot>): Result<ParserResult, ParseError>
  {
    match decode(Rewrite(lines, lineSeparator))
    case None => Failure(MalformedSnapshot)
    case Some(o) => FromSnapshot(o, language)
  }

  /** parseAuctionerFile: rewrite the snapshot lines, decode them, build the result. */
  method ParseAuctionerFile(lines: seq<string>, language: Language, lineSeparator: string,
                            decode: string -> Option<AuctionatorSnapshot>) returns (r: Result<ParserResult, ParseError>)
    ensures r == Parse(lines, language, lineSeparator, decode)
  {
    var s := RewriteSnapshot(lines, lineSeparator);
    var o := decode(s);
    if o.None? {
      return Failure(MalformedSnapshot);
    }
    r := FromSnapshot(o.value, language);
  }

  /**
   * Every listing of a parsed snapshot has its item among the items, named as in the
   * entry, and every item comes from an entry.
   */
  lemma ItemsCoverAuctions(o: AuctionatorSnapshot, language: Language)
    requires FromSnapshot(o, language).Success?
    ensures forall k :: 0 <= k < |o.auctions| ==>
      CreateItem(o.auctions[k], language) in FromSnapshot(o, language).value.items &&
      FromSnapshot(o, language).value.auctions[k].itemId == o.auctions[k].i
    ensures forall item :: item in FromSnapshot(o, language).value.items ==>
      exists k :: 0 <= k < |o.auctions| && item == CreateItem(o.auctions[k], language)
  {
    var created := CreateItems(o.auctions, language);
    forall k | 0 <= k < |o.auctions| ensures CreateItem(o.auctions[k], language) in Dedup(created) {
      assert created[k] in created;
    }
  }
}
