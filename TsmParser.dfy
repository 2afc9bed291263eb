/**
 * Reading TradeSkillMaster's save file: cutting out its database section, the
 * navigation helpers over the built tree, the header-driven CSV reader for the
 * buy and sale logs, the trade-row builder, and the keys under which the stock
 * of each character and slot is stored.
 */
module TsmParser {
  import opened Wrappers
  import opened Text
  import opened LinkedMap
  import opened Ast

  datatype OperationType = Buy | Sell

  /** A trade; `time` is the Instant in epoch seconds. */
  datatype Operation = Operation(
    kind: OperationType, item: int, stackSize: int, quantity: int, price: int,
    otherPlayer: string, player: string, time: int)

  /** What the extraction throws. */
  datatype TsmError =
    | NotGoodFormat                   // IllegalArgumentException of the get* helpers
    | IndexOutOfBounds(index: nat)    // a row with more fields than the header
    | MissingField(name: string)      // `!!` on an absent column
    | NumberFormat(text: string)      // toLong on a non-number
    | InstantOutOfRange(seconds: int) // Instant.ofEpochSecond beyond the Instant range

  /** The epoch seconds of Instant.MIN and Instant.MAX. */
  const INSTANT_MIN_SECONDS: int := -31557014167219200
  const INSTANT_MAX_SECONDS: int := 31556889864403199

  // ---------------------------------------------------------------------------
  // The database section of the save file

  const DB_START := "TradeSkillMasterDB"
  const DB_END := "TSMItemInfoDB"

  /** A line without its trailing Lua comment (everything from the last `--` on). */
  function CleanTsmLine(line: string): (r: string)
    ensures r <= line
    ensures !Contains(line, "--") ==> r == line
  {
    SubstringBeforeLast(line, "--")
  }

  /** What one line adds to the section: `{` for the start line, nothing (and stop) for the end line. */
  function SectionPiece(line: string): Option<string> {
    var clean := CleanTsmLine(line);
    if StartsWith(clean, DB_START) then Some("{")
    else if StartsWith(clean, DB_END) then None
    else Some(clean)
  }

  /** The pieces of the lines, concatenated, up to the first end line. */
  function DbSection(lines: seq<string>): string
    decreases |lines|
  {
    if lines == [] then ""
    else match SectionPiece(lines[0])
      case None => ""
      case Some(piece) => piece + DbSection(lines[1..])
  }

  /** readDbSectionOfTsmFile, on the file's lines. */
  method ReadDbSection(lines: seq<string>) returns (text: string)
    ensures text == DbSection(lines)
  {
    text := "";
    var i := 0;
    while i < |lines|
      invariant 0 <= i <= |lines|
      invariant DbSection(lines) == text + DbSection(lines[i..])
    {
      var clean := CleanTsmLine(lines[i]);
      assert lines[i..][1..] == lines[i + 1..];
      if StartsWith(clean, DB_START) {
        text := text + "{";
      } else if StartsWith(clean, DB_END) {
        break;
      } else {
        text := text + clean;
      }
      i := i + 1;
    }
  }

  /** Nothing after the first end line matters. */
  lemma {:induction false} DbSectionStops(lines: seq<string>, k: nat)
    requires k < |lines| && SectionPiece(lines[k]).None?
    ensures DbSection(lines) == DbSection(lines[..k])
    decreases k
  {
    if k > 0 && SectionPiece(lines[0]).Some? {
      assert lines[1..][k - 1] == lines[k];
      DbSectionStops(lines[1..], k - 1);
      assert lines[1..][..k - 1] == lines[..k][1..];
    }
  }

  /** Lines before any end line are concatenated piece by piece, with no separator. */
  lemma {:induction false} DbSectionAppend(a: seq<string>, b: seq<string>)
    requires forall k :: 0 <= k < |a| ==> SectionPiece(a[k]).Some?
    ensures DbSection(a + b) == DbSection(a) + DbSection(b)
    decreases |a|
  {
    if a == [] {
      assert a + b == b;
    } else {
      assert (a + b)[0] == a[0];
      assert (a + b)[1..] == a[1..] + b;
      DbSectionAppend(a[1..], b);
    }
  }

  /** An ordinary line without a comment is copied as it is; the start line becomes `{`. */
  lemma SectionPieces(line: string)
    ensures StartsWith(CleanTsmLine(line), DB_START) ==> SectionPiece(line) == Some("{")
    ensures (!Contains(line, "--") && !StartsWith(line, DB_START) && !StartsWith(line, DB_END))
        ==> SectionPiece(line) == Some(line)
  {
  }

  // ---------------------------------------------------------------------------
  // Navigating the tree

  function GetContent(ast: LuaElement): (r: Result<seq<LuaElement>, TsmError>)
    ensures r.Success? <==> ast.LuaObject?
    ensures r.Success? ==> r.value == ast.content
    ensures r.Failure? ==> r.error == NotGoodFormat
  {
    if ast.LuaObject? then Success(ast.content) else Failure(NotGoodFormat)
  }

  /** getValue: the string of the first pair with that key. */
  function GetValue(ast: LuaElement, key: string): (r: Result<string, TsmError>)
    ensures r.Success? ==> ast.LuaObject? && exists m :: IsFirstPair(ast.content, key, m, StringLiteral(r.value))
    ensures forall m: nat, v: string :: ast.LuaObject? && IsFirstPair(ast.content, key, m, StringLiteral(v)) ==> r == Success(v)
    ensures r.Failure? ==> r.error == NotGoodFormat
  {
    if ast.LuaObject? then
      match GetElementByKey(ast, key)
      case Some(StringLiteral(v)) => Success(v)
      case _ => Failure(NotGoodFormat)
    else Failure(NotGoodFormat)
  }

  /** getObject: the object under the first pair with that key. */
  function GetObject(ast: LuaElement, key: string): (r: Result<LuaElement, TsmError>)
    ensures r.Success? ==> r.value.LuaObject? && ast.LuaObject? && exists m :: IsFirstPair(ast.content, key, m, r.value)
    ensures forall m: nat, v: LuaElement :: ast.LuaObject? && v.LuaObject? && IsFirstPair(ast.content, key, m, v) ==> r == Success(v)
    ensures r.Failure? ==> r.error == NotGoodFormat
  {
    if ast.LuaObject? then
      match GetElementByKey(ast, key)
      case Some(v) => if v.LuaObject? then Success(v) else Failure(NotGoodFormat)
      case None => Failure(NotGoodFormat)
    else Failure(NotGoodFormat)
  }

  /** The (key, value) of every pair child, in order; anonymous children are skipped. */
  function KVPairs(content: seq<LuaElement>): seq<(string, LuaElement)>
    decreases |content|
  {
    if content == [] then []
    else
      var last := content[|content| - 1];
      KVPairs(content[..|content| - 1]) + (if last.KV? then [(last.key, last.value)] else [])
  }

  /** getValues: key to value over the pair children; a repeated key keeps its last value. */
  function GetValues(ast: LuaElement): (r: Result<LinkedMap<string, LuaElement>, TsmError>)
    ensures r.Success? <==> ast.LuaObject?
    ensures r.Success? ==> Valid(r.value)
  {
    if ast.LuaObject? then Success(FromPairs(KVPairs(ast.content))) else Failure(NotGoodFormat)
  }

  predicate HasPair(content: seq<LuaElement>, k: string) {
    exists m :: 0 <= m < |content| && IsKeyed(content[m], k)
  }

  lemma HasPairSnoc(content: seq<LuaElement>, k: string)
    requires content != []
    ensures HasPair(content, k) <==> HasPair(content[..|content| - 1], k) || IsKeyed(content[|content| - 1], k)
  {
    var n := |content| - 1;
    var init := content[..n];
    if m :| 0 <= m < |content| && IsKeyed(content[m], k) {
      if m < n { assert init[m] == content[m]; }
    }
    if m :| 0 <= m < |init| && IsKeyed(init[m], k) {
      assert content[m] == init[m];
    }
  }

  /** FromPairs over the pairs of `content`, one child more at the end. */
  lemma GetValuesSnoc(content: seq<LuaElement>)
    requires content != []
    ensures var n := |content| - 1; var last := content[n];
      var before := FromPairs(KVPairs(content[..n]));
      FromPairs(KVPairs(content)) == if last.KV? then Put(before, last.key, last.value) else before
  {
    var n := |content| - 1;
    var last := content[n];
    var ps := KVPairs(content[..n]);
    if last.KV? {
      FromPairsSnoc(ps, (last.key, last.value));
    } else {
      assert KVPairs(content) == ps;
    }
  }

  /** A key of getValues is exactly the key of some pair child. */
  lemma {:induction false} GetValuesKeys(content: seq<LuaElement>, k: string)
    ensures k in FromPairs(KVPairs(content)).values <==> HasPair(content, k)
    decreases |content|
  {
    if content != [] {
      var n := |content| - 1;
      GetValuesKeys(content[..n], k);
      GetValuesSnoc(content);
      HasPairSnoc(content, k);
    }
  }

  /** The value getValues keeps for a key is the value of the last pair with that key. */
  lemma {:induction false} GetValuesLast(content: seq<LuaElement>, m: nat)
    requires m < |content| && content[m].KV?
    requires forall j :: m < j < |content| ==> !IsKeyed(content[j], content[m].key)
    ensures var r := FromPairs(KVPairs(content)).values;
      content[m].key in r && r[content[m].key] == content[m].value
    decreases |content|
  {
    var n := |content| - 1;
    var init := content[..n];
    GetValuesSnoc(content);
    if m < n {
      assert init[m] == content[m];
      forall j | m < j < |init| ensures !IsKeyed(init[j], content[m].key) {
        assert init[j] == content[j];
      }
      GetValuesLast(init, m);
    }
  }

  // ---------------------------------------------------------------------------
  // The CSV logs

  const FIELD_SEPARATOR := ","

  /** CsvParser.parse: field i of the row is named by header column i. */
  function ParseRow(header: string, line: string): (r: Result<LinkedMap<string, string>, TsmError>)
    ensures r.Success? <==> |Split(line, FIELD_SEPARATOR)| <= |Split(header, FIELD_SEPARATOR)|
    ensures r.Failure? ==> r.error == IndexOutOfBounds(|Split(header, FIELD_SEPARATOR)|)
    ensures r.Success? ==> Valid(r.value)
  {
    var columns := Split(header, FIELD_SEPARATOR);
    var fields := Split(line, FIELD_SEPARATOR);
    if |fields| > |columns| then Failure(IndexOutOfBounds(|columns|))
    else Success(FromPairs(Zip(columns, fields)))
  }

  function Zip(columns: seq<string>, fields: seq<string>): (r: seq<(string, string)>)
    requires |fields| <= |columns|
    ensures |r| == |fields|
    ensures forall i :: 0 <= i < |r| ==> r[i] == (columns[i], fields[i])
  {
    seq(|fields|, i requires 0 <= i < |fields| => (columns[i], fields[i]))
  }

  /** A column named once in the header holds the field at its position. */
  lemma RowField(header: string, line: string, i: nat)
    requires ParseRow(header, line).Success?
    requires i < |Split(line, FIELD_SEPARATOR)|
    requires forall j :: i < j < |Split(line, FIELD_SEPARATOR)| ==> Split(header, FIELD_SEPARATOR)[j] != Split(header, FIELD_SEPARATOR)[i]
    ensures var elems := ParseRow(header, line).value.values;
      Split(header, FIELD_SEPARATOR)[i] in elems && elems[Split(header, FIELD_SEPARATOR)[i]] == Split(line, FIELD_SEPARATOR)[i]
  {
    var columns := Split(header, FIELD_SEPARATOR);
    var fields := Split(line, FIELD_SEPARATOR);
    FromPairsLast(Zip(columns, fields), columns[i], i);
  }

  /** A column is present exactly when the row reaches it. */
  lemma RowColumns(header: string, line: string, name: string)
    requires ParseRow(header, line).Success?
    ensures var columns, fields := Split(header, FIELD_SEPARATOR), Split(line, FIELD_SEPARATOR);
      name in ParseRow(header, line).value.values <==> exists i :: 0 <= i < |fields| && columns[i] == name
  {
    var columns := Split(header, FIELD_SEPARATOR);
    var fields := Split(line, FIELD_SEPARATOR);
    var pairs := Zip(columns, fields);
    var m := ParseRow(header, line).value;
    assert m == FromPairs(pairs);
    FromPairsHas(pairs, name);
    if name in m.values {
      var i :| 0 <= i < |pairs| && pairs[i].0 == name;
      assert columns[i] == name;
      assert exists i :: 0 <= i < |fields| && columns[i] == name;
      assert name in ParseRow(header, line).value.values;
      assert columns == Split(header, FIELD_SEPARATOR);
      assert Split(header, FIELD_SEPARATOR)[i] == name;
      assert exists j :: 0 <= j < |Split(line, FIELD_SEPARATOR)| && Split(header, FIELD_SEPARATOR)[j] == name;
    } else {
      forall i | 0 <= i < |fields| ensures columns[i] != name {
        assert pairs[i].0 == columns[i];
      }
      assert name !in ParseRow(header, line).value.values;
      assert !exists i :: 0 <= i < |fields| && columns[i] == name;
    }
  }

  function Field(elems: LinkedMap<string, string>, name: string): (r: Result<string, TsmError>)
    ensures r.Success? <==> name in elems.values
    ensures r.Success? ==> r.value == elems.values[name]
    ensures r.Failure? ==> r.error == MissingField(name)
  {
    if name in elems.values then Success(elems.values[name]) else Failure(MissingField(name))
  }

  /** String.toLong. */
  function ToLong(text: string): (r: Result<int, TsmError>)
    ensures r.Success? <==> ParseLong(text).Some?
    ensures r.Success? ==> r.value == ParseLong(text).value
    ensures r.Failure? ==> r.error == NumberFormat(text)
  {
    match ParseLong(text)
    case Some(v) => Success(v)
    case None => Failure(NumberFormat(text))
  }

  function LongField(elems: LinkedMap<string, string>, name: string): Result<int, TsmError> {
    var text :- Field(elems, name);
    ToLong(text)
  }

  /** The item id inside an item string: the text between its first and second `:`. */
  function ItemIdText(itemString: string): string {
    SubstringBefore(SubstringAfter(itemString, ":"), ":")
  }

  /** Instant.ofEpochSecond. */
  function EpochSecond(seconds: int): (r: Result<int, TsmError>)
    ensures r.Success? <==> INSTANT_MIN_SECONDS <= seconds <= INSTANT_MAX_SECONDS
    ensures r.Success? ==> r.value == seconds
  {
    if INSTANT_MIN_SECONDS <= seconds <= INSTANT_MAX_SECONDS then Success(seconds)
    else Failure(InstantOutOfRange(seconds))
  }

  predicate FromAuction(elems: LinkedMap<string, string>) {
    "source" in elems.values && elems.values["source"] == "Auction"
  }

  /**
   * Every field an auction-house row needs is present, the numbers parse as Longs and
   * the time is a representable instant.
   */
  predicate AuctionRowReads(elems: LinkedMap<string, string>) {
    Field(elems, "itemString").Success? && ToLong(ItemIdText(Field(elems, "itemString").value)).Success? &&
    LongField(elems, "stackSize").Success? && LongField(elems, "quantity").Success? &&
    LongField(elems, "price").Success? && Field(elems, "otherPlayer").Success? &&
    Field(elems, "player").Success? && LongField(elems, "time").Success? &&
    EpochSecond(LongField(elems, "time").value).Success?
  }

  /** OperationBuilder.buildObject: null unless the source is the auction house. */
  function BuildOperation(kind: OperationType, elems: LinkedMap<string, string>): (r: Result<Option<Operation>, TsmError>)
    ensures !FromAuction(elems) ==> r == Success(None)
    ensures FromAuction(elems) ==> (r.Success? <==> AuctionRowReads(elems))
    ensures r.Failure? ==> r.error.MissingField? || r.error.NumberFormat? || r.error.InstantOutOfRange?
    ensures FromAuction(elems) && !Field(elems, "itemString").Success? ==> r == Failure(MissingField("itemString"))
    ensures FromAuction(elems) && r.Success? ==> r.value.Some? && r.value.value.kind == kind
    ensures FromAuction(elems) && r.Success? ==>
      var o := r.value.value;
      Field(elems, "itemString").Success? && ToLong(ItemIdText(Field(elems, "itemString").value)) == Success(o.item) &&
      EpochSecond(o.time).Success? &&
      Field(elems, "otherPlayer") == Success(o.otherPlayer) && Field(elems, "player") == Success(o.player) &&
      LongField(elems, "stackSize") == Success(o.stackSize) && LongField(elems, "quantity") == Success(o.quantity) &&
      LongField(elems, "price") == Success(o.price) && LongField(elems, "time") == Success(o.time)
  {
    if !FromAuction(elems) then Success(None)
    else
      var itemString :- Field(elems, "itemString");
      var item :- ToLong(ItemIdText(itemString));
      var stackSize :- LongField(elems, "stackSize");
      var quantity :- LongField(elems, "quantity");
      var price :- LongField(elems, "price");
      var otherPlayer :- Field(elems, "otherPlayer");
      var player :- Field(elems, "player");
      var seconds :- LongField(elems, "time");
      var time :- EpochSecond(seconds);
      Success(Some(Operation(kind, item, stackSize, quantity, price, otherPlayer, player, time)))
  }

  /** What one data row contributes: its operation, or nothing for another source. */
  function RowOperations(kind: OperationType, header: string, row: string): (r: Result<seq<Operation>, TsmError>)
    ensures r.Success? ==> |r.value| <= 1 && forall k :: 0 <= k < |r.value| ==> r.value[k].kind == kind
  {
    var elems :- ParseRow(header, row);
    var op :- BuildOperation(kind, elems);
    Success(if op.Some? then [op.value] else [])
  }

  /** The data rows, parsed in order (`mapNotNull`); the first row that throws aborts the whole list. */
  function ParseRows(kind: OperationType, header: string, rows: seq<string>): (r: Result<seq<Operation>, TsmError>)
    ensures r.Success? ==> |r.value| <= |rows|
    ensures r.Success? ==> forall k :: 0 <= k < |r.value| ==> r.value[k].kind == kind
    decreases |rows|
  {
    if rows == [] then Success([])
    else
      var head :- RowOperations(kind, header, rows[0]);
      var rest :- ParseRows(kind, header, rows[1..]);
      Success(head + rest)
  }

  /** A row from another source is dropped without a trace. */
  lemma SkipOtherSource(kind: OperationType, header: string, row: string, rest: seq<string>)
    requires ParseRow(header, row).Success? && !FromAuction(ParseRow(header, row).value)
    ensures ParseRows(kind, header, [row] + rest) == ParseRows(kind, header, rest)
  {
    var rows := [row] + rest;
    assert rows[0] == row && rows[1..] == rest;
    assert RowOperations(kind, header, row) == Success([]);
    match ParseRows(kind, header, rest)
    case Success(ops) =>
      assert [] + ops == ops;
    case Failure(e) =>
  }

  /** One row, then the rest: ParseRows succeeds exactly when both parts do. */
  lemma ParseRowsCons(kind: OperationType, header: string, rows: seq<string>)
    requires rows != []
    ensures ParseRows(kind, header, rows).Success?
        <==> RowOperations(kind, header, rows[0]).Success? && ParseRows(kind, header, rows[1..]).Success?
    ensures ParseRows(kind, header, rows).Success? ==>
      ParseRows(kind, header, rows).value
        == RowOperations(kind, header, rows[0]).value + ParseRows(kind, header, rows[1..]).value
  {
  }

  lemma ConsAppend<T>(a: seq<T>, b: seq<T>)
    requires a != []
    ensures (a + b)[0] == a[0] && (a + b)[1..] == a[1..] + b
  {
  }

  lemma Associate<T>(x: seq<T>, y: seq<T>, z: seq<T>)
    ensures x + (y + z) == (x + y) + z
  {
  }

  /** Rows are independent: the operations of a + b are those of a, then those of b. */
  lemma {:induction false} ParseRowsAppend(kind: OperationType, header: string, a: seq<string>, b: seq<string>)
    requires ParseRows(kind, header, a).Success? && ParseRows(kind, header, b).Success?
    ensures ParseRows(kind, header, a + b) == Success(ParseRows(kind, header, a).value + ParseRows(kind, header, b).value)
    decreases |a|
  {
    var y := ParseRows(kind, header, b).value;
    if a == [] {
      assert a + b == b;
      assert [] + y == y;
    } else {
      var rows := a + b;
      ConsAppend(a, b);
      ParseRowsCons(kind, header, a);
      ParseRowsAppend(kind, header, a[1..], b);
      ParseRowsCons(kind, header, rows);
      var head := RowOperations(kind, header, a[0]).value;
      var x := ParseRows(kind, header, a[1..]).value;
      Associate(head, x, y);
    }
  }

  /** The text a log row holds under each column for an auction-house trade. */
  function Cell(o: Operation, column: string): string {
    if column == "source" then "Auction"
    else if column == "itemString" then "i:" + LongToString(o.item)
    else if column == "stackSize" then LongToString(o.stackSize)
    else if column == "quantity" then LongToString(o.quantity)
    else if column == "price" then LongToString(o.price)
    else if column == "otherPlayer" then o.otherPlayer
    else if column == "player" then o.player
    else if column == "time" then LongToString(o.time)
    else ""
  }

  /** An operation a log row can carry: 64-bit numbers, an Instant, player names without a comma. */
  predicate Recordable(o: Operation) {
    LONG_MIN <= o.item <= LONG_MAX && LONG_MIN <= o.stackSize <= LONG_MAX &&
    LONG_MIN <= o.quantity <= LONG_MAX && LONG_MIN <= o.price <= LONG_MAX &&
    INSTANT_MIN_SECONDS <= o.time <= INSTANT_MAX_SECONDS &&
    ',' !in o.otherPlayer && ',' !in o.player
  }

  /** A header naming each column once, with every column a trade row needs. */
  predicate GoodColumns(columns: seq<string>) {
    |columns| >= 1 &&
    (forall i, j :: 0 <= i < j < |columns| ==> columns[i] != columns[j]) &&
    (forall i :: 0 <= i < |columns| ==> ',' !in columns[i]) &&
    "source" in columns && "itemString" in columns && "stackSize" in columns && "quantity" in columns &&
    "price" in columns && "otherPlayer" in columns && "player" in columns && "time" in columns
  }

  function Cells(o: Operation, columns: seq<string>): (r: seq<string>)
    ensures |r| == |columns| && forall i :: 0 <= i < |r| ==> r[i] == Cell(o, columns[i])
  {
    seq(|columns|, i requires 0 <= i < |columns| => Cell(o, columns[i]))
  }

  lemma LongTextChars(x: int)
    ensures ',' !in LongToString(x) && ':' !in LongToString(x)
  {
    var digits := NatToString(if x < 0 then -x else x);
    assert forall j :: 0 <= j < |digits| ==> IsDigit(digits[j]);
    if x < 0 {
      assert LongToString(x) == "-" + digits;
    }
  }

  lemma CellsFree(o: Operation, columns: seq<string>)
    requires Recordable(o)
    ensures forall i :: 0 <= i < |columns| ==> ',' !in Cells(o, columns)[i]
  {
    LongTextChars(o.item);
    LongTextChars(o.stackSize);
    LongTextChars(o.quantity);
    LongTextChars(o.price);
    LongTextChars(o.time);
  }

  /** "i:" followed by an id: the id is what the builder reads. */
  lemma ItemIdOf(x: int)
    ensures ItemIdText("i:" + LongToString(x)) == LongToString(x)
  {
    var t := LongToString(x);
    var s := "i:" + t;
    OccursChar(s, ':', 0);
    OccursChar(s, ':', 1);
    IndexOfIs(s, ":", 1);
    assert s[2..] == t;
    LongTextChars(x);
    IndexOfAbsent(t, ':');
  }

  lemma ItemIdExample()
    ensures ItemIdText("i:1234:0") == "1234"
  {
    var s := "i:1234:0";
    OccursChar(s, ':', 0);
    OccursChar(s, ':', 1);
    IndexOfIs(s, ":", 1);
    var t := s[2..];
    assert t == "1234:0";
    OccursChar(t, ':', 0);
    OccursChar(t, ':', 1);
    OccursChar(t, ':', 2);
    OccursChar(t, ':', 3);
    OccursChar(t, ':', 4);
    IndexOfIs(t, ":", 4);
  }

  /** Each column of a good header holds its cell of the row. */
  lemma CellsRead(o: Operation, columns: seq<string>, name: string)
    requires GoodColumns(columns) && Recordable(o) && name in columns
    ensures var r := ParseRow(Join(columns, FIELD_SEPARATOR), Join(Cells(o, columns), FIELD_SEPARATOR));
      r.Success? && name in r.value.values && r.value.values[name] == Cell(o, name)
  {
    var header := Join(columns, FIELD_SEPARATOR);
    var cells := Cells(o, columns);
    var line := Join(cells, FIELD_SEPARATOR);
    JoinSplit(columns, ',');
    CellsFree(o, columns);
    JoinSplit(cells, ',');
    assert Split(header, FIELD_SEPARATOR) == columns;
    assert Split(line, FIELD_SEPARATOR) == cells;
    var i :| 0 <= i < |columns| && columns[i] == name;
    RowField(header, line, i);
  }

  lemma CellValues(o: Operation)
    ensures Cell(o, "source") == "Auction"
    ensures Cell(o, "itemString") == "i:" + LongToString(o.item)
    ensures Cell(o, "stackSize") == LongToString(o.stackSize)
    ensures Cell(o, "quantity") == LongToString(o.quantity)
    ensures Cell(o, "price") == LongToString(o.price)
    ensures Cell(o, "otherPlayer") == o.otherPlayer
    ensures Cell(o, "player") == o.player
    ensures Cell(o, "time") == LongToString(o.time)
  {
  }

  predicate Holds(elems: LinkedMap<string, string>, name: string, text: string) {
    name in elems.values && elems.values[name] == text
  }

  /** A row holding an operation's texts is built into that operation. */
  lemma BuildFromCells(kind: OperationType, elems: LinkedMap<string, string>, o: Operation)
    requires Recordable(o)
    requires Holds(elems, "source", "Auction")
    requires Holds(elems, "itemString", "i:" + LongToString(o.item))
    requires Holds(elems, "stackSize", LongToString(o.stackSize))
    requires Holds(elems, "quantity", LongToString(o.quantity))
    requires Holds(elems, "price", LongToString(o.price))
    requires Holds(elems, "otherPlayer", o.otherPlayer)
    requires Holds(elems, "player", o.player)
    requires Holds(elems, "time", LongToString(o.time))
    ensures BuildOperation(kind, elems) == Success(Some(o.(kind := kind)))
  {
    ItemIdOf(o.item);
    ParseLongToString(o.item);
    ParseLongToString(o.stackSize);
    ParseLongToString(o.quantity);
    ParseLongToString(o.price);
    ParseLongToString(o.time);
    assert ToLong(ItemIdText(elems.values["itemString"])) == Success(o.item);
    assert LongField(elems, "stackSize") == Success(o.stackSize);
    assert LongField(elems, "quantity") == Success(o.quantity);
    assert LongField(elems, "price") == Success(o.price);
    assert LongField(elems, "time") == Success(o.time);
  }

  /** A trade written as a log row under a good header is read back as that trade. */
  lemma RowRoundTrip(kind: OperationType, columns: seq<string>, o: Operation)
    requires GoodColumns(columns) && Recordable(o)
    ensures RowOperations(kind, Join(columns, FIELD_SEPARATOR), Join(Cells(o, columns), FIELD_SEPARATOR))
         == Success([o.(kind := kind)])
  {
    var header := Join(columns, FIELD_SEPARATOR);
    var line := Join(Cells(o, columns), FIELD_SEPARATOR);
    CellsRead(o, columns, "source");
    CellsRead(o, columns, "itemString");
    CellsRead(o, columns, "stackSize");
    CellsRead(o, columns, "quantity");
    CellsRead(o, columns, "price");
    CellsRead(o, columns, "otherPlayer");
    CellsRead(o, columns, "player");
    CellsRead(o, columns, "time");
    CellValues(o);
    var elems := ParseRow(header, line).value;
    BuildFromCells(kind, elems, o);
  }

  /** The literal two-character sequence backslash, n: the logs' row separator. */
  const ROW_SEPARATOR := "\\n"
  const BUYS_KEY := "r@Sulfuron@internalData@csvBuys"
  const SALES_KEY := "r@Sulfuron@internalData@csvSales"

  /** The log stored under `key`: header row 0, data rows after it. */
  function ParseLog(ast: LuaElement, key: string, kind: OperationType): (r: Result<seq<Operation>, TsmError>)
    ensures GetValue(ast, key).Failure? ==> r == Failure(NotGoodFormat)
    ensures GetValue(ast, key).Success? ==>
      var lines := Split(GetValue(ast, key).value, ROW_SEPARATOR);
      r == ParseRows(kind, lines[0], lines[1..])
  {
    var value :- GetValue(ast, key);
    var lines := Split(value, ROW_SEPARATOR);
    ParseRows(kind, lines[0], lines[1..])
  }

  /** parseBuys. */
  function ParseBuys(ast: LuaElement): (r: Result<seq<Operation>, TsmError>)
    ensures r.Success? ==> forall k :: 0 <= k < |r.value| ==> r.value[k].kind == Buy
    ensures GetValue(ast, BUYS_KEY).Failure? ==> r.Failure?
  {
    ParseLog(ast, BUYS_KEY, Buy)
  }

  /** parseSales. */
  function ParseSales(ast: LuaElement): (r: Result<seq<Operation>, TsmError>)
    ensures r.Success? ==> forall k :: 0 <= k < |r.value| ==> r.value[k].kind == Sell
    ensures GetValue(ast, SALES_KEY).Failure? ==> r.Failure?
  {
    ParseLog(ast, SALES_KEY, Sell)
  }

  // ---------------------------------------------------------------------------
  // Stock keys

  datatype Slot = Inventory | Bank | Mail | Auction

  datatype StockReadingKey = StockReadingKey(character: string, slot: Slot)

  function SlotField(slot: Slot): string {
    match slot
    case Inventory => "bagQuantity"
    case Bank => "bankQuantity"
    case Mail => "mailQuantity"
    case Auction => "auctionQuantity"
  }

  const KEY_MIDDLE := " - Alliance - Sulfuron@internalData@"

  /** StockReadingKey.tsmKey. */
  function TsmKey(k: StockReadingKey): (r: string)
    ensures StartsWith(r, "s@" + k.character + KEY_MIDDLE)
    ensures |r| == 2 + |k.character| + |KEY_MIDDLE| + |SlotField(k.slot)|
    ensures r[|r| - |SlotField(k.slot)|..] == SlotField(k.slot)
  {
    "s@" + k.character + KEY_MIDDLE + SlotField(k.slot)
  }

  /** The character twelve places from the end tells the slot apart. */
  function SlotMark(slot: Slot): char {
    match slot
    case Inventory => '@'
    case Bank => 'b'
    case Mail => 'm'
    case Auction => 't'
  }

  lemma KeyMark(k: StockReadingKey)
    ensures |TsmKey(k)| >= 12 && TsmKey(k)[|TsmKey(k)| - 12] == SlotMark(k.slot)
  {
    var tail := KEY_MIDDLE + SlotField(k.slot);
    var r := TsmKey(k);
    assert r == ("s@" + k.character) + tail;
    assert r[|r| - 12] == tail[|tail| - 12];
  }

  /** Different characters or slots never share a stock key. */
  lemma TsmKeyInjective(a: StockReadingKey, b: StockReadingKey)
    requires TsmKey(a) == TsmKey(b)
    ensures a == b
  {
    KeyMark(a);
    KeyMark(b);
    assert a.slot == b.slot;
    var ra, rb := TsmKey(a), TsmKey(b);
    assert |a.character| == |b.character|;
    assert a.character == ra[2..2 + |a.character|];
    assert b.character == rb[2..2 + |b.character|];
  }
}
