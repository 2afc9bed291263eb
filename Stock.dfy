/**
 * The stock read from TradeSkillMaster: for each item, for each character, for
 * each slot (bags, bank, mail, auctions), the quantity held. `Stock` maps item ids
 * to `ItemStock` objects, each of which keeps an insertion-ordered table of
 * character to slot to entry; adding an entry that already exists adds the
 * quantities with Kotlin's 64-bit Long addition.
 */
module Stock {
  import opened Wrappers
  import opened Text
  import Numbers = Decimal
  import opened LinkedMap
  import opened Ast
  import opened TsmParser

  datatype ItemInStock = ItemInStock(item: int, quantity: int, character: string, slot: Slot)

  const LONG_MODULUS: int := 0x1_0000_0000_0000_0000

  /** Two's-complement wrap-around into the Long range. */
  function WrapLong(x: int): (r: int)
    ensures LONG_MIN <= r <= LONG_MAX
    ensures LONG_MIN <= x <= LONG_MAX ==> r == x
  {
    (x - LONG_MIN) % LONG_MODULUS + LONG_MIN
  }

  lemma ModUnique(z: int, a: int, r: int)
    requires z == a * LONG_MODULUS + r && 0 <= r < LONG_MODULUS
    ensures z % LONG_MODULUS == r
  {
  }

  /** Wrapping after each addition is wrapping once at the end. */
  lemma WrapAdd(a: int, b: int)
    ensures WrapLong(WrapLong(a) + b) == WrapLong(a + b)
  {
    var x := a - LONG_MIN;
    var p := (x + b) / LONG_MODULUS;
    assert x + b == p * LONG_MODULUS + (x + b) % LONG_MODULUS;
    ModUnique(x % LONG_MODULUS + b, p - x / LONG_MODULUS, (x + b) % LONG_MODULUS);
  }

  /** ItemInStock.add: a copy with the quantity increased, and nothing else changed. */
  function AddQuantity(s: ItemInStock, quantity: int): (r: ItemInStock)
    ensures r.item == s.item && r.character == s.character && r.slot == s.slot
    ensures r.quantity == WrapLong(s.quantity + quantity)
  {
    s.(quantity := WrapLong(s.quantity + quantity))
  }

  type SlotStock = LinkedMap<Slot, ItemInStock>
  type CharacterTable = LinkedMap<string, SlotStock>

  predicate TableValid(t: CharacterTable) {
    Valid(t) && forall c :: c in t.values ==> Valid(t.values[c])
  }

  /** The entry stored for a character and a slot. */
  function Lookup(t: CharacterTable, character: string, slot: Slot): Option<ItemInStock> {
    if character in t.values && slot in t.values[character].values then Some(t.values[character].values[slot])
    else None
  }

  /** ItemStock.add on the table: getOrPut the character, then compute the slot. */
  function AddEntry(t: CharacterTable, item: ItemInStock): (r: CharacterTable)
    requires TableValid(t)
    ensures TableValid(r)
    ensures Lookup(r, item.character, item.slot) ==
      match Lookup(t, item.character, item.slot)
      case None => Some(item)
      case Some(q) => Some(AddQuantity(q, item.quantity))
    ensures forall c, s :: (c, s) != (item.character, item.slot) ==> Lookup(r, c, s) == Lookup(t, c, s)
  {
    var forCharacter := if item.character in t.values then t.values[item.character] else Empty();
    var entry := if item.slot in forCharacter.values then AddQuantity(forCharacter.values[item.slot], item.quantity) else item;
    Put(t, item.character, Put(forCharacter, item.slot, entry))
  }

  /** Every entry sits under its own item, character and slot. */
  ghost predicate Coherent(id: int, t: CharacterTable) {
    forall c, s :: Lookup(t, c, s).Some? ==>
      var e := Lookup(t, c, s).value; e.item == id && e.character == c && e.slot == s
  }

  lemma AddEntryCoherent(t: CharacterTable, item: ItemInStock)
    requires TableValid(t) && Coherent(item.item, t)
    ensures Coherent(item.item, AddEntry(t, item))
  {
    var r := AddEntry(t, item);
    forall c, s | Lookup(r, c, s).Some?
      ensures var e := Lookup(r, c, s).value; e.item == item.item && e.character == c && e.slot == s
    {
      if (c, s) != (item.character, item.slot) {
        assert Lookup(r, c, s) == Lookup(t, c, s);
      }
    }
  }

  /** The entries of a table, character by character in insertion order, then slot by slot. */
  function Entries(t: CharacterTable): seq<ItemInStock>
    requires TableValid(t)
  {
    Flatten(SlotEntries(t, t.keys))
  }

  function SlotEntries(t: CharacterTable, characters: seq<string>): (r: seq<seq<ItemInStock>>)
    requires TableValid(t)
    requires forall k :: 0 <= k < |characters| ==> characters[k] in t.values
    ensures |r| == |characters|
    ensures forall k :: 0 <= k < |r| ==> r[k] == Values(t.values[characters[k]])
  {
    seq(|characters|, k requires 0 <= k < |characters| => Values(t.values[characters[k]]))
  }

  function Flatten<T>(parts: seq<seq<T>>): seq<T>
    decreases |parts|
  {
    if parts == [] then [] else parts[0] + Flatten(parts[1..])
  }

  lemma {:induction false} InFlatten<T>(parts: seq<seq<T>>, x: T)
    ensures x in Flatten(parts) <==> exists k :: 0 <= k < |parts| && x in parts[k]
    decreases |parts|
  {
    if parts != [] {
      InFlatten(parts[1..], x);
      if k :| 1 <= k < |parts| && x in parts[k] {
        assert parts[1..][k - 1] == parts[k];
      }
      if k :| 0 <= k < |parts[1..]| && x in parts[1..][k] {
        assert parts[k + 1] == parts[1..][k];
      }
    }
  }

  /** getItemInStock lists exactly the stored entries. */
  lemma EntriesAre(id: int, t: CharacterTable, x: ItemInStock)
    requires TableValid(t) && Coherent(id, t)
    ensures x in Entries(t) <==> Lookup(t, x.character, x.slot) == Some(x)
  {
    InFlatten(SlotEntries(t, t.keys), x);
    if x in Entries(t) {
      EntryStored(id, t, x);
    }
    if Lookup(t, x.character, x.slot) == Some(x) {
      StoredEntry(t, x);
    }
  }

  lemma EntryStored(id: int, t: CharacterTable, x: ItemInStock)
    requires TableValid(t) && Coherent(id, t)
    requires exists k :: 0 <= k < |SlotEntries(t, t.keys)| && x in SlotEntries(t, t.keys)[k]
    ensures Lookup(t, x.character, x.slot) == Some(x)
  {
    var parts := SlotEntries(t, t.keys);
    var k :| 0 <= k < |parts| && x in parts[k];
    var slots := t.values[t.keys[k]];
    var vs := Values(slots);
    assert parts[k] == vs;
    var j :| 0 <= j < |vs| && vs[j] == x;
    assert Lookup(t, t.keys[k], slots.keys[j]) == Some(x);
  }

  lemma StoredEntry(t: CharacterTable, x: ItemInStock)
    requires TableValid(t)
    requires Lookup(t, x.character, x.slot) == Some(x)
    ensures exists k :: 0 <= k < |SlotEntries(t, t.keys)| && x in SlotEntries(t, t.keys)[k]
  {
    var parts := SlotEntries(t, t.keys);
    var slots := t.values[x.character];
    var k :| 0 <= k < |t.keys| && t.keys[k] == x.character;
    var j :| 0 <= j < |slots.keys| && slots.keys[j] == x.slot;
    assert Values(slots)[j] == x;
    assert x in parts[k];
  }

  /** Total stock of one item, for all characters and slots. */
  class ItemStock {
    var stock: CharacterTable

    ghost predicate Valid()
      reads this
    {
      TableValid(stock)
    }

    constructor()
      ensures Valid() && stock == Empty()
    {
      stock := Empty();
    }

    method Add(item: ItemInStock)
      requires Valid()
      modifies this
      ensures Valid()
      ensures stock == AddEntry(old(stock), item)
    {
      var forCharacter := if item.character in stock.values then stock.values[item.character] else Empty();
      var entry := if item.slot in forCharacter.values then AddQuantity(forCharacter.values[item.slot], item.quantity) else item;
      stock := Put(stock, item.character, Put(forCharacter, item.slot, entry));
    }

    function GetItemInStock(): (r: seq<ItemInStock>)
      requires Valid()
      reads this
      ensures r == Entries(stock)
    {
      Flatten(SlotEntries(stock, stock.keys))
    }
  }

  type Table = map<int, CharacterTable>

  ghost predicate Tables(t: Table) {
    forall id :: id in t ==> TableValid(t[id]) && Coherent(id, t[id])
  }

  /** Stock.add on the abstract table. */
  function StockAdd(t: Table, item: ItemInStock): (r: Table)
    requires Tables(t)
    ensures Tables(r)
  {
    var before := if item.item in t then t[item.item] else Empty();
    AddEntryCoherent(before, item);
    t[item.item := AddEntry(before, item)]
  }

  /** The table after adding the entries in order to an empty stock. */
  function TableOf(items: seq<ItemInStock>): (r: Table)
    ensures Tables(r)
    decreases |items|
  {
    if items == [] then map[] else StockAdd(TableOf(items[..|items| - 1]), items[|items| - 1])
  }

  lemma TableOfPrefix(items: seq<ItemInStock>, i: nat)
    requires i < |items|
    ensures TableOf(items[..i + 1]) == StockAdd(TableOf(items[..i]), items[i])
  {
    assert items[..i + 1][..i] == items[..i];
  }

  function StockLookup(t: Table, id: int, character: string, slot: Slot): Option<ItemInStock> {
    if id in t then Lookup(t[id], character, slot) else None
  }

  predicate Matches(x: ItemInStock, id: int, character: string, slot: Slot) {
    x.item == id && x.character == character && x.slot == slot
  }

  function MatchCount(items: seq<ItemInStock>, id: int, character: string, slot: Slot): nat
    decreases |items|
  {
    if items == [] then 0
    else MatchCount(items[..|items| - 1], id, character, slot) + (if Matches(items[|items| - 1], id, character, slot) then 1 else 0)
  }

  function MatchSum(items: seq<ItemInStock>, id: int, character: string, slot: Slot): int
    decreases |items|
  {
    if items == [] then 0
    else
      var last := items[|items| - 1];
      MatchSum(items[..|items| - 1], id, character, slot) + (if Matches(last, id, character, slot) then last.quantity else 0)
  }

  /** One add changes the entry of its own (item, character, slot) and no other. */
  lemma StockLookupAdd(t: Table, x: ItemInStock, id: int, character: string, slot: Slot)
    requires Tables(t)
    ensures StockLookup(StockAdd(t, x), id, character, slot) ==
      if !Matches(x, id, character, slot) then StockLookup(t, id, character, slot)
      else match StockLookup(t, id, character, slot)
        case None => Some(x)
        case Some(q) => Some(AddQuantity(q, x.quantity))
  {
    var before := if x.item in t then t[x.item] else Empty();
    assert StockAdd(t, x) == t[x.item := AddEntry(before, x)];
    if x.item == id {
      assert StockLookup(t, id, character, slot) == Lookup(before, character, slot);
    }
  }

  /**
   * After any sequence of adds, the quantity stored for an (item, character, slot)
   * is the Long sum of the quantities added for it; a triple never added has no entry.
   */
  lemma {:induction false} QuantityIsSum(items: seq<ItemInStock>, id: int, character: string, slot: Slot)
    requires forall k :: 0 <= k < |items| ==> LONG_MIN <= items[k].quantity <= LONG_MAX
    ensures var e := StockLookup(TableOf(items), id, character, slot);
      (e.None? <==> MatchCount(items, id, character, slot) == 0) &&
      (e.Some? ==> Matches(e.value, id, character, slot) && e.value.quantity == WrapLong(MatchSum(items, id, character, slot)))
    decreases |items|
  {
    if items != [] {
      var init := items[..|items| - 1];
      var last := items[|items| - 1];
      forall k | 0 <= k < |init| ensures LONG_MIN <= init[k].quantity <= LONG_MAX {
        assert init[k] == items[k];
      }
      QuantityIsSum(init, id, character, slot);
      var t := TableOf(init);
      assert TableOf(items) == StockAdd(t, last);
      StockLookupAdd(t, last, id, character, slot);
      var before := StockLookup(t, id, character, slot);
      var after := StockLookup(TableOf(items), id, character, slot);
      if Matches(last, id, character, slot) {
        if before.None? {
          NoMatchNoSum(init, id, character, slot);
          assert after == Some(last);
          assert MatchSum(items, id, character, slot) == last.quantity;
          assert after.value.quantity == WrapLong(MatchSum(items, id, character, slot));
        } else {
          assert MatchSum(items, id, character, slot) == MatchSum(init, id, character, slot) + last.quantity;
          AddStep(before.value, last.quantity, MatchSum(init, id, character, slot), MatchSum(items, id, character, slot));
          assert after == Some(AddQuantity(before.value, last.quantity));
        }
      } else {
        assert after == before;
        assert MatchSum(items, id, character, slot) == MatchSum(init, id, character, slot);
        assert MatchCount(items, id, character, slot) == MatchCount(init, id, character, slot);
      }
    }
  }

  lemma AddStep(e: ItemInStock, quantity: int, sum: int, total: int)
    requires e.quantity == WrapLong(sum) && total == sum + quantity
    ensures AddQuantity(e, quantity).quantity == WrapLong(total)
  {
    WrapAdd(sum, quantity);
  }

  lemma {:induction false} NoMatchNoSum(items: seq<ItemInStock>, id: int, character: string, slot: Slot)
    requires MatchCount(items, id, character, slot) == 0
    ensures MatchSum(items, id, character, slot) == 0
    decreases |items|
  {
    if items != [] {
      NoMatchNoSum(items[..|items| - 1], id, character, slot);
    }
  }

  /** The global stock: one ItemStock object per item id. */
  class Stock {
    var stocks: map<int, ItemStock>
    /** What the objects hold, as one table. */
    ghost var Contents: Table
    ghost var Repr: set<object>

    ghost predicate Valid()
      reads this, Repr
    {
      this in Repr && Tables(Contents) && stocks.Keys == Contents.Keys &&
      (forall id :: id in stocks ==> stocks[id] in Repr && stocks[id].Valid() && stocks[id].stock == Contents[id]) &&
      (forall i, j :: i in stocks && j in stocks && i != j ==> stocks[i] != stocks[j])
    }

    constructor()
      ensures Valid() && Contents == map[] && fresh(Repr)
    {
      stocks := map[];
      Contents := map[];
      Repr := {this};
    }

    method Add(item: ItemInStock)
      requires Valid()
      modifies Repr
      ensures Valid() && fresh(Repr - old(Repr))
      ensures Contents == StockAdd(old(Contents), item)
    {
      if item.item in stocks {
        AddExisting(item);
      } else {
        AddNew(item);
      }
    }

    /** The item already has its ItemStock: only that object changes. */
    method AddExisting(item: ItemInStock)
      requires Valid() && item.item in stocks
      modifies this, stocks[item.item]
      ensures Valid() && Repr == old(Repr)
      ensures Contents == StockAdd(old(Contents), item)
    {
      var s := stocks[item.item];
      AddEntryCoherent(s.stock, item);
      s.Add(item);
      Contents := StockAdd(Contents, item);
      assert forall id :: id in stocks && id != item.item ==> stocks[id] != s;
    }

    /** The item is new: a fresh ItemStock holds its first entry. */
    method AddNew(item: ItemInStock)
      requires Valid() && item.item !in stocks
      modifies this
      ensures Valid() && fresh(Repr - old(Repr))
      ensures Contents == StockAdd(old(Contents), item)
    {
      var s := new ItemStock();
      AddEntryCoherent(s.stock, item);
      s.Add(item);
      stocks := stocks[item.item := s];
      Contents := StockAdd(Contents, item);
      Repr := Repr + {s};
    }

    /** getItemInStock: the entries of the item, or none for an item never added. */
    function GetItemInStock(id: int): (r: seq<ItemInStock>)
      requires Valid()
      reads this, Repr
      ensures id !in Contents ==> r == []
      ensures id in Contents ==> forall x :: x in r <==> StockLookup(Contents, id, x.character, x.slot) == Some(x)
    {
      if id in stocks then
        EntriesForall(id, stocks[id].stock);
        stocks[id].GetItemInStock()
      else []
    }
  }

  lemma EntriesForall(id: int, t: CharacterTable)
    requires TableValid(t) && Coherent(id, t)
    ensures forall x :: x in Entries(t) <==> Lookup(t, x.character, x.slot) == Some(x)
  {
    forall x ensures x in Entries(t) <==> Lookup(t, x.character, x.slot) == Some(x) {
      EntriesAre(id, t, x);
    }
  }

  // ---------------------------------------------------------------------------
  // Reading the stock out of the TSM tree

  /** The slots each character is read for, in order. */
  const SLOTS: seq<Slot> := [Inventory, Bank, Mail, Auction]

  /** The values of the string children, in order (mapNotNull). */
  function StringChildren(content: seq<LuaElement>): (r: seq<string>)
    ensures |r| <= |content|
    ensures forall x :: x in r <==> StringLiteral(x) in content
    decreases |content|
  {
    if content == [] then []
    else
      var rest := StringChildren(content[1..]);
      assert forall x :: StringLiteral(x) in content <==> content[0] == StringLiteral(x) || StringLiteral(x) in content[1..];
      (if content[0].StringLiteral? then [content[0].s] else []) + rest
  }

  /** The four reading keys of one character name: its text before the first space. */
  function CharacterKeys(name: string): (r: seq<StockReadingKey>)
    ensures |r| == 4
    ensures forall j :: 0 <= j < 4 ==> r[j] == StockReadingKey(SubstringBefore(name, " "), SLOTS[j])
  {
    var character := SubstringBefore(name, " ");
    [StockReadingKey(character, Inventory), StockReadingKey(character, Bank),
     StockReadingKey(character, Mail), StockReadingKey(character, Auction)]
  }

  function ReadingKeys(names: seq<string>): (r: seq<StockReadingKey>)
    ensures |r| == 4 * |names|
    ensures forall i, j :: 0 <= i < |names| && 0 <= j < 4 ==>
      r[4 * i + j] == StockReadingKey(SubstringBefore(names[i], " "), SLOTS[j])
    decreases |names|
  {
    if names == [] then []
    else
      var rest := ReadingKeys(names[1..]);
      var r := CharacterKeys(names[0]) + rest;
      forall i, j | 1 <= i < |names| && 0 <= j < 4
        ensures r[4 * i + j] == StockReadingKey(SubstringBefore(names[i], " "), SLOTS[j])
      {
        assert r[4 * i + j] == rest[4 * (i - 1) + j];
        assert names[1..][i - 1] == names[i];
      }
      r
  }

  /**
   * discoverTsmStockKey: the string children of `_scopeKeys.sync`, each giving its
   * character four keys, one per slot in the order of SLOTS.
   */
  function DiscoverTsmStockKey(ast: LuaElement): (r: Result<seq<StockReadingKey>, TsmError>)
    ensures r.Failure? ==> r.error == NotGoodFormat
    ensures r.Success? <==>
      GetObject(ast, "_scopeKeys").Success? && GetObject(GetObject(ast, "_scopeKeys").value, "sync").Success?
    ensures r.Success? ==>
      r.value == ReadingKeys(StringChildren(GetObject(GetObject(ast, "_scopeKeys").value, "sync").value.content))
  {
    var scopeKeys :- GetObject(ast, "_scopeKeys");
    var sync :- GetObject(scopeKeys, "sync");
    // getContent cannot fail here: getObject only returns objects.
    Success(ReadingKeys(StringChildren(sync.content)))
  }

  /** The keys of a slot object whose value is a number, in order (filterValues). */
  function NumericItems(items: seq<string>, values: LinkedMap<string, LuaElement>): (r: seq<string>)
    requires forall i :: 0 <= i < |items| ==> items[i] in values.values
    ensures |r| <= |items|
    ensures forall k :: 0 <= k < |r| ==> r[k] in values.values && values.values[r[k]].LongLiteral?
    ensures forall x :: x in r <==> x in items && x in values.values && values.values[x].LongLiteral?
    decreases |items|
  {
    if items == [] then []
    else
      var rest := NumericItems(items[1..], values);
      assert forall x :: x in items <==> x == items[0] || x in items[1..];
      (if values.values[items[0]].LongLiteral? then [items[0]] else []) + rest
  }

  /**
   * The entry read from the numeric value `v` stored under `itemKey` for a reading
   * key: the item id between the first and second `:`, the value truncated to a Long.
   */
  predicate ReadEntry(key: StockReadingKey, itemKey: string, v: LuaElement, e: ItemInStock) {
    v.LongLiteral? && ParseLong(ItemIdText(itemKey)) == Some(e.item) &&
    e.quantity == Numbers.ToLong(v.number) && e.character == key.character && e.slot == key.slot
  }

  /** `r` holds, position by position, the entries read from the values under `numeric`. */
  predicate EntriesRead(key: StockReadingKey, numeric: seq<string>, values: LinkedMap<string, LuaElement>, r: seq<ItemInStock>) {
    |r| == |numeric| &&
    forall k :: 0 <= k < |r| ==> numeric[k] in values.values && ReadEntry(key, numeric[k], values.values[numeric[k]], r[k])
  }

  /** The entries read from one slot object: its numeric values, keyed by item string. */
  function SlotItems(key: StockReadingKey, items: seq<string>, values: LinkedMap<string, LuaElement>): (r: Result<seq<ItemInStock>, TsmError>)
    requires forall i :: 0 <= i < |items| ==> items[i] in values.values
    ensures r.Success? <==> forall i :: 0 <= i < |items| && values.values[items[i]].LongLiteral? ==> ParseLong(ItemIdText(items[i])).Some?
    ensures r.Success? ==> |r.value| <= |items|
    ensures r.Success? ==> forall k :: 0 <= k < |r.value| ==>
      r.value[k].character == key.character && r.value[k].slot == key.slot && LONG_MIN <= r.value[k].quantity <= LONG_MAX
    ensures r.Success? ==> EntriesRead(key, NumericItems(items, values), values, r.value)
    ensures r.Failure? ==> r.error.NumberFormat?
    decreases |items|
  {
    if items == [] then Success([])
    else
      var v := values.values[items[0]];
      if v.LongLiteral? then
        var id :- ToLong(ItemIdText(items[0]));
        var rest :- SlotItems(key, items[1..], values);
        var e := ItemInStock(id, Numbers.ToLong(v.number), key.character, key.slot);
        EntriesCons(key, items, values, e, rest);
        Success([e] + rest)
      else
        var r := SlotItems(key, items[1..], values);
        NumericSkip(items, values);
        r
  }

  lemma EntriesCons(key: StockReadingKey, items: seq<string>, values: LinkedMap<string, LuaElement>, e: ItemInStock, rest: seq<ItemInStock>)
    requires items != [] && forall i :: 0 <= i < |items| ==> items[i] in values.values
    requires ReadEntry(key, items[0], values.values[items[0]], e)
    requires EntriesRead(key, NumericItems(items[1..], values), values, rest)
    ensures EntriesRead(key, NumericItems(items, values), values, [e] + rest)
  {
    assert NumericItems(items, values) == [items[0]] + NumericItems(items[1..], values);
  }

  lemma NumericSkip(items: seq<string>, values: LinkedMap<string, LuaElement>)
    requires items != [] && forall i :: 0 <= i < |items| ==> items[i] in values.values
    requires !values.values[items[0]].LongLiteral?
    ensures NumericItems(items, values) == NumericItems(items[1..], values)
  {
    assert NumericItems(items, values) == [] + NumericItems(items[1..], values);
  }

  /** The entries of one reading key: the numeric values of the object stored under its tsmKey. */
  function KeyEntries(ast: LuaElement, key: StockReadingKey): (r: Result<seq<ItemInStock>, TsmError>)
    ensures r.Success? ==> GetObject(ast, TsmKey(key)).Success?
    ensures GetObject(ast, TsmKey(key)).Failure? ==> r == Failure(NotGoodFormat)
    ensures r.Success? ==>
      var values := GetValues(GetObject(ast, TsmKey(key)).value).value;
      EntriesRead(key, NumericItems(values.keys, values), values, r.value)
  {
    var o :- GetObject(ast, TsmKey(key));
    var values := GetValues(o).value;
    SlotItems(key, values.keys, values)
  }

  /** The entries of every reading key, one list per key, for keys that all read. */
  function KeyParts(ast: LuaElement, keys: seq<StockReadingKey>): (r: seq<seq<ItemInStock>>)
    requires forall i :: 0 <= i < |keys| ==> KeyEntries(ast, keys[i]).Success?
    ensures |r| == |keys|
    ensures forall i :: 0 <= i < |keys| ==> r[i] == KeyEntries(ast, keys[i]).value
  {
    seq(|keys|, i requires 0 <= i < |keys| => KeyEntries(ast, keys[i]).value)
  }

  /**
   * The entries of every reading key, key by key (`keys.map { … }.flatten()`); a
   * key that does not read fails the whole extraction.
   */
  function KeyItems(ast: LuaElement, keys: seq<StockReadingKey>): (r: Result<seq<ItemInStock>, TsmError>)
    ensures r.Success? <==> forall i :: 0 <= i < |keys| ==> KeyEntries(ast, keys[i]).Success?
    ensures r.Success? ==>
      (forall i :: 0 <= i < |keys| ==> KeyEntries(ast, keys[i]).Success?) && r.value == Flatten(KeyParts(ast, keys))
    ensures r.Failure? ==>
      exists i :: 0 <= i < |keys| && KeyEntries(ast, keys[i]) == Failure(r.error) &&
        forall j :: 0 <= j < i ==> KeyEntries(ast, keys[j]).Success?
    ensures r.Success? ==> forall k :: 0 <= k < |r.value| ==>
      LONG_MIN <= r.value[k].quantity <= LONG_MAX && StockReadingKey(r.value[k].character, r.value[k].slot) in keys
    decreases |keys|
  {
    if keys == [] then Success([])
    else
      var part :- KeyEntries(ast, keys[0]);
      var rest :- KeyItems(ast, keys[1..]);
      KeyItemsCons(ast, keys, part, rest);
      Success(part + rest)
  }

  lemma KeyItemsCons(ast: LuaElement, keys: seq<StockReadingKey>, part: seq<ItemInStock>, rest: seq<ItemInStock>)
    requires keys != [] && KeyEntries(ast, keys[0]) == Success(part)
    requires forall i :: 0 <= i < |keys[1..]| ==> KeyEntries(ast, keys[1..][i]).Success?
    requires rest == Flatten(KeyParts(ast, keys[1..]))
    requires forall k :: 0 <= k < |rest| ==>
      LONG_MIN <= rest[k].quantity <= LONG_MAX && StockReadingKey(rest[k].character, rest[k].slot) in keys[1..]
    ensures forall i :: 0 <= i < |keys| ==> KeyEntries(ast, keys[i]).Success?
    ensures part + rest == Flatten(KeyParts(ast, keys))
    ensures forall k :: 0 <= k < |part + rest| ==>
      LONG_MIN <= (part + rest)[k].quantity <= LONG_MAX && StockReadingKey((part + rest)[k].character, (part + rest)[k].slot) in keys
  {
    assert forall i :: 1 <= i < |keys| ==> keys[i] == keys[1..][i - 1];
    assert KeyParts(ast, keys)[1..] == KeyParts(ast, keys[1..]);
    var r := part + rest;
    forall k | 0 <= k < |r|
      ensures LONG_MIN <= r[k].quantity <= LONG_MAX && StockReadingKey(r[k].character, r[k].slot) in keys
    {
      if k < |part| {
        assert r[k] == part[k];
        SlotEntryKey(ast, keys[0], part, k);
      } else {
        assert r[k] == rest[k - |part|];
      }
    }
  }

  lemma SlotEntryKey(ast: LuaElement, key: StockReadingKey, part: seq<ItemInStock>, k: nat)
    requires KeyEntries(ast, key) == Success(part) && k < |part|
    ensures LONG_MIN <= part[k].quantity <= LONG_MAX && StockReadingKey(part[k].character, part[k].slot) == key
  {
  }

  /**
   * All entries of the TSM database, in the order they are added to the stock: for
   * every discovered reading key in order, its numeric values in key order.
   */
  function StockItems(ast: LuaElement): (r: Result<seq<ItemInStock>, TsmError>)
    ensures r.Success? ==> forall k :: 0 <= k < |r.value| ==> LONG_MIN <= r.value[k].quantity <= LONG_MAX
    ensures DiscoverTsmStockKey(ast).Failure? ==> r == Failure(NotGoodFormat)
    ensures r.Success? ==>
      DiscoverTsmStockKey(ast).Success? &&
      (var keys := DiscoverTsmStockKey(ast).value;
       (forall i :: 0 <= i < |keys| ==> KeyEntries(ast, keys[i]).Success?) && r.value == Flatten(KeyParts(ast, keys)))
  {
    var keys :- DiscoverTsmStockKey(ast);
    KeyItems(ast, keys)
  }

  /** An entry is extracted exactly when some discovered reading key's slot object yields it. */
  lemma StockEntryFromKey(ast: LuaElement, x: ItemInStock)
    requires StockItems(ast).Success?
    ensures var keys := DiscoverTsmStockKey(ast).value;
      x in StockItems(ast).value <==> exists i :: 0 <= i < |keys| && x in KeyEntries(ast, keys[i]).value
  {
    var keys := DiscoverTsmStockKey(ast).value;
    InFlatten(KeyParts(ast, keys), x);
  }

  /** extractStockFromTsmDb: adds every entry, in order, to a new Stock. */
  method ExtractStockFromTsmDb(ast: LuaElement) returns (r: Result<Stock, TsmError>)
    ensures StockItems(ast).Failure? ==> r == Failure(StockItems(ast).error)
    ensures StockItems(ast).Success? ==>
      r.Success? && fresh(r.value.Repr) && r.value.Valid() && r.value.Contents == TableOf(StockItems(ast).value)
  {
    var found := StockItems(ast);
    if found.Failure? {
      return Failure(found.error);
    }
    var stock := AddAll(found.value);
    return Success(stock);
  }

  /** A new Stock to which the entries are added one after the other. */
  method AddAll(items: seq<ItemInStock>) returns (stock: Stock)
    ensures fresh(stock.Repr) && stock.Valid() && stock.Contents == TableOf(items)
  {
    stock := new Stock();
    var i := 0;
    while i < |items|
      invariant 0 <= i <= |items|
      invariant stock.Valid() && fresh(stock.Repr)
      invariant stock.Contents == TableOf(items[..i])
    {
      TableOfPrefix(items, i);
      stock.Add(items[i]);
      i := i + 1;
    }
    assert items[..|items|] == items;
  }

  /**
   * The quantity the extracted stock holds for an item, character and slot is the
   * Long sum of the values read for it.
   */
  lemma ExtractedQuantity(ast: LuaElement, id: int, character: string, slot: Slot)
    requires StockItems(ast).Success?
    ensures var items := StockItems(ast).value; var e := StockLookup(TableOf(items), id, character, slot);
      (e.None? <==> MatchCount(items, id, character, slot) == 0) &&
      (e.Some? ==> e.value.quantity == WrapLong(MatchSum(items, id, character, slot)))
  {
    QuantityIsSum(StockItems(ast).value, id, character, slot);
  }
}
