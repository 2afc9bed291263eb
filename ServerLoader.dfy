/**
 * loadDatabaseFromJsonFiles of the server: the result files, already decoded, are
 * merged into one database. Items are indexed by id in the order they are first seen,
 * a later sighting of an item merging its names into the known one, and the listings
 * of all files are kept in file order.
 */
module ServerLoader {
  import opened Wrappers
  import opened LinkedMap
  import opened ServerMain

  /** A decoded result file: the items it names and its listings. */
  datatype ResultFile = ResultFile(items: seq<Item>, auctions: seq<Auction>)

  function Known(index: LinkedMap<int, Item>, id: int): Option<Item> {
    if id in index.values then Some(index.values[id]) else None
  }

  /** `items.compute(it.id) { _, i -> buildItem(i, it) }`. */
  function Compute(index: LinkedMap<int, Item>, item: Item): (r: LinkedMap<int, Item>)
    requires Valid(index)
    ensures Valid(r)
  {
    Put(index, item.id, BuildItem(Known(index, item.id), item))
  }

  /** The item index after computing every item in order. */
  function Index(items: seq<Item>): (r: LinkedMap<int, Item>)
    ensures Valid(r)
    decreases |items|
  {
    if items == [] then Empty() else Compute(Index(items[..|items| - 1]), items[|items| - 1])
  }

  function AllItems(files: seq<ResultFile>): seq<Item>
    decreases |files|
  {
    if files == [] then [] else AllItems(files[..|files| - 1]) + files[|files| - 1].items
  }

  function AllAuctions(files: seq<ResultFile>): seq<Auction>
    decreases |files|
  {
    if files == [] then [] else AllAuctions(files[..|files| - 1]) + files[|files| - 1].auctions
  }

  /**
   * loadDatabaseFromJsonFiles over already decoded files: the items merged by id in
   * first-seen order, and every listing of every file in file order.
   */
  method LoadDatabase(files: seq<ResultFile>) returns (db: Database)
    ensures db == Database(Values(Index(AllItems(files))), AllAuctions(files))
  {
    var items: LinkedMap<int, Item> := Empty();
    var auctions: seq<Auction> := [];
    for i := 0 to |files|
      invariant items == Index(AllItems(files[..i]))
      invariant auctions == AllAuctions(files[..i])
    {
      var file := files[i];
      ghost var seen := AllItems(files[..i]);
      assert seen + file.items[..0] == seen;
      for j := 0 to |file.items|
        invariant items == Index(seen + file.items[..j])
      {
        var item := file.items[j];
        IndexSnoc(seen + file.items[..j], item);
        SliceSnoc(seen, file.items, j);
        items := Put(items, item.id, BuildItem(Known(items, item.id), item));
      }
      FilesSnoc(files, i);
      assert file.items[..|file.items|] == file.items;
      auctions := auctions + file.auctions;
    }
    assert files[..|files|] == files;
    db := Database(Values(items), auctions);
  }

  lemma SliceSnoc<T>(a: seq<T>, b: seq<T>, j: nat)
    requires j < |b|
    ensures a + b[..j + 1] == (a + b[..j]) + [b[j]]
  {
    assert b[..j + 1] == b[..j] + [b[j]];
  }

  lemma IndexSnoc(items: seq<Item>, item: Item)
    ensures Index(items + [item]) == Compute(Index(items), item)
  {
    assert (items + [item])[..|items|] == items;
  }

  lemma FilesSnoc(files: seq<ResultFile>, i: nat)
    requires i < |files|
    ensures AllItems(files[..i + 1]) == AllItems(files[..i]) + files[i].items
    ensures AllAuctions(files[..i + 1]) == AllAuctions(files[..i]) + files[i].auctions
  {
    assert files[..i + 1][..i] == files[..i];
  }

  lemma ComputeHas(index: LinkedMap<int, Item>, item: Item, id: int)
    requires Valid(index)
    ensures id in Compute(index, item).values <==> id == item.id || id in index.values
  {
  }

  /** Some item of `items` has the id. */
  predicate Seen(items: seq<Item>, id: int) {
    exists k :: 0 <= k < |items| && items[k].id == id
  }

  lemma SeenLast(items: seq<Item>, id: int)
    requires items != []
    ensures Seen(items, id) <==> Seen(items[..|items| - 1], id) || items[|items| - 1].id == id
  {
    var n := |items| - 1;
    if k :| 0 <= k < |items| && items[k].id == id {
      if k < n {
        assert items[..n][k].id == id;
      }
    }
    if k :| 0 <= k < n && items[..n][k].id == id {
      assert items[k].id == id;
    }
  }

  /** Every id seen is indexed, and only ids seen are. */
  lemma {:induction false} IndexIds(items: seq<Item>, id: int)
    ensures id in Index(items).values <==> Seen(items, id)
    decreases |items|
  {
    if items != [] {
      var n := |items| - 1;
      var init, last := items[..n], items[n];
      IndexLast(items);
      IndexIds(init, id);
      ComputeHas(Index(init), last, id);
      SeenLast(items, id);
    }
  }

  /** The index holds the item's id, with a name in every language the item names. */
  predicate HasNames(index: LinkedMap<int, Item>, item: Item) {
    item.id in index.values &&
    (item.frenchName.Some? ==> index.values[item.id].frenchName.Some?) &&
    (item.englishName.Some? ==> index.values[item.id].englishName.Some?)
  }

  lemma ComputeAdds(index: LinkedMap<int, Item>, item: Item)
    requires Valid(index)
    ensures HasNames(Compute(index, item), item)
  {
    if item.id in index.values {
      BuildItemKeepsNames(index.values[item.id], item);
    }
  }

  lemma ComputeKeeps(index: LinkedMap<int, Item>, next: Item, item: Item)
    requires Valid(index) && HasNames(index, item)
    ensures HasNames(Compute(index, next), item)
  {
    if next.id == item.id {
      BuildItemKeepsNames(index.values[item.id], next);
    }
  }

  lemma IndexLast(items: seq<Item>)
    requires items != []
    ensures Index(items) == Compute(Index(items[..|items| - 1]), items[|items| - 1])
  {
  }

  /** Once some file names an item in French, the indexed item has a French name; likewise in English. */
  lemma {:induction false} IndexKeepsNames(items: seq<Item>, k: nat)
    requires k < |items|
    ensures HasNames(Index(items), items[k])
    decreases |items|
  {
    var n := |items| - 1;
    var init, last := items[..n], items[n];
    IndexLast(items);
    if k == n {
      ComputeAdds(Index(init), last);
    } else {
      assert init[k] == items[k];
      IndexKeepsNames(init, k);
      ComputeKeeps(Index(init), last, items[k]);
    }
  }

  /** Every indexed item sits under its own id. */
  predicate ById(index: LinkedMap<int, Item>) {
    forall id :: id in index.values ==> index.values[id].id == id
  }

  lemma {:induction false} IndexById(items: seq<Item>)
    ensures ById(Index(items))
    decreases |items|
  {
    if items != [] {
      IndexLast(items);
      IndexById(items[..|items| - 1]);
    }
  }

  /** The values of an index kept by id: one per key, each under its own id. */
  lemma ValuesById(index: LinkedMap<int, Item>, id: int)
    requires Valid(index) && ById(index)
    ensures Seen(Values(index), id) <==> id in index.values
    ensures forall i, j :: 0 <= i < j < |Values(index)| ==> Values(index)[i].id != Values(index)[j].id
  {
    var loaded := Values(index);
    assert forall i :: 0 <= i < |loaded| ==> loaded[i].id == index.keys[i];
    if id in index.values {
      assert id in index.keys;
      var i :| 0 <= i < |index.keys| && index.keys[i] == id;
      assert loaded[i].id == id;
    }
  }

  /** The loaded items are the ids seen in the files, each once. */
  lemma LoadedIds(files: seq<ResultFile>, id: int)
    ensures Seen(Values(Index(AllItems(files))), id) <==> Seen(AllItems(files), id)
    ensures forall i, j :: 0 <= i < j < |Values(Index(AllItems(files)))| ==>
      Values(Index(AllItems(files)))[i].id != Values(Index(AllItems(files)))[j].id
  {
    IndexById(AllItems(files));
    IndexIds(AllItems(files), id);
    ValuesById(Index(AllItems(files)), id);
  }
}
