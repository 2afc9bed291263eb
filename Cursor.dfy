/**
 * The java.util.ListIterator both tokenizers share a cursor through (and the plain
 * Iterator the tree builder reads tokens with): a position between the elements of
 * an immutable list, moved by next() and previous().
 */
module Cursor {
  import opened Wrappers

  /** How many elements from index i on satisfy p, up to the first that does not. */
  function RunLength<T>(s: seq<T>, i: nat, p: T -> bool): (k: nat)
    requires i <= |s|
    ensures i + k <= |s|
    ensures forall j :: i <= j < i + k ==> p(s[j])
    ensures i + k < |s| ==> !p(s[i + k])
    decreases |s| - i
  {
    if i == |s| || !p(s[i]) then 0 else 1 + RunLength(s, i + 1, p)
  }

  /** A run is determined by where it stops. */
  lemma {:induction false} RunLengthIs<T>(s: seq<T>, i: nat, p: T -> bool, e: nat)
    requires i <= e <= |s|
    requires forall j :: i <= j < e ==> p(s[j])
    requires e < |s| ==> !p(s[e])
    ensures RunLength(s, i, p) == e - i
    decreases e - i
  {
    if i < e {
      RunLengthIs(s, i + 1, p, e);
    }
  }

  /** Where draining takeWhile leaves the cursor: past the run and past the element that ended it. */
  function AfterTakeWhile<T>(s: seq<T>, i: nat, p: T -> bool): (e: nat)
    requires i <= |s|
    ensures i <= e <= |s|
  {
    var k := RunLength(s, i, p);
    if i + k < |s| then i + k + 1 else i + k
  }

  /**
   * Where the read-run-then-rewind idiom leaves the cursor: after takeWhile, one
   * previous() and one next() land on the last element read, and a second
   * previous() steps back over it unless `keep` accepts it.
   */
  function AfterPushBack<T>(s: seq<T>, i: nat, p: T -> bool, keep: T -> bool): (e: nat)
    requires 0 < i <= |s|
    ensures i - 1 <= e <= |s|
  {
    var e := AfterTakeWhile(s, i, p);
    if keep(s[e - 1]) then e else e - 1
  }

  class SeqIterator<T> {
    const items: seq<T>
    var cursor: nat

    ghost predicate Valid()
      reads this
    {
      cursor <= |items|
    }

    constructor (items: seq<T>)
      ensures Valid() && this.items == items && cursor == 0
    {
      this.items := items;
      cursor := 0;
    }

    predicate HasNext()
      reads this
    {
      cursor < |items|
    }

    /** next(): the element after the cursor, or None for NoSuchElementException. */
    method Next() returns (r: Option<T>)
      requires Valid()
      modifies this`cursor
      ensures Valid()
      ensures old(cursor) < |items| ==> r == Some(items[old(cursor)]) && cursor == old(cursor) + 1
      ensures old(cursor) == |items| ==> r == None && cursor == old(cursor)
    {
      if cursor < |items| {
        r := Some(items[cursor]);
        cursor := cursor + 1;
      } else {
        r := None;
      }
    }

    /** previous(), called only where an element has been read before. */
    method Previous() returns (x: T)
      requires Valid() && cursor > 0
      modifies this`cursor
      ensures Valid()
      ensures cursor == old(cursor) - 1 && x == items[cursor]
    {
      cursor := cursor - 1;
      x := items[cursor];
    }

    /** asSequence().takeWhile(p), drained: the element that ends the run is consumed as well. */
    method TakeWhile(p: T -> bool) returns (run: seq<T>)
      requires Valid()
      modifies this`cursor
      ensures Valid()
      ensures run == items[old(cursor)..old(cursor) + RunLength(items, old(cursor), p)]
      ensures cursor == AfterTakeWhile(items, old(cursor), p)
    {
      var start := cursor;
      run := [];
      while cursor < |items|
        invariant Valid() && start <= cursor
        invariant run == items[start..cursor]
        invariant forall j :: start <= j < cursor ==> p(items[j])
        decreases |items| - cursor
      {
        var x := Next();
        if !p(x.value) {
          RunLengthIs(items, start, p, cursor - 1);
          return;
        }
        run := run + [x.value];
      }
      RunLengthIs(items, start, p, cursor);
    }

    /** The number and word producers' idiom: takeWhile, previous(), next(), and previous() again unless `keep` holds. */
    method RunThenPushBack(p: T -> bool, keep: T -> bool) returns (run: seq<T>)
      requires Valid() && cursor > 0
      modifies this`cursor
      ensures Valid()
      ensures run == items[old(cursor)..old(cursor) + RunLength(items, old(cursor), p)]
      ensures cursor == AfterPushBack(items, old(cursor), p, keep)
    {
      run := TakeWhile(p);
      var _ := Previous();
      var x := Next();
      if !keep(x.value) {
        var _ := Previous();
      }
    }
  }
}
