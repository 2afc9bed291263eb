/** Kotlin's `mapNotNull` over a list: the present results in order. */
module Lists {
  import opened Wrappers

  function MapNotNull<A, B>(xs: seq<A>, f: A -> Option<B>): (r: seq<B>)
    ensures |r| <= |xs|
    ensures forall y :: y in r ==> exists x :: x in xs && f(x) == Some(y)
    decreases |xs|
  {
    if xs == [] then []
    else
      var init := MapNotNull(xs[..|xs| - 1], f);
      var last := xs[|xs| - 1];
      assert forall x :: x in xs[..|xs| - 1] ==> x in xs;
      if f(last).Some? then init + [f(last).value] else init
  }

  /** The results of a concatenation are the results of its parts, in order. */
  lemma {:induction false} MapNotNullAppend<A, B>(xs: seq<A>, ys: seq<A>, f: A -> Option<B>)
    ensures MapNotNull(xs + ys, f) == MapNotNull(xs, f) + MapNotNull(ys, f)
    decreases |ys|
  {
    if ys == [] {
      assert xs + ys == xs;
    } else {
      var n := |ys| - 1;
      assert (xs + ys)[..|xs + ys| - 1] == xs + ys[..n];
      MapNotNullAppend(xs, ys[..n], f);
    }
  }

  /** One element gives its result when present and nothing otherwise. */
  lemma MapNotNullOne<A, B>(x: A, f: A -> Option<B>)
    ensures MapNotNull([x], f) == if f(x).Some? then [f(x).value] else []
  {
    assert [x][..0] == [];
  }

  /** Every present result shows up. */
  lemma {:induction false} MapNotNullHas<A, B>(xs: seq<A>, f: A -> Option<B>, i: nat)
    requires i < |xs| && f(xs[i]).Some?
    ensures f(xs[i]).value in MapNotNull(xs, f)
    decreases |xs|
  {
    var n := |xs| - 1;
    if i < n {
      assert xs[..n][i] == xs[i];
      MapNotNullHas(xs[..n], f, i);
    }
  }
}
