/**
 Sliding windows: keeping the elements of a list that pass a test. Two components keep such a window and
 prune it as they go; the last lemma is why pruning early loses nothing.
 */
module Window {

  function Keep<T>(xs: seq<T>, inside: T -> bool): (kept: seq<T>)
  {
    if xs == [] then []
    else
      var init, last := Keep(xs[..|xs| - 1], inside), xs[|xs| - 1];
      if inside(last) then init + [last] else init
  }

  lemma {:induction false} KeepConcat<T>(a: seq<T>, b: seq<T>, inside: T -> bool)
    ensures Keep(a + b, inside) == Keep(a, inside) + Keep(b, inside)
    decreases |b|
  {
    if b == [] {
      assert a + b == a;
    } else {
      assert (a + b)[..|a + b| - 1] == a + b[..|b| - 1];
      KeepConcat(a, b[..|b| - 1], inside);
    }
  }

  lemma KeepOne<T>(x: T, inside: T -> bool)
    ensures Keep([x], inside) == if inside(x) then [x] else []
  {
    assert [x][..0] == [];
  }

  /** Keeping by a weaker test first changes nothing. */
  lemma {:induction false} KeepTwice<T>(xs: seq<T>, earlier: T -> bool, later: T -> bool)
    requires forall x :: later(x) ==> earlier(x)
    ensures Keep(Keep(xs, earlier), later) == Keep(xs, later)
    decreases |xs|
  {
    if xs != [] {
      var init, last := xs[..|xs| - 1], xs[|xs| - 1];
      KeepTwice(init, earlier, later);
      if earlier(last) {
        KeepConcat(Keep(init, earlier), [last], later);
        KeepOne(last, later);
      }
    }
  }
}
