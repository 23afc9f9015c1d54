/** Small facts about sequences of any type. */
module Lists {
  lemma AssocSeq<T>(a: seq<T>, b: seq<T>, c: seq<T>)
    ensures (a + b) + c == a + (b + c)
  {
  }

  lemma SplitAround<T>(a: seq<T>, k: nat)
    requires k < |a|
    ensures a == a[..k] + [a[k]] + a[k + 1..]
  {
  }

  lemma NilSeq<T>(a: seq<T>)
    ensures [] + a == a && a + [] == a
  {
  }

  predicate NoDuplicates<T(==)>(xs: seq<T>) {
    forall i, j :: 0 <= i < j < |xs| ==> xs[i] != xs[j]
  }

  lemma ConsDistinct<T>(x: T, xs: seq<T>)
    requires NoDuplicates(xs) && x !in xs
    ensures NoDuplicates([x] + xs)
  {
  }

  /** The first occurrence of each element, in order: `list(dict.fromkeys(xs))`. */
  function Dedupe<T(==)>(xs: seq<T>): seq<T> {
    if xs == [] then []
    else
      var d := Dedupe(xs[..|xs| - 1]);
      if xs[|xs| - 1] in d then d else d + [xs[|xs| - 1]]
  }

  lemma DedupeSnoc<T>(xs: seq<T>, x: T)
    ensures Dedupe(xs + [x]) == if x in Dedupe(xs) then Dedupe(xs) else Dedupe(xs) + [x]
  {
    assert (xs + [x])[..|xs|] == xs;
  }

  /** Each element is listed where it comes first. */
  lemma {:induction false} DedupeAt<T>(xs: seq<T>, i: nat)
    requires i < |xs|
    ensures Dedupe(xs[..i]) <= Dedupe(xs)
    ensures xs[i] !in xs[..i] ==> Dedupe(xs[..i]) + [xs[i]] <= Dedupe(xs)
  {
    var init := xs[..|xs| - 1];
    if i < |init| {
      DedupeAt(init, i);
      assert init[..i] == xs[..i];
    } else {
      DedupeFacts(init);
    }
  }

  lemma {:induction false} DedupeFacts<T>(xs: seq<T>)
    ensures NoDuplicates(Dedupe(xs)) && forall x :: x in Dedupe(xs) <==> x in xs
  {
    if xs != [] {
      var init, last := xs[..|xs| - 1], xs[|xs| - 1];
      DedupeFacts(init);
      assert xs == init + [last];
    }
  }

  /** Elements already listed add nothing; those of a list without duplicates are added one by one. */
  lemma {:induction false} DedupeOnto<T>(a: seq<T>, b: seq<T>)
    ensures Dedupe(a + Dedupe(b)) == Dedupe(a + b)
    decreases |b|
  {
    if b == [] {
    } else {
      var init, last := b[..|b| - 1], b[|b| - 1];
      DedupeOnto(a, init);
      assert a + b == (a + init) + [last];
      DedupeSnoc(a + init, last);
      DedupeFacts(init);
      if last in Dedupe(init) {
        DedupeFacts(a + init);
      } else {
        assert a + Dedupe(b) == (a + Dedupe(init)) + [last];
        DedupeSnoc(a + Dedupe(init), last);
      }
    }
  }

  lemma {:induction false} DedupeTwice<T>(a: seq<T>, b: seq<T>)
    ensures Dedupe(Dedupe(a) + b) == Dedupe(a + b)
    decreases |b|
  {
    if b == [] {
      NilSeq(a);
      NilSeq(Dedupe(a));
      DedupeOnto([], a);
      NilSeq(Dedupe(a));
    } else {
      var init, last := b[..|b| - 1], b[|b| - 1];
      DedupeTwice(a, init);
      assert a + b == (a + init) + [last];
      assert Dedupe(a) + b == (Dedupe(a) + init) + [last];
      DedupeSnoc(a + init, last);
      DedupeSnoc(Dedupe(a) + init, last);
    }
  }

  lemma {:induction false} SubsetSize<T>(a: set<T>, b: set<T>)
    requires a <= b
    ensures |a| <= |b|
  {
    if a != {} {
      var x :| x in a;
      SubsetSize(a - {x}, b - {x});
    }
  }
}
