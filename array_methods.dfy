/** The JavaScript array methods the components rely on (`every`, `some`,
    `find`, `filter`, `map`), each scanning left to right, with the
    characterisations the component proofs use. */
module ArrayMethods {
  import opened Wrappers

  /** `xs.every(p)`: true on the empty array. */
  function Every<T>(xs: seq<T>, p: T -> bool): bool
    decreases |xs|
  {
    xs == [] || (p(xs[0]) && Every(xs[1..], p))
  }

  /** `xs.some(p)`: false on the empty array. */
  function Any<T>(xs: seq<T>, p: T -> bool): bool
    decreases |xs|
  {
    xs != [] && (p(xs[0]) || Any(xs[1..], p))
  }

  /** `xs.find(p)`: the first element satisfying `p`, if any. */
  function Find<T>(xs: seq<T>, p: T -> bool): Option<T>
    decreases |xs|
  {
    if xs == [] then None else if p(xs[0]) then Some(xs[0]) else Find(xs[1..], p)
  }

  /** `xs.filter(p)`: the elements satisfying `p`, in order. */
  function Filter<T>(xs: seq<T>, p: T -> bool): (r: seq<T>)
    ensures |r| <= |xs|
    decreases |xs|
  {
    if xs == [] then [] else (if p(xs[0]) then [xs[0]] else []) + Filter(xs[1..], p)
  }

  /** `xs.map(f)`. */
  function Map<T, U>(xs: seq<T>, f: T -> U): (r: seq<U>)
    ensures |r| == |xs|
    decreases |xs|
  {
    if xs == [] then [] else [f(xs[0])] + Map(xs[1..], f)
  }

  predicate NoDuplicates<T(==)>(xs: seq<T>) {
    forall i, j :: 0 <= i < j < |xs| ==> xs[i] != xs[j]
  }

  /** `every` holds exactly when every element satisfies the predicate. */
  lemma {:induction false} EveryIff<T>(xs: seq<T>, p: T -> bool)
    ensures Every(xs, p) <==> forall i :: 0 <= i < |xs| ==> p(xs[i])
    decreases |xs|
  {
    if xs != [] {
      EveryIff(xs[1..], p);
      assert forall i :: 1 <= i < |xs| ==> xs[i] == xs[1..][i - 1];
    }
  }

  /** `some` holds exactly when some element satisfies the predicate. */
  lemma {:induction false} AnyIff<T>(xs: seq<T>, p: T -> bool)
    ensures Any(xs, p) <==> exists i :: 0 <= i < |xs| && p(xs[i])
    decreases |xs|
  {
    if xs != [] {
      AnyIff(xs[1..], p);
      assert forall i :: 1 <= i < |xs| ==> xs[i] == xs[1..][i - 1];
      if exists i :: 0 <= i < |xs| && p(xs[i]) {
        var i :| 0 <= i < |xs| && p(xs[i]);
        if i > 0 { assert p(xs[1..][i - 1]); }
      }
    }
  }

  /** `find` returns the element at the first index satisfying the predicate,
      and nothing when no element does. */
  lemma {:induction false} FindFirst<T>(xs: seq<T>, p: T -> bool)
    ensures Find(xs, p).None? <==> forall i :: 0 <= i < |xs| ==> !p(xs[i])
    ensures Find(xs, p).Some? ==>
              exists i :: 0 <= i < |xs| && Find(xs, p).value == xs[i] && p(xs[i]) && forall j :: 0 <= j < i ==> !p(xs[j])
    decreases |xs|
  {
    if xs != [] && !p(xs[0]) {
      FindFirst(xs[1..], p);
      assert forall i :: 1 <= i < |xs| ==> xs[i] == xs[1..][i - 1];
      if Find(xs, p).Some? {
        var i :| 0 <= i < |xs[1..]| && Find(xs, p).value == xs[1..][i] && p(xs[1..][i])
          && forall j :: 0 <= j < i ==> !p(xs[1..][j]);
        assert forall j :: 0 <= j < i + 1 ==> !p(xs[j]) by {
          forall j | 0 <= j < i + 1 ensures !p(xs[j]) {
            if j > 0 { assert xs[j] == xs[1..][j - 1]; }
          }
        }
      }
    }
  }

  /** The mapped array holds exactly the images of the elements. */
  lemma {:induction false} MapMembers<T, U>(xs: seq<T>, f: T -> U)
    ensures forall y :: y in Map(xs, f) <==> exists x :: x in xs && f(x) == y
    decreases |xs|
  {
    if xs != [] {
      MapMembers(xs[1..], f);
      assert xs == [xs[0]] + xs[1..];
    }
  }

  /** The i-th element of the mapped array is the image of the i-th element. */
  lemma {:induction false} MapAt<T, U>(xs: seq<T>, f: T -> U)
    ensures forall i :: 0 <= i < |xs| ==> Map(xs, f)[i] == f(xs[i])
    decreases |xs|
  {
    if xs != [] {
      MapAt(xs[1..], f);
      assert forall i :: 1 <= i < |xs| ==> Map(xs, f)[i] == Map(xs[1..], f)[i - 1];
    }
  }

  /** Mapping distributes over concatenation. */
  lemma {:induction false} MapAppend<T, U>(xs: seq<T>, ys: seq<T>, f: T -> U)
    ensures Map(xs + ys, f) == Map(xs, f) + Map(ys, f)
    decreases |xs|
  {
    if xs != [] {
      assert (xs + ys)[1..] == xs[1..] + ys;
      MapAppend(xs[1..], ys, f);
      calc {
        Map(xs + ys, f);
        [f(xs[0])] + Map(xs[1..] + ys, f);
        [f(xs[0])] + (Map(xs[1..], f) + Map(ys, f));
        ([f(xs[0])] + Map(xs[1..], f)) + Map(ys, f);
      }
    } else {
      assert xs + ys == ys;
    }
  }

  /** An element is kept by `filter` exactly when it occurs and satisfies the predicate. */
  lemma {:induction false} FilterMembers<T>(xs: seq<T>, p: T -> bool, x: T)
    ensures x in Filter(xs, p) <==> x in xs && p(x)
    decreases |xs|
  {
    if xs != [] {
      FilterMembers(xs[1..], p, x);
      assert xs == [xs[0]] + xs[1..];
    }
  }

  /** Filtering keeps an array without duplicates free of duplicates. */
  lemma {:induction false} FilterNoDuplicates<T>(xs: seq<T>, p: T -> bool)
    requires NoDuplicates(xs)
    ensures NoDuplicates(Filter(xs, p))
    decreases |xs|
  {
    if xs != [] {
      var rest := xs[1..];
      assert NoDuplicates(rest) by {
        forall i, j | 0 <= i < j < |rest| ensures rest[i] != rest[j] {
          assert rest[i] == xs[i + 1] && rest[j] == xs[j + 1];
        }
      }
      FilterNoDuplicates(rest, p);
      FilterMembers(rest, p, xs[0]);
      assert xs[0] !in rest by {
        forall i | 0 <= i < |rest| ensures rest[i] != xs[0] {
          assert rest[i] == xs[i + 1];
        }
      }
    }
  }

  /** Filtering keeps an array whose elements all satisfy the predicate whole. */
  lemma {:induction false} FilterKeepsAll<T>(xs: seq<T>, p: T -> bool)
    requires forall i :: 0 <= i < |xs| ==> p(xs[i])
    ensures Filter(xs, p) == xs
    decreases |xs|
  {
    if xs != [] {
      FilterKeepsAll(xs[1..], p);
    }
  }

  /** Filtering distributes over concatenation. */
  lemma {:induction false} FilterAppend<T>(xs: seq<T>, ys: seq<T>, p: T -> bool)
    ensures Filter(xs + ys, p) == Filter(xs, p) + Filter(ys, p)
    decreases |xs|
  {
    if xs != [] {
      assert (xs + ys)[1..] == xs[1..] + ys;
      FilterAppend(xs[1..], ys, p);
      var head := if p(xs[0]) then [xs[0]] else [];
      calc {
        Filter(xs + ys, p);
        head + Filter(xs[1..] + ys, p);
        head + (Filter(xs[1..], p) + Filter(ys, p));
        (head + Filter(xs[1..], p)) + Filter(ys, p);
      }
    } else {
      assert xs + ys == ys;
    }
  }

  /** A list without duplicates has as many distinct elements as entries. */
  lemma {:induction false} DistinctCardinality<T>(xs: seq<T>)
    requires NoDuplicates(xs)
    ensures |set x | x in xs| == |xs|
    decreases |xs|
  {
    if xs != [] {
      var rest := xs[1..];
      assert NoDuplicates(rest) by {
        forall i, j | 0 <= i < j < |rest| ensures rest[i] != rest[j] {
          assert rest[i] == xs[i + 1] && rest[j] == xs[j + 1];
        }
      }
      DistinctCardinality(rest);
      assert xs[0] !in rest by {
        forall i | 0 <= i < |rest| ensures rest[i] != xs[0] {
          assert rest[i] == xs[i + 1];
        }
      }
      var tail := set x | x in rest;
      assert (set x | x in xs) == tail + {xs[0]} by {
        assert xs == [xs[0]] + rest;
      }
      assert xs[0] !in tail;
      assert |tail + {xs[0]}| == |tail| + 1;
    } else {
      assert (set x | x in xs) == {};
    }
  }
}
