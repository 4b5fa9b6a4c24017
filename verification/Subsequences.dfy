/** In-order subsequences: what a queue that only drops elements delivers. */
module Subsequences {
  predicate Subsequence<T(==)>(a: seq<T>, b: seq<T>) {
    a == []
    || (b != []
        && ((a[|a| - 1] == b[|b| - 1] && Subsequence(a[..|a| - 1], b[..|b| - 1]))
            || Subsequence(a, b[..|b| - 1])))
  }

  lemma Skip<T>(a: seq<T>, b: seq<T>, x: T)
    requires Subsequence(a, b)
    ensures Subsequence(a, b + [x])
  {
    assert (b + [x])[..|b|] == b;
  }

  lemma Take<T>(a: seq<T>, b: seq<T>, x: T)
    requires Subsequence(a, b)
    ensures Subsequence(a + [x], b + [x])
  {
    assert (a + [x])[..|a|] == a && (b + [x])[..|b|] == b;
  }

  lemma {:induction false} Reflexive<T>(a: seq<T>)
    ensures Subsequence(a, a)
  {
    if a != [] {
      Reflexive(a[..|a| - 1]);
    }
  }

  lemma {:induction false} Extend<T>(a: seq<T>, b: seq<T>, more: seq<T>)
    requires Subsequence(a, b)
    ensures Subsequence(a, b + more)
  {
    if more == [] {
      assert b + more == b;
    } else {
      Extend(a, b, more[..|more| - 1]);
      Skip(a, b + more[..|more| - 1], more[|more| - 1]);
      assert b + more == b + more[..|more| - 1] + [more[|more| - 1]];
    }
  }

  lemma {:induction false} CommonSuffix<T>(a: seq<T>, b: seq<T>, suffix: seq<T>)
    requires Subsequence(a, b)
    ensures Subsequence(a + suffix, b + suffix)
  {
    if suffix == [] {
      assert a + suffix == a && b + suffix == b;
    } else {
      var init, last := suffix[..|suffix| - 1], suffix[|suffix| - 1];
      CommonSuffix(a, b, init);
      Take(a + init, b + init, last);
      assert a + suffix == a + init + [last] && b + suffix == b + init + [last];
    }
  }

  lemma {:induction false} Transitive<T>(a: seq<T>, b: seq<T>, c: seq<T>)
    requires Subsequence(a, b) && Subsequence(b, c)
    ensures Subsequence(a, c)
    decreases |c|
  {
    if a != [] && b != [] {
      var a', b', c' := a[..|a| - 1], b[..|b| - 1], c[..|c| - 1];
      if b[|b| - 1] == c[|c| - 1] && Subsequence(b', c') {
        if a[|a| - 1] == b[|b| - 1] && Subsequence(a', b') {
          Transitive(a', b', c');
        } else {
          Transitive(a, b', c');
        }
      } else {
        Transitive(a, b, c');
      }
    }
  }
}
