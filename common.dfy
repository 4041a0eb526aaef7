/** Small shared vocabulary: optional values (C# null), exceptional outcomes,
    and sequence filtering as LINQ's Where/Except perform it. */
module Common {

  /** A value that may be absent; None stands for a C# null. */
  datatype Option<+T> = None | Some(value: T)

  /** The result of a call that either returns normally or throws. */
  datatype Outcome<+T> = Returned(value: T) | Thrown(message: string)

  predicate NoDuplicates<T(==)>(s: seq<T>) {
    forall i, j :: 0 <= i < j < |s| ==> s[i] != s[j]
  }

  /** Extending a prefix by one element. */
  lemma PrefixStep<T>(a: seq<T>, s: seq<T>, i: nat)
    requires i < |s|
    ensures s[..i + 1] == s[..i] + [s[i]]
    ensures s[..i + 1][..i] == s[..i]
    ensures a + s[..i] + [s[i]] == a + s[..i + 1]
  {
  }

  /** Appending an opening element, a middle and a closing element one after
      the other appends the bracketed middle. */
  lemma AppendBracketed<T>(a: seq<T>, open: T, middle: seq<T>, close: T)
    ensures a + [open] + middle + [close] == a + ([open] + middle + [close])
  {
  }

  function Not<T>(p: T -> bool): T -> bool {
    x => !p(x)
  }

  /** LINQ Where: the elements of s satisfying p, in their original order. */
  function Filter<T>(s: seq<T>, p: T -> bool): (r: seq<T>)
    ensures |r| <= |s|
    ensures forall x :: x in r ==> x in s && p(x)
    ensures forall i :: 0 <= i < |s| && p(s[i]) ==> s[i] in r
  {
    if s == [] then []
    else if p(s[0]) then [s[0]] + Filter(s[1..], p)
    else Filter(s[1..], p)
  }

  lemma {:induction false} FilterAppend<T>(a: seq<T>, b: seq<T>, p: T -> bool)
    ensures Filter(a + b, p) == Filter(a, p) + Filter(b, p)
  {
    if a == [] {
      assert a + b == b;
    } else {
      assert (a + b)[1..] == a[1..] + b;
      FilterAppend(a[1..], b, p);
    }
  }

  /** Filtering a sequence whose every element passes changes nothing. */
  lemma {:induction false} FilterAll<T>(s: seq<T>, p: T -> bool)
    requires forall x :: x in s ==> p(x)
    ensures Filter(s, p) == s
  {
    if s != [] {
      FilterAll(s[1..], p);
    }
  }

  /** Filtering a sequence whose every element fails gives nothing. */
  lemma {:induction false} FilterNone<T>(s: seq<T>, p: T -> bool)
    requires forall x :: x in s ==> !p(x)
    ensures Filter(s, p) == []
  {
    if s != [] {
      FilterNone(s[1..], p);
    }
  }

  lemma {:induction false} FilterCongruent<T>(s: seq<T>, p: T -> bool, q: T -> bool)
    requires forall x :: x in s ==> p(x) == q(x)
    ensures Filter(s, p) == Filter(s, q)
  {
    if s != [] {
      FilterCongruent(s[1..], p, q);
    }
  }

  lemma {:induction false} FilterNoDuplicates<T>(s: seq<T>, p: T -> bool)
    requires NoDuplicates(s)
    ensures NoDuplicates(Filter(s, p))
  {
    if s != [] {
      assert NoDuplicates(s[1..]) by {
        forall i, j | 0 <= i < j < |s[1..]| ensures s[1..][i] != s[1..][j] {
          assert s[1..][i] == s[i + 1] && s[1..][j] == s[j + 1];
        }
      }
      FilterNoDuplicates(s[1..], p);
      if p(s[0]) {
        assert s[0] !in s[1..];
        assert s[0] !in Filter(s[1..], p);
      }
    }
  }

  /** LINQ Except(xs, banned): walks xs and yields each element that is neither
      banned nor already yielded (Except is a set operation). */
  function ExceptFrom<T(==)>(xs: seq<T>, banned: set<T>): (r: seq<T>)
    decreases |xs|
  {
    if xs == [] then []
    else if xs[0] in banned then ExceptFrom(xs[1..], banned)
    else [xs[0]] + ExceptFrom(xs[1..], banned + {xs[0]})
  }

  function Except<T(==)>(xs: seq<T>, ys: seq<T>): seq<T> {
    ExceptFrom(xs, set y | y in ys)
  }

  /** Except keeps exactly the elements of xs that are not banned. */
  lemma {:induction false} ExceptFromMembers<T>(xs: seq<T>, banned: set<T>)
    ensures forall x :: x in ExceptFrom(xs, banned) <==> x in xs && x !in banned
    decreases |xs|
  {
    if xs != [] {
      if xs[0] in banned {
        ExceptFromMembers(xs[1..], banned);
      } else {
        ExceptFromMembers(xs[1..], banned + {xs[0]});
        forall x | x in xs && x !in banned ensures x in ExceptFrom(xs, banned) {
          if x != xs[0] {
            assert x in xs[1..];
          }
        }
      }
    }
  }

  /** On a duplicate-free sequence Except's set semantics coincide with a filter. */
  lemma {:induction false} ExceptFromIsFilter<T>(xs: seq<T>, banned: set<T>)
    requires NoDuplicates(xs)
    ensures ExceptFrom(xs, banned) == Filter(xs, x => x !in banned)
    decreases |xs|
  {
    if xs != [] {
      var rest := xs[1..];
      assert NoDuplicates(rest) by {
        forall i, j | 0 <= i < j < |rest| ensures rest[i] != rest[j] {
          assert rest[i] == xs[i + 1] && rest[j] == xs[j + 1];
        }
      }
      if xs[0] in banned {
        ExceptFromIsFilter(rest, banned);
      } else {
        ExceptFromIsFilter(rest, banned + {xs[0]});
        assert xs[0] !in rest;
        FilterCongruent(rest, x => x !in banned + {xs[0]}, x => x !in banned);
      }
    }
  }
}
