/** Strings in code point order, and sorted sets of strings as sequences. */
module Ordering {
  predicate Below(a: string, b: string) {
    if a == "" then b != ""
    else if b == "" then false
    else a[0] < b[0] || (a[0] == b[0] && Below(a[1..], b[1..]))
  }

  // The strings agree up to here, where the first one ends or has the smaller character.
  predicate FirstDifference(a: string, b: string, k: nat) {
    && k <= |a| && k < |b| && a[..k] == b[..k] && (k < |a| ==> a[k] < b[k])
  }

  /** One string is below another exactly when it is smaller at the first difference. */
  lemma BelowIff(a: string, b: string)
    ensures Below(a, b) <==> exists k: nat :: FirstDifference(a, b, k)
  {
    if Below(a, b) {
      var k := BelowDiffers(a, b);
    }
    if k: nat :| FirstDifference(a, b, k) {
      DifferenceIsBelow(a, b, k);
    }
  }

  lemma {:induction false} BelowDiffers(a: string, b: string) returns (k: nat)
    requires Below(a, b)
    ensures FirstDifference(a, b, k)
  {
    k := 0;
    if a != "" && a[0] == b[0] {
      k := BelowDiffers(a[1..], b[1..]);
      assert a[..k + 1] == [a[0]] + a[1..][..k] && b[..k + 1] == [b[0]] + b[1..][..k];
      k := k + 1;
    }
  }

  lemma {:induction false} DifferenceIsBelow(a: string, b: string, k: nat)
    requires FirstDifference(a, b, k)
    ensures Below(a, b)
  {
    if k > 0 {
      assert a[..k][0] == a[0] && b[..k][0] == b[0];
      assert a[1..][..k - 1] == a[..k][1..] && b[1..][..k - 1] == b[..k][1..];
      DifferenceIsBelow(a[1..], b[1..], k - 1);
    }
  }

  lemma {:induction false} BelowTotal(a: string, b: string)
    ensures Below(a, b) || a == b || Below(b, a)
    ensures !(Below(a, b) && Below(b, a)) && (a == b ==> !Below(a, b))
  {
    if a != "" && b != "" {
      BelowTotal(a[1..], b[1..]);
      assert a == [a[0]] + a[1..] && b == [b[0]] + b[1..];
    }
  }

  lemma {:induction false} BelowTransitive(a: string, b: string, c: string)
    requires Below(a, b) && Below(b, c)
    ensures Below(a, c)
  {
    if a != "" && c != "" && a[0] == b[0] && b[0] == c[0] {
      BelowTransitive(a[1..], b[1..], c[1..]);
    }
  }

  // Strictly increasing.
  predicate Increasing(xs: seq<string>) {
    forall i, j | 0 <= i < j < |xs| :: Below(xs[i], xs[j])
  }

  function Insert(x: string, xs: seq<string>): (r: seq<string>)
    ensures forall y :: y in r <==> y == x || y in xs
  {
    if xs == [] then [x]
    else if x == xs[0] then xs
    else if Below(x, xs[0]) then [x] + xs
    else
      assert xs == [xs[0]] + xs[1..];
      [xs[0]] + Insert(x, xs[1..])
  }

  lemma {:induction false} InsertIncreasing(x: string, xs: seq<string>)
    requires Increasing(xs)
    ensures Increasing(Insert(x, xs))
  {
    if xs != [] && x != xs[0] {
      if Below(x, xs[0]) {
        forall j | 0 < j < |xs| ensures Below(x, xs[j]) {
          BelowTransitive(x, xs[0], xs[j]);
        }
      } else {
        BelowTotal(x, xs[0]);
        InsertIncreasing(x, xs[1..]);
        var rest := Insert(x, xs[1..]);
        forall j | 0 <= j < |rest| ensures Below(xs[0], rest[j]) {
          assert rest[j] in rest;
          if rest[j] != x {
            assert rest[j] in xs[1..];
          }
        }
      }
    }
  }

  // The distinct elements in increasing order.
  function SortedSet(xs: seq<string>): (r: seq<string>)
    ensures forall y :: y in r <==> y in xs
  {
    if xs == [] then []
    else
      assert xs == [xs[0]] + xs[1..];
      Insert(xs[0], SortedSet(xs[1..]))
  }

  lemma {:induction false} SortedSetIncreasing(xs: seq<string>)
    ensures Increasing(SortedSet(xs))
  {
    if xs != [] {
      SortedSetIncreasing(xs[1..]);
      InsertIncreasing(xs[0], SortedSet(xs[1..]));
    }
  }

  /** An increasing sequence is determined by its elements. */
  lemma {:induction false} IncreasingUnique(xs: seq<string>, ys: seq<string>)
    requires Increasing(xs) && Increasing(ys) && forall s :: s in xs <==> s in ys
    ensures xs == ys
  {
    assert (xs != [] ==> xs[0] in xs) && (ys != [] ==> ys[0] in ys);
    if xs != [] && ys != [] {
      var i :| 0 <= i < |ys| && ys[i] == xs[0];
      var j :| 0 <= j < |xs| && xs[j] == ys[0];
      BelowTotal(xs[0], ys[0]);
      assert xs[0] == ys[0];
      forall s ensures s in xs[1..] <==> s in ys[1..] {
        BelowTotal(xs[0], s);
        if s in xs[1..] {
          var k :| 0 < k < |xs| && xs[k] == s;
          assert s in ys && s != ys[0];
        }
        if s in ys[1..] {
          var k :| 0 < k < |ys| && ys[k] == s;
          assert s in xs && s != xs[0];
        }
      }
      IncreasingUnique(xs[1..], ys[1..]);
    }
  }
}
