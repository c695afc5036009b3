/** What it means for a list to hold exactly the wanted items of another, in order and as often. */
module Lists {

  /** How many of the first `n` items are wanted. */
  ghost function Rank<T>(items: seq<T>, wanted: T -> bool, n: nat): nat
    requires n <= |items|
  {
    if n == 0 then 0 else Rank(items, wanted, n - 1) + if wanted(items[n - 1]) then 1 else 0
  }

  /** `kept` holds the wanted items and no others, each at the place that the wanted ones before it leave. */
  ghost predicate Sifted<T>(items: seq<T>, wanted: T -> bool, kept: seq<T>) {
    && |kept| == Rank(items, wanted, |items|)
    && (forall k :: 0 <= k < |kept| ==> kept[k] in items && wanted(kept[k]))
    && (forall i :: 0 <= i < |items| && wanted(items[i]) ==>
          Rank(items, wanted, i) < |kept| && kept[Rank(items, wanted, i)] == items[i])
  }

  lemma {:induction false} RankOfFront<T>(items: seq<T>, wanted: T -> bool, last: T, n: nat)
    requires n <= |items|
    ensures Rank(items + [last], wanted, n) == Rank(items, wanted, n)
  {
    if n > 0 {
      RankOfFront(items, wanted, last, n - 1);
    }
  }

  lemma {:induction false} RankGrows<T>(items: seq<T>, wanted: T -> bool, m: nat, n: nat)
    requires m <= n <= |items|
    ensures Rank(items, wanted, m) <= Rank(items, wanted, n)
    ensures m < n && wanted(items[m]) ==> Rank(items, wanted, m) < Rank(items, wanted, n)
  {
    if m < n {
      RankGrows(items, wanted, m, n - 1);
    }
  }

  lemma SiftedNext<T>(items: seq<T>, wanted: T -> bool, kept: seq<T>, last: T)
    requires Sifted(items, wanted, kept)
    ensures Sifted(items + [last], wanted, kept + if wanted(last) then [last] else [])
  {
    var all, more := items + [last], kept + if wanted(last) then [last] else [];
    RankOfFront(items, wanted, last, |items|);
    forall i | 0 <= i < |all| && wanted(all[i])
      ensures Rank(all, wanted, i) < |more| && more[Rank(all, wanted, i)] == all[i]
    {
      if i < |items| {
        RankOfFront(items, wanted, last, i);
        assert all[i] == items[i];
      }
    }
  }

  /** Wanting the same items sifts the same way. */
  lemma {:induction false} SameRank<T>(items: seq<T>, f: T -> bool, g: T -> bool, n: nat)
    requires n <= |items| && forall i :: 0 <= i < |items| ==> f(items[i]) == g(items[i])
    ensures Rank(items, f, n) == Rank(items, g, n)
  {
    if n > 0 {
      SameRank(items, f, g, n - 1);
    }
  }

  lemma SameSifted<T>(items: seq<T>, f: T -> bool, g: T -> bool, kept: seq<T>)
    requires Sifted(items, f, kept) && forall i :: 0 <= i < |items| ==> f(items[i]) == g(items[i])
    ensures Sifted(items, g, kept)
  {
    forall n: nat | n <= |items| ensures Rank(items, f, n) == Rank(items, g, n) {
      SameRank(items, f, g, n);
    }
    forall k | 0 <= k < |kept| ensures g(kept[k]) {
      assert kept[k] in items;
    }
  }

  /** Nothing wanted before `i` leaves it the first place. */
  lemma {:induction false} FirstRank<T>(items: seq<T>, wanted: T -> bool, i: nat)
    requires i <= |items| && forall j :: 0 <= j < i ==> !wanted(items[j])
    ensures Rank(items, wanted, i) == 0
  {
    if i > 0 {
      FirstRank(items, wanted, i - 1);
    }
  }
}
