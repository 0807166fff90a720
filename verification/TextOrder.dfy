/** Text compared by code point, and stable sorting by a text key. */
module TextOrder {

  /** Lexicographic order by code point. */
  predicate AtMost(a: string, b: string) {
    a == "" || (b != "" && (a[0] < b[0] || (a[0] == b[0] && AtMost(a[1..], b[1..]))))
  }

  lemma {:induction false} AtMostTotal(a: string, b: string)
    ensures AtMost(a, b) || AtMost(b, a)
  {
    if a != "" && b != "" && a[0] == b[0] {
      AtMostTotal(a[1..], b[1..]);
    }
  }

  lemma {:induction false} AtMostAntisymmetric(a: string, b: string)
    requires AtMost(a, b) && AtMost(b, a)
    ensures a == b
  {
    if a == "" {
    } else {
      AtMostAntisymmetric(a[1..], b[1..]);
      assert a == [a[0]] + a[1..] && b == [b[0]] + b[1..];
    }
  }

  lemma {:induction false} AtMostTransitive(a: string, b: string, c: string)
    requires AtMost(a, b) && AtMost(b, c)
    ensures AtMost(a, c)
  {
    if a != "" && a[0] == b[0] && b[0] == c[0] {
      AtMostTransitive(a[1..], b[1..], c[1..]);
    }
  }

  /** The texts differ first at `i`, and there `a` has the lower code point. */
  predicate DiffersLowerAt(a: string, b: string, i: nat) {
    i < |a| && i < |b| && a[..i] == b[..i] && a[i] < b[i]
  }

  lemma {:induction false} AtMostHasReason(a: string, b: string)
    requires AtMost(a, b)
    ensures a <= b || exists i: nat :: DiffersLowerAt(a, b, i)
  {
    if a == "" {
    } else if a[0] < b[0] {
      assert DiffersLowerAt(a, b, 0);
    } else {
      AtMostHasReason(a[1..], b[1..]);
      assert a == [a[0]] + a[1..] && b == [b[0]] + b[1..];
      if !(a[1..] <= b[1..]) {
        var i: nat :| DiffersLowerAt(a[1..], b[1..], i);
        assert a[..i + 1] == [a[0]] + a[1..][..i] && b[..i + 1] == [b[0]] + b[1..][..i];
        assert DiffersLowerAt(a, b, i + 1);
      }
    }
  }

  lemma {:induction false} PrefixIsAtMost(a: string, b: string)
    requires a <= b
    ensures AtMost(a, b)
  {
    if a == "" {
    } else {
      PrefixIsAtMost(a[1..], b[1..]);
    }
  }

  lemma {:induction false} LowerIsAtMost(a: string, b: string, i: nat)
    requires DiffersLowerAt(a, b, i)
    ensures AtMost(a, b)
    decreases i
  {
    if i == 0 {
    } else {
      assert a[..i][0] == b[..i][0] && a[1..][..i - 1] == a[..i][1..] && b[1..][..i - 1] == b[..i][1..];
      LowerIsAtMost(a[1..], b[1..], i - 1);
    }
  }

  /** One text comes no later than another if it is a prefix of it, or has the lower code point where they
      first differ. */
  lemma AtMostIs(a: string, b: string)
    ensures AtMost(a, b) <==> a <= b || exists i: nat :: DiffersLowerAt(a, b, i)
  {
    if AtMost(a, b) {
      AtMostHasReason(a, b);
    } else if a <= b {
      PrefixIsAtMost(a, b);
    } else if i: nat :| DiffersLowerAt(a, b, i) {
      LowerIsAtMost(a, b, i);
    }
  }

  // ---------------------------------------------------------------- sorting

  function Insert<T>(key: T -> string, item: T, sorted: seq<T>): seq<T> {
    if sorted == [] then [item]
    else if AtMost(key(item), key(sorted[0])) then [item] + sorted
    else [sorted[0]] + Insert(key, item, sorted[1..])
  }

  function SortBy<T>(key: T -> string, items: seq<T>): seq<T> {
    if items == [] then [] else Insert(key, items[0], SortBy(key, items[1..]))
  }

  ghost predicate Sorted<T(!new)>(key: T -> string, items: seq<T>) {
    forall i, j | 0 <= i < j < |items| :: AtMost(key(items[i]), key(items[j]))
  }

  ghost predicate UniqueKeys<T(!new)>(key: T -> string, items: seq<T>) {
    forall a, b | a in items && b in items && key(a) == key(b) :: a == b
  }

  lemma {:induction false} InsertSorts<T(!new)>(key: T -> string, item: T, sorted: seq<T>)
    requires Sorted(key, sorted)
    ensures Sorted(key, Insert(key, item, sorted))
    ensures multiset(Insert(key, item, sorted)) == multiset{item} + multiset(sorted)
  {
    if sorted == [] {
    } else if AtMost(key(item), key(sorted[0])) {
      forall j | 0 <= j < |sorted| ensures AtMost(key(item), key(sorted[j])) {
        if j > 0 {
          AtMostTransitive(key(item), key(sorted[0]), key(sorted[j]));
        }
      }
    } else {
      AtMostTotal(key(item), key(sorted[0]));
      InsertSorts(key, item, sorted[1..]);
      assert sorted == [sorted[0]] + sorted[1..];
      var rest := Insert(key, item, sorted[1..]);
      forall j | 0 <= j < |rest| ensures AtMost(key(sorted[0]), key(rest[j])) {
        assert rest[j] in multiset(rest);
        assert rest[j] == item || rest[j] in sorted[1..];
      }
    }
  }

  lemma {:induction false} SortBySorts<T(!new)>(key: T -> string, items: seq<T>)
    ensures Sorted(key, SortBy(key, items)) && multiset(SortBy(key, items)) == multiset(items)
  {
    if items == [] {
    } else {
      SortBySorts(key, items[1..]);
      InsertSorts(key, items[0], SortBy(key, items[1..]));
      assert items == [items[0]] + items[1..];
    }
  }

  /** What is in order already stays as it is. */
  lemma {:induction false} SortedStays<T(!new)>(key: T -> string, items: seq<T>)
    requires Sorted(key, items)
    ensures SortBy(key, items) == items
  {
    if items == [] {
    } else {
      SortedStays(key, items[1..]);
      assert items == [items[0]] + items[1..];
      assert |items| > 1 ==> AtMost(key(items[0]), key(items[1]));
    }
  }

  /** Two sorted lists of the same items start with the same one, when keys are unique. */
  lemma HeadsAgree<T(!new)>(key: T -> string, a: seq<T>, b: seq<T>)
    requires Sorted(key, a) && Sorted(key, b) && multiset(a) == multiset(b) && UniqueKeys(key, a) && a != []
    ensures b != [] && a[0] == b[0]
  {
    assert a[0] in multiset(b);
    var i :| 0 <= i < |b| && b[i] == a[0];
    assert b[0] in multiset(a);
    var j :| 0 <= j < |a| && a[j] == b[0];
    if i != 0 && j != 0 {
      AtMostAntisymmetric(key(a[0]), key(b[0]));
    }
  }

  lemma TailsAgree<T>(a: seq<T>, b: seq<T>)
    requires a != [] && b != [] && a[0] == b[0] && multiset(a) == multiset(b)
    ensures multiset(a[1..]) == multiset(b[1..])
  {
    assert a == [a[0]] + a[1..] && b == [b[0]] + b[1..];
    assert multiset(a[1..]) == multiset(a) - multiset{a[0]};
    assert multiset(b[1..]) == multiset(b) - multiset{b[0]};
  }

  /** Two sorted lists of the same items are the same list, when keys are unique. */
  lemma {:induction false} SortedOrderIsUnique<T(!new)>(key: T -> string, a: seq<T>, b: seq<T>)
    requires Sorted(key, a) && Sorted(key, b) && multiset(a) == multiset(b) && UniqueKeys(key, a)
    ensures a == b
  {
    assert |a| == |multiset(a)| && |b| == |multiset(b)|;
    if a == [] {
    } else {
      HeadsAgree(key, a, b);
      TailsAgree(a, b);
      SortedOrderIsUnique(key, a[1..], b[1..]);
      assert a == [a[0]] + a[1..] && b == [b[0]] + b[1..];
    }
  }

  /** Sorting forgets the order its items came in, when keys are unique. */
  lemma SortForgetsOrder<T(!new)>(key: T -> string, a: seq<T>, b: seq<T>)
    requires multiset(a) == multiset(b) && UniqueKeys(key, a)
    ensures SortBy(key, a) == SortBy(key, b)
  {
    SortBySorts(key, a);
    SortBySorts(key, b);
    forall x | x in SortBy(key, a) ensures x in a {
      assert x in multiset(SortBy(key, a));
    }
    SortedOrderIsUnique(key, SortBy(key, a), SortBy(key, b));
  }
}
