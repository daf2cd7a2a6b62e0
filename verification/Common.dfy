/** Types shared by every part of the model. */
module Common {

  datatype Option<+T> = None | Some(value: T)

  datatype Result<+T, +E> = Ok(value: T) | Err(error: E) {
    predicate IsFailure() {
      Err?
    }

    function PropagateFailure<U>(): Result<U, E>
      requires Err?
    {
      Err(error)
    }

    function Extract(): T
      requires Ok?
    {
      value
    }
  }

  /** A UUID column, read as the 128-bit number whose order the database sorts by. */
  type Uuid = nat

  /** An instant in whole milliseconds, as a JavaScript `Date` holds it. */
  type Instant = int

  /** `Number.MAX_SAFE_INTEGER` */
  const MAX_SAFE_INTEGER := 9_007_199_254_740_991

  /** The characters that JavaScript's `String.prototype.trim` removes. */
  predicate IsWhiteSpace(c: char) {
    || '\t' <= c <= '\r'
    || c == ' ' || c == '\U{00A0}' || c == '\U{1680}'
    || '\U{2000}' <= c <= '\U{200A}'
    || c == '\U{2028}' || c == '\U{2029}' || c == '\U{202F}' || c == '\U{205F}'
    || c == '\U{3000}' || c == '\U{FEFF}'
  }

  /** `text.trim().length === 0` */
  predicate IsBlank(text: string) {
    forall c | c in text :: IsWhiteSpace(c)
  }

  predicate NoDuplicates<T(==)>(items: seq<T>) {
    forall i, j | 0 <= i < j < |items| :: items[i] != items[j]
  }

  function Elements<T>(items: seq<T>): set<T> {
    set x | x in items
  }

  lemma {:induction false} ElementsOfDistinct<T>(items: seq<T>)
    requires NoDuplicates(items)
    ensures |Elements(items)| == |items|
  {
    if items == [] {
      assert Elements(items) == {};
    } else {
      var last := items[|items| - 1];
      var front := items[..|items| - 1];
      ElementsOfDistinct(front);
      assert last !in Elements(front);
      assert items == front + [last];
      assert Elements(items) == Elements(front) + {last};
    }
  }

  lemma {:induction false} ElementsAtMost<T>(items: seq<T>)
    ensures |Elements(items)| <= |items|
  {
    if items != [] {
      var last := items[|items| - 1];
      var front := items[..|items| - 1];
      ElementsAtMost(front);
      assert items == front + [last];
      assert Elements(items) == Elements(front) + {last};
    }
  }

  /** `new Set(items).size === items.length` */
  lemma DistinctIffSizesAgree<T>(items: seq<T>)
    ensures NoDuplicates(items) <==> |Elements(items)| == |items|
  {
    if NoDuplicates(items) {
      ElementsOfDistinct(items);
    } else {
      var i, j :| 0 <= i < j < |items| && items[i] == items[j];
      var fewer := items[..j] + items[j + 1..];
      assert items[i] in items[..j];
      forall x | x in items
        ensures x in fewer
      {
        var k :| 0 <= k < |items| && items[k] == x;
        assert k < j ==> items[k] in items[..j];
        assert k > j ==> items[k] in items[j + 1..];
      }
      assert Elements(items) == Elements(fewer);
      ElementsAtMost(fewer);
    }
  }

  lemma SubsetSize<T>(small: set<T>, large: set<T>)
    requires small <= large
    ensures |small| <= |large|
  {
    assert large == small + (large - small);
  }

  /** A list without duplicates drawn from another list is no longer than it. */
  lemma DistinctDrawnFrom<T>(items: seq<T>, pool: seq<T>)
    requires NoDuplicates(items)
    requires forall x | x in items :: x in pool
    ensures |items| <= |pool|
  {
    ElementsOfDistinct(items);
    ElementsAtMost(pool);
    assert Elements(items) <= Elements(pool);
    SubsetSize(Elements(items), Elements(pool));
  }

  /** A permutation has the last item somewhere, and is a permutation of the others around it. */
  lemma WithoutLast<T>(items: seq<T>, shuffled: seq<T>) returns (before: seq<T>, after: seq<T>)
    requires multiset(items) == multiset(shuffled) && items != []
    ensures shuffled == before + [items[|items| - 1]] + after
    ensures multiset(items[..|items| - 1]) == multiset(before + after)
  {
    var front, last := items[..|items| - 1], items[|items| - 1];
    assert items == front + [last];
    assert last in multiset(shuffled);
    var i :| 0 <= i < |shuffled| && shuffled[i] == last;
    before, after := shuffled[..i], shuffled[i + 1..];
    assert shuffled == before + [last] + after;
    assert multiset(items) == multiset(front) + multiset{last};
    assert multiset(shuffled) == multiset(before + after) + multiset{last};
    assert multiset(front) == multiset(items) - multiset{last} == multiset(before + after);
  }

  ghost function Where(items: set<Uuid>, keep: Uuid -> bool): set<Uuid> {
    set x | x in items && keep(x)
  }

  lemma WhereGrows(items: set<Uuid>, keep: Uuid -> bool, x: Uuid)
    requires x !in items
    ensures |Where(items + {x}, keep)| == |Where(items, keep)| + (if keep(x) then 1 else 0)
  {
    if keep(x) {
      assert Where(items + {x}, keep) == Where(items, keep) + {x};
    } else {
      assert Where(items + {x}, keep) == Where(items, keep);
    }
  }

  /** Summation over a finite set of rows. */
  ghost function Sum(keys: set<Uuid>, amount: Uuid -> nat): nat {
    if keys == {} then 0
    else
      var k :| k in keys;
      amount(k) + Sum(keys - {k}, amount)
  }

  lemma {:induction false} SumSplit(keys: set<Uuid>, amount: Uuid -> nat, k: Uuid)
    requires k in keys
    ensures Sum(keys, amount) == amount(k) + Sum(keys - {k}, amount)
  {
    var first :| first in keys && Sum(keys, amount) == amount(first) + Sum(keys - {first}, amount);
    if first != k {
      SumSplit(keys - {first}, amount, k);
      SumSplit(keys - {k}, amount, first);
      assert keys - {first} - {k} == keys - {k} - {first};
    }
  }

  lemma {:induction false} SumLess(keys: set<Uuid>, before: Uuid -> nat, after: Uuid -> nat, fallen: set<Uuid>)
    requires fallen <= keys
    requires forall k | k in keys :: after(k) <= before(k)
    requires forall k | k in fallen :: after(k) < before(k)
    ensures Sum(keys, after) + |fallen| <= Sum(keys, before)
  {
    if keys != {} {
      var k :| k in keys;
      SumSplit(keys, before, k);
      SumSplit(keys, after, k);
      SumLess(keys - {k}, before, after, fallen - {k});
    } else {
      assert fallen == {};
    }
  }
}
