/**
 * The list updates every page's handlers are built from: `filter` by key,
 * `map` replacing the entries with a key, `find` by key, `filter` by index,
 * the spread update of a form held as a map, and the ordering, uniqueness
 * and de-duplication notions used to state what those updates preserve.
 */
module Lists {
  import opened Wrappers

  /** `a` is `b` with some elements left out, the rest kept in order. */
  ghost predicate IsSubsequence<T>(a: seq<T>, b: seq<T>)
    decreases |b|
  {
    if b == [] then a == []
    else (a != [] && a[0] == b[0] && IsSubsequence(a[1..], b[1..])) || IsSubsequence(a, b[1..])
  }

  predicate Distinct<T(==)>(xs: seq<T>) {
    forall i, j :: 0 <= i < j < |xs| ==> xs[i] != xs[j]
  }

  /** No two entries share a key. */
  predicate DistinctKeys<T, K(==)>(xs: seq<T>, key: T -> K) {
    forall i, j :: 0 <= i < j < |xs| ==> key(xs[i]) != key(xs[j])
  }

  /** `xs.filter(x => key(x) !== k)`. */
  function RemoveKey<T, K(==)>(xs: seq<T>, key: T -> K, k: K): (r: seq<T>)
    ensures |r| <= |xs|
    ensures forall i :: 0 <= i < |r| ==> r[i] in xs && key(r[i]) != k
    ensures forall i :: 0 <= i < |xs| && key(xs[i]) != k ==> xs[i] in r
  {
    if xs == [] then [] else (if key(xs[0]) != k then [xs[0]] else []) + RemoveKey(xs[1..], key, k)
  }

  /** `xs.map(x => key(x) === k ? y : x)`. */
  function ReplaceKey<T, K(==)>(xs: seq<T>, key: T -> K, k: K, y: T): (r: seq<T>)
    ensures |r| == |xs|
    ensures forall i :: 0 <= i < |xs| && key(xs[i]) == k ==> r[i] == y
    ensures forall i :: 0 <= i < |xs| && key(xs[i]) != k ==> r[i] == xs[i]
  {
    if xs == [] then [] else [if key(xs[0]) == k then y else xs[0]] + ReplaceKey(xs[1..], key, k, y)
  }

  /** `xs.find(x => key(x) === k)`: the first entry with key `k`, if any. */
  function Find<T, K(==)>(xs: seq<T>, key: T -> K, k: K): (r: Option<T>)
    ensures r.Some? <==> exists i :: 0 <= i < |xs| && key(xs[i]) == k
    ensures r.Some? ==> r.value in xs && key(r.value) == k
    ensures r.Some? ==> exists i :: 0 <= i < |xs| && r.value == xs[i] && key(xs[i]) == k &&
                           forall j :: 0 <= j < i ==> key(xs[j]) != k
  {
    if xs == [] then None
    else if key(xs[0]) == k then Some(xs[0])
    else
      var rest := Find(xs[1..], key, k);
      assert rest.Some? ==> exists i :: 0 <= i < |xs| && rest.value == xs[i] && key(xs[i]) == k &&
                                     forall j :: 0 <= j < i ==> key(xs[j]) != k by {
        if rest.Some? {
          var i :| 0 <= i < |xs[1..]| && rest.value == xs[1..][i] && key(xs[1..][i]) == k &&
                   forall j :: 0 <= j < i ==> key(xs[1..][j]) != k;
          forall j | 0 <= j < i + 1 ensures key(xs[j]) != k {
            if j > 0 { assert xs[j] == xs[1..][j - 1]; }
          }
          assert rest.value == xs[i + 1];
        }
      }
      rest
  }

  /** `xs.filter((_, i) => i !== index)`: drops position `index`, if there is one. */
  function DropIndex<T>(xs: seq<T>, index: int): (r: seq<T>)
    ensures 0 <= index < |xs| ==> r == xs[..index] + xs[index + 1..]
    ensures !(0 <= index < |xs|) ==> r == xs
  {
    if xs == [] then [] else (if index == 0 then [] else [xs[0]]) + DropIndex(xs[1..], index - 1)
  }

  /**
   * `{ ...prev, [id]: value }` on a form held as input id to typed value:
   * the named field is set and every other field is kept.
   */
  function SetField<K, V>(form: map<K, V>, id: K, value: V): (r: map<K, V>)
    ensures r.Keys == form.Keys + {id} && r[id] == value
    ensures forall k :: k in form && k != id ==> r[k] == form[k]
  {
    form[id := value]
  }

  /** Typing into one input and then another: the later value wins for its own field only. */
  lemma SetFieldsCommute<K, V>(form: map<K, V>, a: K, x: V, b: K, y: V)
    requires a != b
    ensures SetField(SetField(form, a, x), b, y) == SetField(SetField(form, b, y), a, x)
  {
  }

  lemma {:induction false} RemoveKeyIsSubsequence<T, K>(xs: seq<T>, key: T -> K, k: K)
    ensures IsSubsequence(RemoveKey(xs, key, k), xs)
  {
    if xs != [] {
      RemoveKeyIsSubsequence(xs[1..], key, k);
      var rest := RemoveKey(xs[1..], key, k);
      if key(xs[0]) != k {
        assert ([xs[0]] + rest)[1..] == rest;
      } else {
        assert [] + rest == rest;
      }
    }
  }

  /** Two entries with the same key in a list with distinct keys are the same entry. */
  lemma SameKeySameEntry<T, K>(xs: seq<T>, key: T -> K, i: int, j: int)
    requires DistinctKeys(xs, key) && 0 <= i < |xs| && 0 <= j < |xs| && key(xs[i]) == key(xs[j])
    ensures i == j
  {
  }

  /** Resubmitting an entry unchanged leaves the list as it was. */
  lemma ReplaceWithSelf<T, K>(xs: seq<T>, key: T -> K, y: T)
    requires DistinctKeys(xs, key) && y in xs
    ensures ReplaceKey(xs, key, key(y), y) == xs
  {
    var r := ReplaceKey(xs, key, key(y), y);
    var n :| 0 <= n < |xs| && xs[n] == y;
    forall i | 0 <= i < |xs| ensures r[i] == xs[i] {
      if key(xs[i]) == key(y) {
        SameKeySameEntry(xs, key, i, n);
      }
    }
  }

  /** Replacing by an entry with the same key keeps every key in place. */
  lemma ReplaceKeepsKeys<T, K>(xs: seq<T>, key: T -> K, y: T)
    requires DistinctKeys(xs, key)
    ensures DistinctKeys(ReplaceKey(xs, key, key(y), y), key)
  {
    var r := ReplaceKey(xs, key, key(y), y);
    assert forall i :: 0 <= i < |xs| ==> key(r[i]) == key(xs[i]);
  }

  /** Filtering keeps keys distinct. */
  lemma {:induction false} RemoveKeepsDistinct<T, K>(xs: seq<T>, key: T -> K, k: K)
    requires DistinctKeys(xs, key)
    ensures DistinctKeys(RemoveKey(xs, key, k), key)
  {
    if xs != [] {
      RemoveKeepsDistinct(xs[1..], key, k);
      var rest := RemoveKey(xs[1..], key, k);
      if key(xs[0]) != k {
        forall i | 0 <= i < |rest| ensures key(rest[i]) != key(xs[0]) {
          var j :| 0 <= j < |xs[1..]| && xs[1..][j] == rest[i];
          assert xs[j + 1] == rest[i];
        }
        var r := [xs[0]] + rest;
        forall i, j | 0 <= i < j < |r| ensures key(r[i]) != key(r[j]) {
          if i == 0 {
            assert r[j] == rest[j - 1];
          } else {
            assert r[i] == rest[i - 1] && r[j] == rest[j - 1];
          }
        }
      } else {
        assert [] + rest == rest;
      }
    }
  }

  /** Prepending an entry whose key is new keeps keys distinct. */
  lemma PrependKeepsDistinct<T, K>(xs: seq<T>, key: T -> K, y: T)
    requires DistinctKeys(xs, key) && forall x :: x in xs ==> key(x) != key(y)
    ensures DistinctKeys([y] + xs, key)
  {
    var r := [y] + xs;
    forall i, j | 0 <= i < j < |r| ensures key(r[i]) != key(r[j]) {
      assert r[j] == xs[j - 1];
      if i > 0 {
        assert r[i] == xs[i - 1];
      }
    }
  }

  // ---------------------------------------------------------------------------
  // De-duplication in first-appearance order: `[...new Set(xs)]`

  function Dedup<T(==)>(xs: seq<T>): (r: seq<T>)
    ensures forall i :: 0 <= i < |r| ==> r[i] in xs
    ensures forall i :: 0 <= i < |xs| ==> xs[i] in r
    ensures Distinct(r)
  {
    if xs == [] then []
    else
      var d := Dedup(xs[..|xs| - 1]);
      var x := xs[|xs| - 1];
      assert forall i :: 0 <= i < |xs| - 1 ==> xs[i] == xs[..|xs| - 1][i];
      if x in d then d else d + [x]
  }

  /** Position of the first occurrence of `x`. */
  function FirstIndex<T(==)>(xs: seq<T>, x: T): (i: nat)
    requires x in xs
    ensures i < |xs| && xs[i] == x && forall j :: 0 <= j < i ==> xs[j] != x
  {
    if xs[0] == x then 0 else 1 + FirstIndex(xs[1..], x)
  }

  lemma FirstIndexExtend<T>(xs: seq<T>, y: T, x: T)
    requires x in xs
    ensures FirstIndex(xs + [y], x) == FirstIndex(xs, x)
  {
    var i, k := FirstIndex(xs + [y], x), FirstIndex(xs, x);
    assert (xs + [y])[k] == x;
  }

  /** Dedup lists the values in the order of their first appearance. */
  lemma {:induction false} DedupFirstAppearance<T>(xs: seq<T>)
    ensures forall i, j :: 0 <= i < j < |Dedup(xs)| ==>
              FirstIndex(xs, Dedup(xs)[i]) < FirstIndex(xs, Dedup(xs)[j])
  {
    if xs != [] {
      var front, x := xs[..|xs| - 1], xs[|xs| - 1];
      var d := Dedup(front);
      DedupFirstAppearance(front);
      assert xs == front + [x];
      forall y | y in d ensures FirstIndex(xs, y) == FirstIndex(front, y) {
        FirstIndexExtend(front, x, y);
      }
      if x !in d {
        assert x !in front;
        assert FirstIndex(xs, x) == |front|;
      }
    }
  }

  /** Filtering by key keeps the order in which the surviving values first appear. */
  lemma {:induction false} RemoveKeyKeepsOrder<T, K>(xs: seq<T>, key: T -> K, k: K, x: T, y: T)
    requires x in RemoveKey(xs, key, k) && y in RemoveKey(xs, key, k)
    requires FirstIndex(RemoveKey(xs, key, k), x) < FirstIndex(RemoveKey(xs, key, k), y)
    ensures x in xs && y in xs && FirstIndex(xs, x) < FirstIndex(xs, y)
  {
    var r, rest := RemoveKey(xs, key, k), RemoveKey(xs[1..], key, k);
    if key(xs[0]) != k {
      assert r == [xs[0]] + rest;
      if xs[0] != x {
        assert xs[0] != y;
        assert x in rest && y in rest;
        assert FirstIndex(r, x) == 1 + FirstIndex(rest, x);
        assert FirstIndex(r, y) == 1 + FirstIndex(rest, y);
        RemoveKeyKeepsOrder(xs[1..], key, k, x, y);
      }
    } else {
      assert r == rest;
      RemoveKeyKeepsOrder(xs[1..], key, k, x, y);
    }
  }

  lemma {:induction false} DedupIsSubsequence<T>(xs: seq<T>)
    ensures IsSubsequence(Dedup(xs), xs)
  {
    if xs != [] {
      var front, x := xs[..|xs| - 1], xs[|xs| - 1];
      DedupIsSubsequence(front);
      assert xs == front + [x];
      if x !in Dedup(front) {
        SubsequenceAppend(Dedup(front), front, x);
      } else {
        SubsequenceExtend(Dedup(front), front, x);
      }
    }
  }

  lemma {:induction false} SubsequenceAppend<T>(a: seq<T>, b: seq<T>, x: T)
    requires IsSubsequence(a, b)
    ensures IsSubsequence(a + [x], b + [x])
    decreases |b|
  {
    if b == [] {
      assert a == [];
      assert [x][1..] == [];
    } else {
      assert (b + [x])[1..] == b[1..] + [x];
      if a != [] && a[0] == b[0] && IsSubsequence(a[1..], b[1..]) {
        SubsequenceAppend(a[1..], b[1..], x);
        assert (a + [x])[1..] == a[1..] + [x];
      } else {
        SubsequenceAppend(a, b[1..], x);
      }
    }
  }

  lemma {:induction false} SubsequenceExtend<T>(a: seq<T>, b: seq<T>, x: T)
    requires IsSubsequence(a, b)
    ensures IsSubsequence(a, b + [x])
    decreases |b|
  {
    if b == [] {
      assert a == [];
      assert [x][1..] == [];
    } else {
      assert (b + [x])[1..] == b[1..] + [x];
      if a != [] && a[0] == b[0] && IsSubsequence(a[1..], b[1..]) {
        SubsequenceExtend(a[1..], b[1..], x);
      } else {
        SubsequenceExtend(a, b[1..], x);
      }
    }
  }

  // ---------------------------------------------------------------------------
  // Counting distinct elements

  ghost function Elements<T>(xs: seq<T>): set<T> {
    set i | 0 <= i < |xs| :: xs[i]
  }

  lemma {:induction false} ElementsCount<T>(xs: seq<T>)
    ensures |Elements(xs)| <= |xs|
    ensures Distinct(xs) ==> |Elements(xs)| == |xs|
  {
    if xs != [] {
      ElementsCount(xs[1..]);
      assert Elements(xs) == {xs[0]} + Elements(xs[1..]) by {
        forall x | x in Elements(xs) ensures x in {xs[0]} + Elements(xs[1..]) {
          var i :| 0 <= i < |xs| && xs[i] == x;
          if i > 0 {
            assert xs[1..][i - 1] == x;
          }
        }
      }
      if Distinct(xs) {
        assert Distinct(xs[1..]);
        assert xs[0] !in Elements(xs[1..]);
      }
    }
  }

  lemma {:induction false} SubsetCount<T>(a: set<T>, b: set<T>)
    requires a <= b
    ensures |a| <= |b|
    decreases |a|
  {
    if a != {} {
      var x :| x in a;
      SubsetCount(a - {x}, b - {x});
    }
  }

  /** `xs` holds every element of the distinct list `u`, so it is at least as long. */
  lemma Covers<T>(xs: seq<T>, u: seq<T>)
    requires Distinct(u) && forall i :: 0 <= i < |u| ==> u[i] in xs
    ensures |u| <= |xs|
  {
    ElementsCount(xs);
    ElementsCount(u);
    assert Elements(u) <= Elements(xs);
    SubsetCount(Elements(u), Elements(xs));
  }

  /** A distinct list drawn from the distinct list `u` and as long as `u` holds all of `u` (pigeonhole). */
  lemma Pigeonhole<T>(xs: seq<T>, u: seq<T>)
    requires Distinct(xs) && Distinct(u) && |xs| == |u|
    requires forall i :: 0 <= i < |xs| ==> xs[i] in u
    ensures forall i :: 0 <= i < |u| ==> u[i] in xs
  {
    ElementsCount(xs);
    ElementsCount(u);
    assert Elements(xs) <= Elements(u);
    forall i | 0 <= i < |u| ensures u[i] in xs {
      if u[i] !in xs {
        assert Elements(xs) <= Elements(u) - {u[i]};
        SubsetCount(Elements(xs), Elements(u) - {u[i]});
      }
    }
  }

  /** A distinct list drawn from the distinct list `u` is no longer than `u`. */
  lemma DrawnFrom<T>(xs: seq<T>, u: seq<T>)
    requires Distinct(xs) && forall i :: 0 <= i < |xs| ==> xs[i] in u
    ensures |xs| <= |u|
  {
    ElementsCount(xs);
    ElementsCount(u);
    assert Elements(xs) <= Elements(u);
    SubsetCount(Elements(xs), Elements(u));
  }
}
