/**
 * The list updates the handlers apply to stored arrays: MongoDB's `$addToSet` and `$pull`
 * operators (the latter is also what `likes.filter(id => !id.equals(userId))` computes) and
 * JavaScript's `splice(index, 1)`.
 */
module Updates {

  /** No element occurs twice: the set semantics the follow lists and the likes keep. */
  predicate NoDup<T(==,!new)>(s: seq<T>) {
    forall i, j :: 0 <= i < j < |s| ==> s[i] != s[j]
  }

  /** `$addToSet`: append `x` unless it already occurs. */
  function AddToSet<T(==,!new)>(s: seq<T>, x: T): (r: seq<T>)
    ensures x in r
    ensures forall y :: y in r <==> y in s || y == x
    ensures |s| <= |r| <= |s| + 1 && r[..|s|] == s
    ensures x in s ==> r == s
    ensures NoDup(s) ==> NoDup(r)
  {
    if x in s then s else s + [x]
  }

  /** `$pull` (and `filter` by inequality): every occurrence of `x` is dropped, the rest kept in order. */
  function Pull<T(==,!new)>(s: seq<T>, x: T): (r: seq<T>)
    ensures forall y :: y in r <==> y in s && y != x
    ensures |r| <= |s|
  {
    if s == [] then []
    else if s[0] == x then Pull(s[1..], x)
    else [s[0]] + Pull(s[1..], x)
  }

  /** `splice(i, 1)` on an index already checked to be in bounds. */
  function RemoveAt<T>(s: seq<T>, i: int): (r: seq<T>)
    requires 0 <= i < |s|
    ensures |r| == |s| - 1
    ensures forall k :: 0 <= k < i ==> r[k] == s[k]
    ensures forall k :: i <= k < |r| ==> r[k] == s[k + 1]
    ensures multiset(r) + multiset{s[i]} == multiset(s)
  {
    assert s == s[..i] + [s[i]] + s[i + 1..];
    s[..i] + s[i + 1..]
  }

  /** Pulling an element that does not occur changes nothing. */
  lemma {:induction false} PullAbsent<T(!new)>(s: seq<T>, x: T)
    requires x !in s
    ensures Pull(s, x) == s
  {
    if s != [] {
      PullAbsent(s[1..], x);
    }
  }

  /** Pull distributes over concatenation: the elements kept stay in their original order. */
  lemma {:induction false} PullConcat<T(!new)>(a: seq<T>, b: seq<T>, x: T)
    ensures Pull(a + b, x) == Pull(a, x) + Pull(b, x)
  {
    if a == [] {
      assert a + b == b;
    } else {
      assert (a + b)[0] == a[0];
      assert (a + b)[1..] == a[1..] + b;
      PullConcat(a[1..], b, x);
    }
  }

  /** Pull removes exactly the occurrences of `x`: every other element keeps its multiplicity. */
  lemma {:induction false} PullMultiset<T(!new)>(s: seq<T>, x: T)
    ensures multiset(Pull(s, x)) == multiset(s)[x := 0]
  {
    if s != [] {
      PullMultiset(s[1..], x);
      assert s == [s[0]] + s[1..];
      assert multiset(s) == multiset{s[0]} + multiset(s[1..]);
    }
  }

  /** Pull keeps a duplicate-free list duplicate-free. */
  lemma {:induction false} PullNoDup<T(!new)>(s: seq<T>, x: T)
    requires NoDup(s)
    ensures NoDup(Pull(s, x))
  {
    if s != [] {
      assert NoDup(s[1..]) by {
        forall i, j | 0 <= i < j < |s[1..]| ensures s[1..][i] != s[1..][j] {
          assert s[1..][i] == s[i + 1] && s[1..][j] == s[j + 1];
        }
      }
      PullNoDup(s[1..], x);
      if s[0] != x {
        assert s[0] !in s[1..] by {
          forall k | 0 <= k < |s[1..]| ensures s[1..][k] != s[0] {
            assert s[1..][k] == s[k + 1];
          }
        }
        PrependNoDup(s[0], Pull(s[1..], x));
      }
    }
  }

  lemma PrependNoDup<T(!new)>(x: T, s: seq<T>)
    requires NoDup(s) && x !in s
    ensures NoDup([x] + s)
  {
  }

  /** Appending an absent element keeps a list duplicate-free (the `likes.push` after the `includes` check). */
  lemma PushAbsentNoDup<T(!new)>(s: seq<T>, x: T)
    requires NoDup(s) && x !in s
    ensures NoDup(s + [x])
  {
  }

  /** `$pull` undoes an `$addToSet` of an element that was absent. */
  lemma {:induction false} PullUndoesAddToSet<T(!new)>(s: seq<T>, x: T)
    requires x !in s
    ensures Pull(AddToSet(s, x), x) == s
  {
    PullConcat(s, [x], x);
    PullAbsent(s, x);
    assert Pull([x], x) == [];
  }
}
