/** Sequence operations behind the client's `Array.prototype` calls:
    `filter`, `filter(...).length`, `map`, and `filter((_, i) => i !== index)`. */
module Seqs {

  /** `s.filter(p)`: the elements satisfying p, in their original order. */
  function Filter<T(==)>(p: T -> bool, s: seq<T>): (r: seq<T>)
    ensures |r| <= |s|
    ensures forall i :: 0 <= i < |r| ==> p(r[i])
  {
    if |s| == 0 then [] else (if p(s[0]) then [s[0]] else []) + Filter(p, s[1..])
  }

  /** `s.filter(p).length` */
  function Count<T(==)>(p: T -> bool, s: seq<T>): nat {
    |Filter(p, s)|
  }

  /** `s.map(f)` */
  function Map<T, U>(f: T -> U, s: seq<T>): (r: seq<U>)
    ensures |r| == |s|
    ensures forall i :: 0 <= i < |s| ==> r[i] == f(s[i])
  {
    if |s| == 0 then [] else [f(s[0])] + Map(f, s[1..])
  }

  /** a is obtained from b by deleting elements, keeping the order of the rest. */
  predicate IsSubsequence<T(==)>(a: seq<T>, b: seq<T>)
    decreases |b|
  {
    if |a| == 0 then true
    else if |b| == 0 then false
    else if a[0] == b[0] then IsSubsequence(a[1..], b[1..])
    else IsSubsequence(a, b[1..])
  }

  /** `s.filter((_, i) => i !== index)`: every element whose position is not `index`. */
  function WithoutIndex<T>(s: seq<T>, index: int): seq<T> {
    if |s| == 0 then [] else (if index == 0 then [] else [s[0]]) + WithoutIndex(s[1..], index - 1)
  }

  // ---------------------------------------------------------------- lemmas

  /** The head and tail of a concatenation with a non-empty front. */
  lemma {:induction false} ConsOfConcat<T>(a: seq<T>, b: seq<T>)
    requires |a| > 0
    ensures (a + b)[0] == a[0] && (a + b)[1..] == a[1..] + b
  {
  }

  lemma {:induction false} ConcatAssoc<T>(x: seq<T>, y: seq<T>, z: seq<T>)
    ensures x + (y + z) == (x + y) + z
  {
  }

  /** Filtering keeps the order: the result is a subsequence of the input. */
  lemma {:induction false} FilterIsSubsequence<T>(p: T -> bool, s: seq<T>)
    ensures IsSubsequence(Filter(p, s), s)
  {
    if |s| > 0 {
      FilterIsSubsequence(p, s[1..]);
      var rest := Filter(p, s[1..]);
      if p(s[0]) {
        assert Filter(p, s) == [s[0]] + rest;
        assert ([s[0]] + rest)[1..] == rest;
      } else {
        assert Filter(p, s) == rest;
        assert rest != [] ==> rest[0] != s[0];
      }
    }
  }

  /** Every kept element comes from the input, and every input element
      satisfying p is kept. */
  lemma {:induction false} FilterMembers<T>(p: T -> bool, s: seq<T>)
    ensures forall i :: 0 <= i < |Filter(p, s)| ==> Filter(p, s)[i] in s
    ensures forall i :: 0 <= i < |s| && p(s[i]) ==> s[i] in Filter(p, s)
  {
    if |s| > 0 {
      var rest := Filter(p, s[1..]);
      FilterMembers(p, s[1..]);
      var r := Filter(p, s);
      assert r == (if p(s[0]) then [s[0]] else []) + rest;
      forall i | 0 <= i < |r|
        ensures r[i] in s
      {
        if p(s[0]) && i == 0 {
          assert r[i] == s[0];
        } else {
          var k := if p(s[0]) then i - 1 else i;
          assert r[i] == rest[k];
          assert rest[k] in s[1..];
        }
      }
      forall i | 0 <= i < |s| && p(s[i])
        ensures s[i] in r
      {
        if i == 0 {
          assert r[0] == s[0];
        } else {
          assert s[i] == s[1..][i - 1];
          assert s[i] in rest;
        }
      }
    }
  }

  /** Filtering keeps each passing element exactly as often as it occurs and
      drops every other one, so no duplicate is collapsed or invented. */
  lemma {:induction false} FilterMultiset<T>(p: T -> bool, s: seq<T>)
    ensures forall x :: multiset(Filter(p, s))[x] == if p(x) then multiset(s)[x] else 0
  {
    if |s| > 0 {
      FilterMultiset(p, s[1..]);
      var head := if p(s[0]) then [s[0]] else [];
      assert s == [s[0]] + s[1..];
      assert multiset(s) == multiset([s[0]]) + multiset(s[1..]);
      assert multiset(Filter(p, s)) == multiset(head) + multiset(Filter(p, s[1..]));
    }
  }

  lemma {:induction false} FilterAppend<T>(p: T -> bool, a: seq<T>, b: seq<T>)
    ensures Filter(p, a + b) == Filter(p, a) + Filter(p, b)
  {
    if |a| == 0 {
      assert a + b == b;
    } else {
      ConsOfConcat(a, b);
      FilterAppend(p, a[1..], b);
      ConcatAssoc(if p(a[0]) then [a[0]] else [], Filter(p, a[1..]), Filter(p, b));
    }
  }

  /** A property holds of every element exactly when it holds of every
      element but the last, and of the last. */
  lemma {:induction false} AllOfSnoc<T>(p: T -> bool, s: seq<T>, init: seq<T>)
    requires |s| > 0 && init == s[..|s| - 1]
    ensures (forall k :: 0 <= k < |s| ==> p(s[k])) <==>
      (forall k :: 0 <= k < |init| ==> p(init[k])) && p(s[|s| - 1])
  {
    assert forall k :: 0 <= k < |init| ==> init[k] == s[k];
  }

  /** Mapping a concatenation maps each part. */
  lemma {:induction false} MapAppend<T, U>(f: T -> U, a: seq<T>, b: seq<T>)
    ensures Map(f, a + b) == Map(f, a) + Map(f, b)
  {
    if |a| == 0 {
      assert a + b == b;
    } else {
      ConsOfConcat(a, b);
      MapAppend(f, a[1..], b);
      ConcatAssoc([f(a[0])], Map(f, a[1..]), Map(f, b));
    }
  }

  /** Filtering with a predicate every element satisfies changes nothing. */
  lemma {:induction false} FilterAll<T>(p: T -> bool, s: seq<T>)
    requires forall i :: 0 <= i < |s| ==> p(s[i])
    ensures Filter(p, s) == s
  {
    if |s| > 0 {
      FilterAll(p, s[1..]);
      assert s == [s[0]] + s[1..];
    }
  }

  /** Filtering with a predicate no element satisfies leaves nothing. */
  lemma {:induction false} FilterNone<T>(p: T -> bool, s: seq<T>)
    requires forall i :: 0 <= i < |s| ==> !p(s[i])
    ensures Filter(p, s) == []
  {
    if |s| > 0 {
      FilterNone(p, s[1..]);
    }
  }

  /** The count is the length exactly when every element satisfies the predicate. */
  lemma {:induction false} CountFull<T>(p: T -> bool, s: seq<T>)
    ensures Count(p, s) == |s| <==> forall i :: 0 <= i < |s| ==> p(s[i])
  {
    if |s| > 0 {
      CountFull(p, s[1..]);
      if !p(s[0]) {
        assert Count(p, s) == Count(p, s[1..]) <= |s| - 1;
      } else {
        assert forall i :: 1 <= i < |s| ==> s[i] == s[1..][i - 1];
      }
    }
  }

  /** Counts of two predicates that never hold together add up to the count of
      their disjunction. */
  lemma {:induction false} CountDisjoint<T>(p: T -> bool, q: T -> bool, s: seq<T>)
    requires forall i :: 0 <= i < |s| ==> !(p(s[i]) && q(s[i]))
    ensures Count(p, s) + Count(q, s) == Count(x => p(x) || q(x), s)
  {
    if |s| > 0 {
      CountDisjoint(p, q, s[1..]);
    }
  }

  /** A subsequence has no more elements satisfying a predicate than the whole. */
  lemma {:induction false} CountSubsequence<T>(p: T -> bool, a: seq<T>, b: seq<T>)
    requires IsSubsequence(a, b)
    ensures Count(p, a) <= Count(p, b)
    decreases |b|
  {
    if |a| > 0 {
      if a[0] == b[0] {
        CountSubsequence(p, a[1..], b[1..]);
      } else {
        CountSubsequence(p, a, b[1..]);
      }
    }
  }

  /** Three filters whose predicates never hold together take at most every
      element between them, and all of them exactly when every element
      satisfies one of the predicates. */
  lemma {:induction false} CountThree<T>(p: T -> bool, q: T -> bool, r: T -> bool, s: seq<T>)
    requires forall i :: 0 <= i < |s| ==> !(p(s[i]) && q(s[i])) && !(p(s[i]) && r(s[i])) && !(q(s[i]) && r(s[i]))
    ensures Count(p, s) + Count(q, s) + Count(r, s) <= |s|
    ensures Count(p, s) + Count(q, s) + Count(r, s) == |s| <==>
      forall i :: 0 <= i < |s| ==> p(s[i]) || q(s[i]) || r(s[i])
  {
    if |s| > 0 {
      var t := s[1..];
      assert forall i :: 0 <= i < |t| ==> t[i] == s[i + 1];
      CountThree(p, q, r, t);
      var head := (if p(s[0]) then 1 else 0) + (if q(s[0]) then 1 else 0) + (if r(s[0]) then 1 else 0);
      assert Count(p, s) + Count(q, s) + Count(r, s) == head + Count(p, t) + Count(q, t) + Count(r, t);
      if forall i :: 0 <= i < |s| ==> p(s[i]) || q(s[i]) || r(s[i]) {
        assert forall i :: 0 <= i < |t| ==> p(t[i]) || q(t[i]) || r(t[i]);
      }
    }
  }

  /** Deleting a position inside the sequence is the slice around it ... */
  lemma {:induction false} WithoutIndexIsSlice<T>(s: seq<T>, index: int)
    requires 0 <= index < |s|
    ensures WithoutIndex(s, index) == s[..index] + s[index + 1..]
  {
    if index == 0 {
      WithoutIndexOutside(s[1..], -1);
      assert s[..0] + s[1..] == s[1..];
    } else {
      WithoutIndexIsSlice(s[1..], index - 1);
      assert s[1..][..index - 1] == s[1..index];
      assert s[1..][index..] == s[index + 1..];
      assert [s[0]] + (s[1..index] + s[index + 1..]) == s[..index] + s[index + 1..];
    }
  }

  /** ... and an index outside the sequence deletes nothing. */
  lemma {:induction false} WithoutIndexOutside<T>(s: seq<T>, index: int)
    requires index < 0 || index >= |s|
    ensures WithoutIndex(s, index) == s
  {
    if |s| > 0 {
      WithoutIndexOutside(s[1..], index - 1);
      assert [s[0]] + s[1..] == s;
    }
  }

  /** What deleting one position leaves, element by element. */
  lemma {:induction false} WithoutIndexAt<T>(s: seq<T>, index: int)
    requires 0 <= index < |s|
    ensures |WithoutIndex(s, index)| == |s| - 1
    ensures forall j :: 0 <= j < index ==> WithoutIndex(s, index)[j] == s[j]
    ensures forall j :: index <= j < |s| - 1 ==> WithoutIndex(s, index)[j] == s[j + 1]
  {
    WithoutIndexIsSlice(s, index);
  }
}
