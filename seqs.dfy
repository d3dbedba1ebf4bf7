/**
 * What the document store does with a query, over an in-memory sequence:
 * keep the records a filter accepts, sort them descending by a timestamp
 * key, skip and take a window; plus JavaScript's Math.ceil on a quotient.
 */
module Seqs {

  /** The records p accepts, in their original order (`find(filter)`, `Array.filter`). */
  function Select<T>(s: seq<T>, p: T -> bool): (r: seq<T>)
    ensures |r| <= |s|
    ensures forall k :: 0 <= k < |r| ==> r[k] in s && p(r[k])
    ensures forall k :: 0 <= k < |s| && p(s[k]) ==> s[k] in r
    decreases |s|
  {
    if |s| == 0 then []
    else if p(s[0]) then [s[0]] + Select(s[1..], p)
    else Select(s[1..], p)
  }

  lemma {:induction false} SelectAppend<T>(a: seq<T>, b: seq<T>, p: T -> bool)
    ensures Select(a + b, p) == Select(a, p) + Select(b, p)
    decreases |a|
  {
    if |a| > 0 {
      var ab := a + b;
      assert ab[0] == a[0] && ab[1..] == a[1..] + b;
      SelectAppend(a[1..], b, p);
      if p(a[0]) {
        assert Select(ab, p) == [a[0]] + Select(a[1..] + b, p);
        assert [a[0]] + (Select(a[1..], p) + Select(b, p)) == ([a[0]] + Select(a[1..], p)) + Select(b, p);
      } else {
        assert Select(ab, p) == Select(a[1..] + b, p);
      }
    } else {
      assert a + b == b;
    }
  }

  /** A predicate every record satisfies selects everything. */
  lemma {:induction false} SelectAll<T>(s: seq<T>, p: T -> bool)
    requires forall k :: 0 <= k < |s| ==> p(s[k])
    ensures Select(s, p) == s
    decreases |s|
  {
    if |s| > 0 {
      SelectAll(s[1..], p);
      assert [s[0]] + s[1..] == s;
    }
  }

  /** A predicate no record satisfies selects nothing. */
  lemma {:induction false} SelectNone<T>(s: seq<T>, p: T -> bool)
    requires forall k :: 0 <= k < |s| ==> !p(s[k])
    ensures Select(s, p) == []
    decreases |s|
  {
    if |s| > 0 {
      SelectNone(s[1..], p);
    }
  }

  /** Predicates that agree on every record select the same records. */
  lemma {:induction false} SelectCongruent<T>(s: seq<T>, p: T -> bool, q: T -> bool)
    requires forall k :: 0 <= k < |s| ==> p(s[k]) == q(s[k])
    ensures Select(s, p) == Select(s, q)
    decreases |s|
  {
    if |s| > 0 {
      SelectCongruent(s[1..], p, q);
    }
  }

  /** A selection as long as its input kept every record. */
  lemma {:induction false} SelectShort<T>(s: seq<T>, p: T -> bool)
    ensures |Select(s, p)| == |s| ==> forall k :: 0 <= k < |s| ==> p(s[k])
    decreases |s|
  {
    if |s| > 0 {
      SelectShort(s[1..], p);
      if |Select(s, p)| == |s| {
        assert p(s[0]);
        forall k | 1 <= k < |s| ensures p(s[k]) { assert s[k] == s[1..][k - 1]; }
      }
    }
  }

  /** Whatever is drawn from a selection is a record of s that p accepts. */
  lemma DrawnFromSelect<T>(s: seq<T>, p: T -> bool, r: seq<T>)
    requires multiset(r) <= multiset(Select(s, p))
    ensures forall k :: 0 <= k < |r| ==> r[k] in s && p(r[k])
  {
    var sel := Select(s, p);
    forall k | 0 <= k < |r| ensures r[k] in s && p(r[k]) {
      assert r[k] in multiset(r);
      assert r[k] in sel;
      var i :| 0 <= i < |sel| && sel[i] == r[k];
    }
  }

  /** Non-increasing by key. */
  ghost predicate SortedDesc<T>(s: seq<T>, key: T -> int)
  {
    forall i, j :: 0 <= i < j < |s| ==> key(s[i]) >= key(s[j])
  }

  /** Put x in front of the first element whose key is not larger. */
  function Insert<T>(x: T, s: seq<T>, key: T -> int): (r: seq<T>)
    requires SortedDesc(s, key)
    ensures |r| == |s| + 1
    ensures multiset(r) == multiset(s) + multiset{x}
    ensures forall k :: 0 <= k < |r| ==> r[k] == x || r[k] in s
    ensures SortedDesc(r, key)
    decreases |s|
  {
    if |s| == 0 then [x]
    else if key(x) >= key(s[0]) then [x] + s
    else
      var t := Insert(x, s[1..], key);
      assert s == [s[0]] + s[1..];
      InsertBelowHead(x, s, t, key);
      [s[0]] + t
  }

  /** What Insert puts after the head of s has keys no larger than the head's. */
  lemma InsertBelowHead<T>(x: T, s: seq<T>, t: seq<T>, key: T -> int)
    requires |s| > 0 && SortedDesc(s, key) && key(x) < key(s[0])
    requires forall k :: 0 <= k < |t| ==> t[k] == x || t[k] in s[1..]
    ensures forall k :: 0 <= k < |t| ==> key(t[k]) <= key(s[0])
  {
    forall k | 0 <= k < |t| ensures key(t[k]) <= key(s[0]) {
      if t[k] != x {
        var j :| 0 <= j < |s[1..]| && s[1..][j] == t[k];
        assert s[j + 1] == t[k];
      }
    }
  }

  /** `sort({key: -1})`: a descending rearrangement of s; equal keys keep their order. */
  function SortDesc<T>(s: seq<T>, key: T -> int): (r: seq<T>)
    ensures |r| == |s|
    ensures multiset(r) == multiset(s)
    ensures SortedDesc(r, key)
    decreases |s|
  {
    if |s| == 0 then []
    else
      assert s == [s[0]] + s[1..];
      Insert(s[0], SortDesc(s[1..], key), key)
  }

  function Min(a: int, b: int): int { if a <= b then a else b }

  function Abs(x: int): nat { if x < 0 then -x else x }

  /** `skip(skip).limit(take)` over an already ordered sequence. */
  function Window<T>(s: seq<T>, skip: nat, take: nat): (r: seq<T>)
    ensures |r| <= take
    ensures skip >= |s| ==> r == []
    ensures forall k :: 0 <= k < |r| ==> skip + k < |s| && r[k] == s[skip + k]
    ensures skip + take <= |s| ==> |r| == take
    ensures skip <= |s| ==> |r| == Min(take, |s| - skip)
  {
    s[Min(skip, |s|)..Min(skip + take, |s|)]
  }

  /** A window of a descending sequence is descending and draws only from it. */
  lemma WindowOfSorted<T>(s: seq<T>, skip: nat, take: nat, key: T -> int)
    requires SortedDesc(s, key)
    ensures SortedDesc(Window(s, skip, take), key)
    ensures multiset(Window(s, skip, take)) <= multiset(s)
  {
    var lo, hi := Min(skip, |s|), Min(skip + take, |s|);
    assert s == s[..lo] + s[lo..hi] + s[hi..];
  }

  /** Consecutive windows of one size tile the sequence: index i is on window i / take, at i % take. */
  lemma {:induction false} WindowIndex<T>(s: seq<T>, take: nat, i: nat)
    requires take > 0 && i < |s|
    ensures (i / take) * take <= i < (i / take) * take + take
    ensures Window(s, (i / take) * take, take)[i % take] == s[i]
  {
    var q, m := i / take, i % take;
    assert i == q * take + m;
    assert 0 <= m < take;
    var w := Window(s, q * take, take);
    assert q * take <= |s|;
    assert |w| == Min(take, |s| - q * take);
    assert m < |w|;
  }

  /** JavaScript's Math.ceil, for the values the model applies it to. */
  function Ceil(x: real): (r: int)
    ensures (r - 1) as real < x <= r as real
  {
    var f := x.Floor;
    if f as real == x then f else f + 1
  }

  /** `Math.ceil(total / limit)` for a positive limit: the fewest pages of limit records that hold total records. */
  lemma CeilDivide(total: nat, limit: int)
    requires limit > 0
    ensures Ceil(total as real / limit as real) >= 0
    ensures (Ceil(total as real / limit as real) - 1) * limit < total <= Ceil(total as real / limit as real) * limit
    ensures Ceil(total as real / limit as real) == (total + limit - 1) / limit
  {
    var c := Ceil(total as real / limit as real);
    CeilBounds(total, limit);
    var q := (total + limit - 1) / limit;
    DivUpBounds(total, limit);
    UniqueCeil(c, q, total, limit);
    MulCancel(-1, c, limit);
  }

  /** The real quotient's ceiling brackets total between consecutive multiples of limit. */
  lemma CeilBounds(total: nat, limit: int)
    requires limit > 0
    ensures (Ceil(total as real / limit as real) - 1) * limit < total <= Ceil(total as real / limit as real) * limit
  {
    var x := total as real / limit as real;
    var c := Ceil(x);
    assert x * limit as real == total as real;
    MulLess(c - 1, x, limit);
    MulAtMost(x, c, limit);
  }

  /** Integer division rounding up brackets total the same way. */
  lemma DivUpBounds(total: nat, limit: int)
    requires limit > 0
    ensures ((total + limit - 1) / limit - 1) * limit < total <= ((total + limit - 1) / limit) * limit
  {
    var q := (total + limit - 1) / limit;
    assert q * limit <= total + limit - 1 < q * limit + limit;
  }

  lemma MulLess(a: int, x: real, d: int)
    requires d > 0 && a as real < x
    ensures (a * d) as real < x * d as real
  {
  }

  lemma MulAtMost(x: real, c: int, d: int)
    requires d > 0 && x <= c as real
    ensures x * d as real <= (c * d) as real
  {
  }

  lemma UniqueCeil(a: int, b: int, n: int, d: int)
    requires d > 0
    requires (a - 1) * d < n <= a * d
    requires (b - 1) * d < n <= b * d
    ensures a == b
  {
    MulCancel(a - 1, b, d);
    MulCancel(b - 1, a, d);
  }

  lemma MulCancel(x: int, y: int, d: int)
    requires d > 0 && x * d < y * d
    ensures x < y
  {
    assert y * d - x * d == (y - x) * d;
  }
}
