/**
 * `pandas.merge` on a single key column, for the two join types the pipeline
 * uses. Output rows come in the order pandas documents: left rows in their
 * order, and for each the matching right rows in theirs.
 */
module Joins {
  import opened Wrappers

  /** A row of an inner merge: the left row's columns beside the right row's. */
  datatype Joined<L, R> = Joined(left: L, right: R)

  /** A row of a left merge: right columns missing when nothing matched. */
  datatype LeftJoined<L, R> = LeftJoined(left: L, right: Option<R>)

  /** How many rows of `s` have key `k`. */
  function Count<T, K(==)>(s: seq<T>, key: T -> K, k: K): nat
  {
    if s == [] then 0 else (if key(s[0]) == k then 1 else 0) + Count(s[1..], key, k)
  }

  /** The rows of `right` whose key is `k`, in their order. */
  function Matching<R, K(==)>(right: seq<R>, rkey: R -> K, k: K): (m: seq<R>)
    ensures |m| == Count(right, rkey, k)
    ensures forall x :: x in m ==> x in right && rkey(x) == k
    ensures forall x :: x in right && rkey(x) == k ==> x in m
  {
    if right == [] then []
    else (if rkey(right[0]) == k then [right[0]] else []) + Matching(right[1..], rkey, k)
  }

  /** A row with key `k` is matched as many times as it occurs in the table; any other row never is. */
  lemma {:induction false} MatchingMultiplicity<R, K>(right: seq<R>, rkey: R -> K, k: K, x: R)
    ensures multiset(Matching(right, rkey, k))[x] == if rkey(x) == k then multiset(right)[x] else 0
  {
    if right != [] {
      assert right == [right[0]] + right[1..];
      MatchingMultiplicity(right[1..], rkey, k, x);
    }
  }

  /** The first right row with key `k`, if any. */
  function Lookup<R, K(==)>(right: seq<R>, rkey: R -> K, k: K): (r: Option<R>)
    ensures r.None? <==> Count(right, rkey, k) == 0
    ensures r.Some? ==> r.value in right && rkey(r.value) == k
  {
    var m := Matching(right, rkey, k);
    if |m| == 0 then None else Some(m[0])
  }

  /** No two rows of `right` share a key. */
  predicate UniqueKeys<R, K(==)>(right: seq<R>, rkey: R -> K)
  {
    forall i, j :: 0 <= i < j < |right| ==> rkey(right[i]) != rkey(right[j])
  }

  /** The inner-merge rows contributed by one left row. */
  function InnerBlock<L, R, K(==)>(l: L, right: seq<R>, lkey: L -> K, rkey: R -> K): seq<Joined<L, R>>
  {
    var m := Matching(right, rkey, lkey(l));
    seq(|m|, i requires 0 <= i < |m| => Joined(l, m[i]))
  }

  /** `pd.merge(left, right, on=key, how="inner")`. */
  function InnerJoin<L, R, K(==)>(left: seq<L>, right: seq<R>, lkey: L -> K, rkey: R -> K): seq<Joined<L, R>>
  {
    if left == [] then []
    else InnerBlock(left[0], right, lkey, rkey) + InnerJoin(left[1..], right, lkey, rkey)
  }

  /** The left-merge rows contributed by one left row: its matches, or itself alone. */
  function LeftBlock<L, R, K(==)>(l: L, right: seq<R>, lkey: L -> K, rkey: R -> K): seq<LeftJoined<L, R>>
  {
    var m := Matching(right, rkey, lkey(l));
    if |m| == 0 then [LeftJoined(l, None)]
    else seq(|m|, i requires 0 <= i < |m| => LeftJoined(l, Some(m[i])))
  }

  /** `pd.merge(left, right, on=key, how="left")`. */
  function LeftJoin<L, R, K(==)>(left: seq<L>, right: seq<R>, lkey: L -> K, rkey: R -> K): seq<LeftJoined<L, R>>
  {
    if left == [] then []
    else LeftBlock(left[0], right, lkey, rkey) + LeftJoin(left[1..], right, lkey, rkey)
  }

  /** How many inner-merge rows carry key `k` (the key column is shared). */
  function CountJoined<L, R, K(==)>(s: seq<Joined<L, R>>, lkey: L -> K, k: K): nat
  {
    if s == [] then 0 else (if lkey(s[0].left) == k then 1 else 0) + CountJoined(s[1..], lkey, k)
  }

  /** How many left-merge rows carry key `k`. */
  function CountLeftJoined<L, R, K(==)>(s: seq<LeftJoined<L, R>>, lkey: L -> K, k: K): nat
  {
    if s == [] then 0 else (if lkey(s[0].left) == k then 1 else 0) + CountLeftJoined(s[1..], lkey, k)
  }

  lemma {:induction false} CountJoinedAppend<L, R, K>(a: seq<Joined<L, R>>, b: seq<Joined<L, R>>, lkey: L -> K, k: K)
    ensures CountJoined(a + b, lkey, k) == CountJoined(a, lkey, k) + CountJoined(b, lkey, k)
  {
    if a == [] {
      assert a + b == b;
    } else {
      assert (a + b)[0] == a[0];
      assert (a + b)[1..] == a[1..] + b;
      CountJoinedAppend(a[1..], b, lkey, k);
    }
  }

  lemma {:induction false} CountLeftJoinedAppend<L, R, K>(a: seq<LeftJoined<L, R>>, b: seq<LeftJoined<L, R>>, lkey: L -> K, k: K)
    ensures CountLeftJoined(a + b, lkey, k) == CountLeftJoined(a, lkey, k) + CountLeftJoined(b, lkey, k)
  {
    if a == [] {
      assert a + b == b;
    } else {
      assert (a + b)[0] == a[0];
      assert (a + b)[1..] == a[1..] + b;
      CountLeftJoinedAppend(a[1..], b, lkey, k);
    }
  }

  /** Rows that all come from one left row count `|s|` for its key and 0 for any other. */
  lemma {:induction false} CountJoinedOneLeft<L, R, K>(s: seq<Joined<L, R>>, l: L, lkey: L -> K, k: K)
    requires forall x :: x in s ==> x.left == l
    ensures CountJoined(s, lkey, k) == if lkey(l) == k then |s| else 0
  {
    if s != [] {
      assert s[0] in s;
      CountJoinedOneLeft(s[1..], l, lkey, k);
    }
  }

  lemma {:induction false} CountLeftJoinedOneLeft<L, R, K>(s: seq<LeftJoined<L, R>>, l: L, lkey: L -> K, k: K)
    requires forall x :: x in s ==> x.left == l
    ensures CountLeftJoined(s, lkey, k) == if lkey(l) == k then |s| else 0
  {
    if s != [] {
      assert s[0] in s;
      CountLeftJoinedOneLeft(s[1..], l, lkey, k);
    }
  }

  /**
   * The fan-out law of an inner merge: a key held by `a` left rows and `b`
   * right rows yields exactly `a * b` output rows, and none when either is 0.
   */
  lemma {:induction false} InnerJoinFanOut<L, R, K>(left: seq<L>, right: seq<R>, lkey: L -> K, rkey: R -> K, k: K)
    ensures CountJoined(InnerJoin(left, right, lkey, rkey), lkey, k) == Count(left, lkey, k) * Count(right, rkey, k)
  {
    if left != [] {
      var block := InnerBlock(left[0], right, lkey, rkey);
      var rest := InnerJoin(left[1..], right, lkey, rkey);
      assert InnerJoin(left, right, lkey, rkey) == block + rest;
      CountJoinedAppend(block, rest, lkey, k);
      InnerBlockCount(left[0], right, lkey, rkey, k);
      InnerJoinFanOut(left[1..], right, lkey, rkey, k);
      var a := if lkey(left[0]) == k then 1 else 0;
      assert Count(left, lkey, k) == a + Count(left[1..], lkey, k);
      Distribute(a, Count(left[1..], lkey, k), Count(right, rkey, k));
    }
  }

  /** One left row's block carries its key once per match, and no other key. */
  lemma InnerBlockCount<L, R, K>(l0: L, right: seq<R>, lkey: L -> K, rkey: R -> K, k: K)
    ensures CountJoined(InnerBlock(l0, right, lkey, rkey), lkey, k) == if lkey(l0) == k then Count(right, rkey, k) else 0
  {
    var block := InnerBlock(l0, right, lkey, rkey);
    forall x | x in block ensures x.left == l0 {
      var i :| 0 <= i < |block| && block[i] == x;
    }
    CountJoinedOneLeft(block, l0, lkey, k);
  }

  /**
   * An inner-merge row pairs a left row with a right row of the same key, and
   * every such pair is present: the key is the only condition.
   */
  lemma {:induction false} InnerJoinMembers<L, R, K>(left: seq<L>, right: seq<R>, lkey: L -> K, rkey: R -> K)
    ensures forall x :: x in InnerJoin(left, right, lkey, rkey) <==>
      x.left in left && x.right in right && lkey(x.left) == rkey(x.right)
  {
    if left != [] {
      var block := InnerBlock(left[0], right, lkey, rkey);
      var m := Matching(right, rkey, lkey(left[0]));
      InnerJoinMembers(left[1..], right, lkey, rkey);
      forall x: Joined<L, R> | x.left == left[0] && x.right in right && lkey(x.left) == rkey(x.right)
        ensures x in block
      {
        var i :| 0 <= i < |m| && m[i] == x.right;
        assert block[i] == x;
      }
      forall x | x in block ensures x.right in right && lkey(x.left) == rkey(x.right) {
        var i :| 0 <= i < |block| && block[i] == x;
        assert m[i] in m;
      }
      assert forall l :: l in left <==> l == left[0] || l in left[1..];
    }
  }

  /**
   * Each pair of a left row and a right row of the same key occurs in the
   * inner merge as often as the left row occurs times as often as the right
   * row occurs; a pair whose keys differ never occurs.
   */
  lemma {:induction false} InnerJoinMultiplicity<L, R, K>(left: seq<L>, right: seq<R>, lkey: L -> K, rkey: R -> K, l: L, r: R)
    ensures multiset(InnerJoin(left, right, lkey, rkey))[Joined(l, r)]
      == if lkey(l) == rkey(r) then multiset(left)[l] * multiset(right)[r] else 0
  {
    if left != [] {
      var l0, p := left[0], Joined(l, r);
      var block := InnerBlock(l0, right, lkey, rkey);
      var tail := InnerJoin(left[1..], right, lkey, rkey);
      assert InnerJoin(left, right, lkey, rkey) == block + tail;
      assert multiset(block + tail)[p] == multiset(block)[p] + multiset(tail)[p];
      InnerBlockMultiplicity(l0, right, lkey, rkey, l, r);
      InnerJoinMultiplicity(left[1..], right, lkey, rkey, l, r);
      HeadMultiplicity(left, l);
      if lkey(l) == rkey(r) {
        Distribute(if l == l0 then 1 else 0, multiset(left[1..])[l], multiset(right)[r]);
      }
    }
  }

  /** A row occurs in a sequence once more than in its tail when it is the head, as often otherwise. */
  lemma HeadMultiplicity<T>(s: seq<T>, x: T)
    requires s != []
    ensures multiset(s)[x] == (if x == s[0] then 1 else 0) + multiset(s[1..])[x]
  {
    assert s == [s[0]] + s[1..];
  }

  /** The pairs of one left row's block: each right row of its key as often as that row occurs. */
  lemma InnerBlockMultiplicity<L, R, K>(l0: L, right: seq<R>, lkey: L -> K, rkey: R -> K, l: L, r: R)
    ensures multiset(InnerBlock(l0, right, lkey, rkey))[Joined(l, r)]
      == if l == l0 && lkey(l) == rkey(r) then multiset(right)[r] else 0
  {
    var m := Matching(right, rkey, lkey(l0));
    BlockMultiplicity(l0, m, l, r);
    MatchingMultiplicity(right, rkey, lkey(l0), r);
  }

  lemma Distribute(a: int, b: int, n: int)
    ensures (a + b) * n == a * n + b * n
  {
  }

  /** The block of one left row `l0`: a pair occurs in it as often as its right row occurs among the matches. */
  lemma {:induction false} BlockMultiplicity<L, R>(l0: L, m: seq<R>, l: L, r: R)
    ensures multiset(seq(|m|, i requires 0 <= i < |m| => Joined(l0, m[i])))[Joined(l, r)]
      == if l == l0 then multiset(m)[r] else 0
  {
    if m != [] {
      var b := seq(|m|, i requires 0 <= i < |m| => Joined(l0, m[i]));
      var b' := seq(|m[1..]|, i requires 0 <= i < |m[1..]| => Joined(l0, m[1..][i]));
      assert b == [b[0]] + b';
      assert m == [m[0]] + m[1..];
      BlockMultiplicity(l0, m[1..], l, r);
    }
  }

  /** The block of one left row holds that row only, once per match or once alone. */
  lemma LeftBlockRows<L, R, K>(l: L, right: seq<R>, lkey: L -> K, rkey: R -> K)
    ensures var b := Count(right, rkey, lkey(l));
      |LeftBlock(l, right, lkey, rkey)| == (if b == 0 then 1 else b)
    ensures forall x :: x in LeftBlock(l, right, lkey, rkey) ==> x.left == l
  {
    var block := LeftBlock(l, right, lkey, rkey);
    forall x | x in block ensures x.left == l {
      var i :| 0 <= i < |block| && block[i] == x;
    }
  }

  /**
   * The fan-out law of a left merge: a key held by `a` left rows and `b` right
   * rows yields `a * b` output rows when `b > 0` and `a` rows (one per left
   * row, right columns missing) when `b == 0`.
   */
  lemma {:induction false} LeftJoinFanOut<L, R, K>(left: seq<L>, right: seq<R>, lkey: L -> K, rkey: R -> K, k: K)
    ensures var b := Count(right, rkey, k);
      CountLeftJoined(LeftJoin(left, right, lkey, rkey), lkey, k) == Count(left, lkey, k) * (if b == 0 then 1 else b)
  {
    if left != [] {
      var block := LeftBlock(left[0], right, lkey, rkey);
      var rest := LeftJoin(left[1..], right, lkey, rkey);
      assert LeftJoin(left, right, lkey, rkey) == block + rest;
      CountLeftJoinedAppend(block, rest, lkey, k);
      LeftBlockCount(left[0], right, lkey, rkey, k);
      LeftJoinFanOut(left[1..], right, lkey, rkey, k);
      var a, b := if lkey(left[0]) == k then 1 else 0, Count(right, rkey, k);
      var c := if b == 0 then 1 else b;
      assert Count(left, lkey, k) == a + Count(left[1..], lkey, k);
      Distribute(a, Count(left[1..], lkey, k), c);
    }
  }

  /** One left row's block carries its key once per match, or once when there is none; no other key. */
  lemma LeftBlockCount<L, R, K>(l0: L, right: seq<R>, lkey: L -> K, rkey: R -> K, k: K)
    ensures var b := Count(right, rkey, k);
      CountLeftJoined(LeftBlock(l0, right, lkey, rkey), lkey, k) == if lkey(l0) == k then (if b == 0 then 1 else b) else 0
  {
    LeftBlockRows(l0, right, lkey, rkey);
    CountLeftJoinedOneLeft(LeftBlock(l0, right, lkey, rkey), l0, lkey, k);
  }

  /**
   * A left merge keeps every left row: a left row appears with each right row
   * of its key, or once with missing right columns when there is none, and
   * nothing else appears.
   */
  lemma LeftJoinMembers<L, R, K>(left: seq<L>, right: seq<R>, lkey: L -> K, rkey: R -> K)
    ensures |LeftJoin(left, right, lkey, rkey)| >= |left|
    ensures forall x :: x in LeftJoin(left, right, lkey, rkey) ==> x.left in left
    ensures forall l, r :: LeftJoined(l, Some(r)) in LeftJoin(left, right, lkey, rkey) <==>
      l in left && r in right && rkey(r) == lkey(l)
    ensures forall l :: LeftJoined(l, None) in LeftJoin(left, right, lkey, rkey) <==>
      l in left && Count(right, rkey, lkey(l)) == 0
  {
    LeftJoinLefts(left, right, lkey, rkey);
    forall l, r ensures LeftJoined(l, Some(r)) in LeftJoin(left, right, lkey, rkey) <==>
      l in left && r in right && rkey(r) == lkey(l) {
      LeftJoinPair(left, right, lkey, rkey, l, r);
    }
    forall l ensures LeftJoined(l, None) in LeftJoin(left, right, lkey, rkey) <==>
      l in left && Count(right, rkey, lkey(l)) == 0 {
      LeftJoinAlone(left, right, lkey, rkey, l);
    }
  }

  /** At least one output row per left row, and every output row's left columns come from a left row. */
  lemma {:induction false} LeftJoinLefts<L, R, K>(left: seq<L>, right: seq<R>, lkey: L -> K, rkey: R -> K)
    ensures |LeftJoin(left, right, lkey, rkey)| >= |left|
    ensures forall x :: x in LeftJoin(left, right, lkey, rkey) ==> x.left in left
  {
    if left != [] {
      var block := LeftBlock(left[0], right, lkey, rkey);
      var rest := LeftJoin(left[1..], right, lkey, rkey);
      LeftBlockMembers(left[0], right, lkey, rkey);
      LeftJoinLefts(left[1..], right, lkey, rkey);
      assert LeftJoin(left, right, lkey, rkey) == block + rest;
      forall x: LeftJoined<L, R> | x in block + rest ensures x.left in left {
        if x in block {
          assert x.left == left[0];
        } else {
          assert x.left in left[1..];
        }
      }
    }
  }

  /** A left row sits beside a right row exactly when it is a left row and they share the key. */
  lemma {:induction false} LeftJoinPair<L, R, K>(left: seq<L>, right: seq<R>, lkey: L -> K, rkey: R -> K, l: L, r: R)
    ensures LeftJoined(l, Some(r)) in LeftJoin(left, right, lkey, rkey) <==>
      l in left && r in right && rkey(r) == lkey(l)
  {
    if left != [] {
      LeftBlockMembers(left[0], right, lkey, rkey);
      LeftJoinPair(left[1..], right, lkey, rkey, l, r);
      assert LeftJoin(left, right, lkey, rkey) == LeftBlock(left[0], right, lkey, rkey) + LeftJoin(left[1..], right, lkey, rkey);
      assert l in left <==> l == left[0] || l in left[1..];
    }
  }

  /** A left row stands alone exactly when it is a left row whose key no right row holds. */
  lemma {:induction false} LeftJoinAlone<L, R, K>(left: seq<L>, right: seq<R>, lkey: L -> K, rkey: R -> K, l: L)
    ensures LeftJoined(l, None) in LeftJoin(left, right, lkey, rkey) <==>
      l in left && Count(right, rkey, lkey(l)) == 0
  {
    if left != [] {
      LeftBlockMembers(left[0], right, lkey, rkey);
      LeftJoinAlone(left[1..], right, lkey, rkey, l);
      assert LeftJoin(left, right, lkey, rkey) == LeftBlock(left[0], right, lkey, rkey) + LeftJoin(left[1..], right, lkey, rkey);
      assert l in left <==> l == left[0] || l in left[1..];
    }
  }

  /** The rows of one left row's block: that row with each match, or alone when there is none. */
  lemma LeftBlockMembers<L, R, K>(l0: L, right: seq<R>, lkey: L -> K, rkey: R -> K)
    ensures |LeftBlock(l0, right, lkey, rkey)| >= 1
    ensures forall x :: x in LeftBlock(l0, right, lkey, rkey) ==> x.left == l0
    ensures forall r :: LeftJoined(l0, Some(r)) in LeftBlock(l0, right, lkey, rkey) <==>
      r in right && rkey(r) == lkey(l0)
    ensures LeftJoined(l0, None) in LeftBlock(l0, right, lkey, rkey) <==> Count(right, rkey, lkey(l0)) == 0
  {
    var block := LeftBlock(l0, right, lkey, rkey);
    var m := Matching(right, rkey, lkey(l0));
    forall x | x in block ensures x.left == l0 && (x.right.None? <==> |m| == 0)
      && (x.right.Some? ==> x.right.value in m) {
      var i :| 0 <= i < |block| && block[i] == x;
    }
    forall r | r in right && rkey(r) == lkey(l0) ensures LeftJoined(l0, Some(r)) in block {
      var i :| 0 <= i < |m| && m[i] == r;
      assert block[i] == LeftJoined(l0, Some(r));
    }
    if |m| == 0 {
      assert block[0] == LeftJoined(l0, None);
    }
  }

  /** One row of a left merge: a left row with a right row of its key, or alone when its key has none. */
  lemma LeftJoinRow<L, R, K>(left: seq<L>, right: seq<R>, lkey: L -> K, rkey: R -> K, x: LeftJoined<L, R>)
    requires x in LeftJoin(left, right, lkey, rkey)
    ensures x.left in left
    ensures x.right.Some? ==> x.right.value in right && rkey(x.right.value) == lkey(x.left)
    ensures x.right.None? <==> Count(right, rkey, lkey(x.left)) == 0
  {
    LeftJoinMembers(left, right, lkey, rkey);
    if x.right.Some? {
      assert LeftJoined(x.left, Some(x.right.value)) == x;
      assert x.right.value in Matching(right, rkey, lkey(x.left));
    } else {
      assert LeftJoined(x.left, None) == x;
    }
  }

  /** With unique right keys a key occurs at most once. */
  lemma {:induction false} UniqueKeysCount<R, K>(right: seq<R>, rkey: R -> K, k: K)
    requires UniqueKeys(right, rkey)
    ensures Count(right, rkey, k) <= 1
  {
    if right != [] {
      assert UniqueKeys(right[1..], rkey) by {
        forall i, j | 0 <= i < j < |right[1..]| ensures rkey(right[1..][i]) != rkey(right[1..][j]) {
          assert right[1..][i] == right[i + 1] && right[1..][j] == right[j + 1];
        }
      }
      UniqueKeysCount(right[1..], rkey, k);
      if rkey(right[0]) == k && Count(right[1..], rkey, k) > 0 {
        var j := LaterKeyAt(right, rkey, k);
        assert false;
      }
    }
  }

  /** A key counted in `right[1..]` sits at some index of `right` after the first. */
  lemma LaterKeyAt<R, K>(right: seq<R>, rkey: R -> K, k: K) returns (j: nat)
    requires right != [] && Count(right[1..], rkey, k) > 0
    ensures 1 <= j < |right| && rkey(right[j]) == k
  {
    var m := Matching(right[1..], rkey, k);
    assert m[0] in right[1..];
    var i :| 0 <= i < |right[1..]| && right[1..][i] == m[0];
    j := i + 1;
  }

  /**
   * A left merge against a table with unique keys is row-for-row: the same
   * number of rows, each left row in place with its match or with missing
   * right columns.
   */
  lemma {:induction false} LeftJoinUnique<L, R, K>(left: seq<L>, right: seq<R>, lkey: L -> K, rkey: R -> K)
    requires UniqueKeys(right, rkey)
    ensures |LeftJoin(left, right, lkey, rkey)| == |left|
    ensures forall i :: 0 <= i < |left| ==>
      LeftJoin(left, right, lkey, rkey)[i] == LeftJoined(left[i], Lookup(right, rkey, lkey(left[i])))
  {
    if left != [] {
      var block := LeftBlock(left[0], right, lkey, rkey);
      var rest := LeftJoin(left[1..], right, lkey, rkey);
      UniqueKeysCount(right, rkey, lkey(left[0]));
      assert block == [LeftJoined(left[0], Lookup(right, rkey, lkey(left[0])))];
      LeftJoinUnique(left[1..], right, lkey, rkey);
      forall i | 1 <= i < |left|
        ensures LeftJoin(left, right, lkey, rkey)[i] == LeftJoined(left[i], Lookup(right, rkey, lkey(left[i])))
      {
        assert LeftJoin(left, right, lkey, rkey)[i] == rest[i - 1];
        assert left[1..][i - 1] == left[i];
      }
    }
  }

  /** Two tables whose rows agree key by key have the same count for every key. */
  lemma {:induction false} CountPointwise<S, T, K>(s: seq<S>, skey: S -> K, t: seq<T>, tkey: T -> K, k: K)
    requires |s| == |t| && forall i :: 0 <= i < |s| ==> skey(s[i]) == tkey(t[i])
    ensures Count(s, skey, k) == Count(t, tkey, k)
  {
    if s != [] {
      CountPointwise(s[1..], skey, t[1..], tkey, k);
    }
  }

  lemma {:induction false} CountJoinedPointwise<T, L, R, K>(s: seq<T>, key: T -> K, t: seq<Joined<L, R>>, lkey: L -> K, k: K)
    requires |s| == |t| && forall i :: 0 <= i < |s| ==> key(s[i]) == lkey(t[i].left)
    ensures Count(s, key, k) == CountJoined(t, lkey, k)
  {
    if s != [] {
      CountJoinedPointwise(s[1..], key, t[1..], lkey, k);
    }
  }

  lemma {:induction false} CountLeftJoinedPointwise<T, L, R, K>(s: seq<T>, key: T -> K, t: seq<LeftJoined<L, R>>, lkey: L -> K, k: K)
    requires |s| == |t| && forall i :: 0 <= i < |s| ==> key(s[i]) == lkey(t[i].left)
    ensures Count(s, key, k) == CountLeftJoined(t, lkey, k)
  {
    if s != [] {
      CountLeftJoinedPointwise(s[1..], key, t[1..], lkey, k);
    }
  }
}
