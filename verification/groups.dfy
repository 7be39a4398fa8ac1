/**
 * `DataFrame.groupby(key)` over a string key column: one group per distinct
 * key, the groups in ascending key order (Python's comparison of `str`
 * values), and every row in exactly one group. Also the column reductions the
 * aggregation uses: a sum and a maximum that skip missing values.
 */
module Groups {
  import opened Wrappers
  import opened Joins

  /** Python's `a < b` on `str`: code point by code point, a proper prefix first. */
  predicate Less(a: string, b: string)
  {
    if a == [] then b != []
    else if b == [] then false
    else if a[0] != b[0] then a[0] < b[0]
    else Less(a[1..], b[1..])
  }

  lemma {:induction false} LessIrreflexive(a: string)
    ensures !Less(a, a)
  {
    if a != [] {
      LessIrreflexive(a[1..]);
    }
  }

  /** Any two different strings are ordered one way or the other. */
  lemma {:induction false} LessTotal(a: string, b: string)
    requires a != b
    ensures Less(a, b) || Less(b, a)
  {
    if a != [] && b != [] && a[0] == b[0] {
      LessTotal(a[1..], b[1..]);
    }
  }

  lemma {:induction false} LessTrans(a: string, b: string, c: string)
    requires Less(a, b) && Less(b, c)
    ensures Less(a, c)
  {
    if a != [] && a[0] == b[0] && b[0] == c[0] {
      LessTrans(a[1..], b[1..], c[1..]);
    }
  }

  /** Strictly ascending, hence without repeats. */
  predicate StrictlySorted(s: seq<string>)
  {
    forall i, j :: 0 <= i < j < |s| ==> Less(s[i], s[j])
  }

  /** `k` added to an ascending sequence of keys, in its place, unless already there. */
  function Insert(s: seq<string>, k: string): seq<string>
  {
    if s == [] then [k]
    else if k == s[0] then s
    else if Less(k, s[0]) then [k] + s
    else [s[0]] + Insert(s[1..], k)
  }

  lemma {:induction false} InsertSpec(s: seq<string>, k: string)
    requires StrictlySorted(s)
    ensures StrictlySorted(Insert(s, k))
    ensures forall x :: x in Insert(s, k) <==> x in s || x == k
  {
    if s == [] {
    } else if k == s[0] {
    } else if Less(k, s[0]) {
      forall j | 0 <= j < |s| ensures Less(k, s[j]) {
        if j > 0 {
          LessTrans(k, s[0], s[j]);
        }
      }
    } else {
      LessTotal(k, s[0]);
      var rest := Insert(s[1..], k);
      InsertSpec(s[1..], k);
      assert forall x :: x in s <==> x == s[0] || x in s[1..];
      forall x | x in rest ensures Less(s[0], x) {
        if x != k {
          var j :| 0 <= j < |s[1..]| && s[1..][j] == x;
          assert s[j + 1] == x;
        }
      }
      var r := [s[0]] + rest;
      forall i, j | 0 <= i < j < |r| ensures Less(r[i], r[j]) {
        assert r[j] == rest[j - 1] && rest[j - 1] in rest;
        if i > 0 {
          assert r[i] == rest[i - 1];
        }
      }
    }
  }

  /**
   * The keys of `groupby(key)`: every key some row holds, once each, in
   * ascending order.
   */
  function GroupKeys<T>(rows: seq<T>, key: T -> string): seq<string>
  {
    if rows == [] then [] else Insert(GroupKeys(rows[1..], key), key(rows[0]))
  }

  lemma {:induction false} GroupKeysSpec<T>(rows: seq<T>, key: T -> string)
    ensures StrictlySorted(GroupKeys(rows, key))
    ensures forall i, j :: 0 <= i < j < |GroupKeys(rows, key)| ==> GroupKeys(rows, key)[i] != GroupKeys(rows, key)[j]
    ensures forall k :: k in GroupKeys(rows, key) <==> Count(rows, key, k) > 0
  {
    var r := GroupKeys(rows, key);
    if rows != [] {
      GroupKeysSpec(rows[1..], key);
      InsertSpec(GroupKeys(rows[1..], key), key(rows[0]));
    }
    forall i, j | 0 <= i < j < |r| ensures r[i] != r[j] {
      if r[i] == r[j] {
        LessIrreflexive(r[i]);
        assert false;
      }
    }
  }

  /** The sum of a per-row quantity. */
  function SumOf<T>(g: seq<T>, w: T -> int): int
  {
    if g == [] then 0 else w(g[0]) + SumOf(g[1..], w)
  }

  /** The per-group sums of `w` for the groups `keys`, added up. */
  function GroupSums<T>(rows: seq<T>, key: T -> string, keys: seq<string>, w: T -> int): int
  {
    if keys == [] then 0 else SumOf(Matching(rows, key, keys[0]), w) + GroupSums(rows, key, keys[1..], w)
  }

  function Identity(s: string): string { s }

  lemma {:induction false} GroupSumsOfNothing<T>(key: T -> string, keys: seq<string>, w: T -> int)
    ensures GroupSums([], key, keys, w) == 0
  {
    if keys != [] {
      GroupSumsOfNothing(key, keys[1..], w);
    }
  }

  /** Taking the first row out of every group takes its weight out once per group of its key. */
  lemma {:induction false} GroupSumsStep<T>(rows: seq<T>, key: T -> string, keys: seq<string>, w: T -> int)
    requires rows != []
    ensures GroupSums(rows, key, keys, w)
      == Count(keys, Identity, key(rows[0])) * w(rows[0]) + GroupSums(rows[1..], key, keys, w)
  {
    if keys != [] {
      var x, k0 := rows[0], keys[0];
      var a := if key(x) == k0 then 1 else 0;
      var c := Count(keys[1..], Identity, key(x));
      GroupHeadSum(rows, key, k0, w);
      assert Count(keys, Identity, key(x)) == a + c;
      GroupSumsStep(rows, key, keys[1..], w);
      Distribute(a, c, w(x));
    }
  }

  /** The group of key `k0` holds the first row exactly when that row has key `k0`. */
  lemma GroupHeadSum<T>(rows: seq<T>, key: T -> string, k0: string, w: T -> int)
    requires rows != []
    ensures SumOf(Matching(rows, key, k0), w)
      == (if key(rows[0]) == k0 then w(rows[0]) else 0) + SumOf(Matching(rows[1..], key, k0), w)
  {
    var m := Matching(rows[1..], key, k0);
    if key(rows[0]) == k0 {
      var g := [rows[0]] + m;
      assert Matching(rows, key, k0) == g;
      assert g[0] == rows[0] && g[1..] == m;
    } else {
      assert Matching(rows, key, k0) == m;
    }
  }

  /** A key occurs once in a sequence of distinct keys that holds it. */
  lemma {:induction false} CountOnce(keys: seq<string>, k: string)
    requires forall i, j :: 0 <= i < j < |keys| ==> keys[i] != keys[j]
    ensures Count(keys, Identity, k) == if k in keys then 1 else 0
  {
    if keys != [] {
      CountOnce(keys[1..], k);
      assert forall x :: x in keys <==> x == keys[0] || x in keys[1..];
    }
  }

  /**
   * Grouping partitions the rows: summed over the groups of distinct keys that
   * cover every row, a per-row quantity adds up to its sum over all rows.
   */
  lemma {:induction false} GroupSumsPartition<T>(rows: seq<T>, key: T -> string, keys: seq<string>, w: T -> int)
    requires forall i, j :: 0 <= i < j < |keys| ==> keys[i] != keys[j]
    requires forall i :: 0 <= i < |rows| ==> key(rows[i]) in keys
    ensures GroupSums(rows, key, keys, w) == SumOf(rows, w)
  {
    if rows == [] {
      GroupSumsOfNothing(key, keys, w);
    } else {
      var x := rows[0];
      GroupSumsStep(rows, key, keys, w);
      assert key(x) in keys;
      CountOnce(keys, key(x));
      assert forall i :: 0 <= i < |rows[1..]| ==> key(rows[1..][i]) in keys by {
        forall i | 0 <= i < |rows[1..]| ensures key(rows[1..][i]) in keys {
          assert rows[1..][i] == rows[i + 1];
        }
      }
      GroupSumsPartition(rows[1..], key, keys, w);
      assert 1 * w(x) == w(x);
    }
  }

  /** The larger of a running maximum and one more value; missing values are skipped. */
  function MaxWith(m: Option<int>, x: Option<int>): Option<int>
  {
    if x.None? then m
    else if m.None? || x.value > m.value then x
    else m
  }

  /** `column.max()` with missing values skipped: missing only when every value is. */
  function MaxPresent(col: seq<Option<int>>): (r: Option<int>)
    ensures r.None? <==> forall i :: 0 <= i < |col| ==> col[i].None?
    ensures r.Some? ==> exists i :: 0 <= i < |col| && col[i] == r
    ensures r.Some? ==> forall i :: 0 <= i < |col| && col[i].Some? ==> col[i].value <= r.value
  {
    if col == [] then None
    else
      var prefix := col[..|col| - 1];
      assert forall i :: 0 <= i < |prefix| ==> prefix[i] == col[i];
      MaxWith(MaxPresent(prefix), col[|col| - 1])
  }

  /** A maximum is determined by its two defining properties. */
  lemma MaxPresentUnique(col: seq<Option<int>>, v: int)
    requires exists i :: 0 <= i < |col| && col[i] == Some(v)
    requires forall i :: 0 <= i < |col| && col[i].Some? ==> col[i].value <= v
    ensures MaxPresent(col) == Some(v)
  {
    var i :| 0 <= i < |col| && col[i] == Some(v);
    var r := MaxPresent(col);
    var j :| 0 <= j < |col| && col[j] == r;
  }

  /** A present value bounds the maximum from below. */
  lemma MaxPresentAtLeast(col: seq<Option<int>>, i: nat)
    requires i < |col| && col[i].Some?
    ensures MaxPresent(col).Some? && col[i].value <= MaxPresent(col).value
  {
  }
}
