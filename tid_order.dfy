/** Ordering of record keys (TIDs) as the catalog query compares them.
    SQLite compares TEXT with its default BINARY collation, byte by byte; on
    UTF-8 text that is the lexicographic order of code points, which is the
    order `LexLe` below defines on Dafny strings. */
module TidOrder {

  /** `a` sorts at or before `b`. */
  predicate LexLe(a: string, b: string)
    decreases |a|
  {
    |a| == 0 || (|b| > 0 && (a[0] < b[0] || (a[0] == b[0] && LexLe(a[1..], b[1..]))))
  }

  /** `a` sorts strictly before `b`. */
  predicate LexLt(a: string, b: string) {
    LexLe(a, b) && a != b
  }

  lemma {:induction false} LexLeReflexive(a: string)
    ensures LexLe(a, a)
    decreases |a|
  {
    if |a| > 0 {
      LexLeReflexive(a[1..]);
    }
  }

  lemma {:induction false} LexLeTotal(a: string, b: string)
    ensures LexLe(a, b) || LexLe(b, a)
    decreases |a|
  {
    if |a| > 0 && |b| > 0 && a[0] == b[0] {
      LexLeTotal(a[1..], b[1..]);
    }
  }

  lemma {:induction false} LexLeAntisymmetric(a: string, b: string)
    requires LexLe(a, b) && LexLe(b, a)
    ensures a == b
    decreases |a|
  {
    if |a| > 0 {
      LexLeAntisymmetric(a[1..], b[1..]);
      assert a == [a[0]] + a[1..];
      assert b == [b[0]] + b[1..];
    }
  }

  lemma {:induction false} LexLeTransitive(a: string, b: string, c: string)
    requires LexLe(a, b) && LexLe(b, c)
    ensures LexLe(a, c)
    decreases |a|
  {
    if |a| > 0 && a[0] == b[0] && b[0] == c[0] {
      LexLeTransitive(a[1..], b[1..], c[1..]);
    }
  }

  /** A greatest element of `s`. */
  predicate IsMax(s: set<string>, m: string) {
    m in s && forall x :: x in s ==> LexLe(x, m)
  }

  /** Every non-empty finite set of keys has a greatest element. */
  lemma MaxExists(s: set<string>)
    requires s != {}
    ensures exists m :: IsMax(s, m)
  {
    var m := GreatestOf(s);
  }

  lemma {:induction false} GreatestOf(s: set<string>) returns (m: string)
    requires s != {}
    ensures IsMax(s, m)
    decreases |s|
  {
    var y :| y in s;
    if s == {y} {
      LexLeReflexive(y);
      m := y;
    } else {
      var m' := GreatestOf(s - {y});
      LexLeTotal(y, m');
      if LexLe(y, m') {
        m := m';
      } else {
        forall x | x in s
          ensures LexLe(x, y)
        {
          if x == y {
            LexLeReflexive(y);
          } else {
            LexLeTransitive(x, m', y);
          }
        }
        m := y;
      }
    }
  }

  /** A set has at most one greatest element. */
  lemma MaxUnique(s: set<string>)
    ensures forall a, b :: IsMax(s, a) && IsMax(s, b) ==> a == b
  {
    forall a, b | IsMax(s, a) && IsMax(s, b)
      ensures a == b
    {
      LexLeAntisymmetric(a, b);
    }
  }

  /** The greatest key of a non-empty set. */
  function MaxKey(s: set<string>): (m: string)
    requires s != {}
    ensures m in s
    ensures forall x :: x in s ==> LexLe(x, m)
  {
    MaxExists(s);
    MaxUnique(s);
    var m :| m in s && IsMax(s, m);
    m
  }

  /** The `k` greatest keys of `s`, greatest first: what `ORDER BY tid DESC LIMIT k`
      yields on keys that are pairwise distinct. */
  function TopK(s: set<string>, k: nat): (r: seq<string>)
    ensures |r| == if k < |s| then k else |s|
    ensures forall i :: 0 <= i < |r| ==> r[i] in s
    ensures forall i, j :: 0 <= i < j < |r| ==> LexLt(r[j], r[i])
    ensures forall x :: x in s && x !in r ==> forall i :: 0 <= i < |r| ==> LexLt(x, r[i])
    decreases k
  {
    if k == 0 || s == {} then []
    else
      var m := MaxKey(s);
      var rest := TopK(s - {m}, k - 1);
      [m] + rest
  }

  /** A sequence without repeated elements has as many distinct elements as entries. */
  lemma {:induction false} SeqElementsBound(xs: seq<string>)
    requires forall i, j :: 0 <= i < j < |xs| ==> LexLt(xs[j], xs[i])
    ensures |set k | 0 <= k < |xs| :: xs[k]| == |xs|
    decreases |xs|
  {
    if |xs| > 0 {
      var tail := xs[1..];
      SeqElementsBound(tail);
      var all := set k | 0 <= k < |xs| :: xs[k];
      var rest := set k | 0 <= k < |tail| :: tail[k];
      assert all == {xs[0]} + rest by {
        forall x | x in all ensures x in {xs[0]} + rest {
          var k :| 0 <= k < |xs| && xs[k] == x;
          if k > 0 { assert tail[k - 1] == x; }
        }
      }
      assert xs[0] !in rest by {
        forall k | 0 <= k < |tail| ensures tail[k] != xs[0] {
          assert LexLt(xs[k + 1], xs[0]);
        }
      }
    }
  }

  /** When some key of `s` is left out of `TopK(s, k)`, the selection is full. */
  lemma {:induction false} TopKFullWhenKeyLeftOut(s: set<string>, k: nat, x: string)
    requires x in s && x !in TopK(s, k)
    ensures |TopK(s, k)| == k && k < |s|
  {
    var r := TopK(s, k);
    var listed := set i | 0 <= i < |r| :: r[i];
    assert listed <= s - {x};
    SeqElementsBound(r);
    SubsetNoLarger(listed, s - {x});
  }

  lemma {:induction false} SubsetNoLarger(a: set<string>, b: set<string>)
    requires a <= b
    ensures |a| <= |b|
    decreases |a|
  {
    if a != {} {
      var y :| y in a;
      SubsetNoLarger(a - {y}, b - {y});
    }
  }

  /** With a limit as large as the set, every key is selected. */
  lemma {:induction false} TopKAllCoversSet(s: set<string>)
    ensures forall x :: x in s ==> x in TopK(s, |s|)
  {
    forall x | x in s ensures x in TopK(s, |s|) {
      if x !in TopK(s, |s|) {
        TopKFullWhenKeyLeftOut(s, |s|, x);
      }
    }
  }

  /** The default upper bound of a listing, a run of 13 'z' characters. */
  const DefaultCursor: string := "zzzzzzzzzzzzz"

  /** A key of at most 13 characters, none above 'z'; every TID is one. */
  predicate ShortKey(tid: string) {
    |tid| <= 13 && forall i :: 0 <= i < |tid| ==> tid[i] <= 'z'
  }

  predicate AllZ(z: string) {
    forall i :: 0 <= i < |z| ==> z[i] == 'z'
  }

  /** A key no longer than a run of 'z's, and with no character above 'z', sorts at or before that run. */
  lemma {:induction false} BelowZRun(tid: string, z: string)
    requires AllZ(z) && |tid| <= |z|
    requires forall i :: 0 <= i < |tid| ==> tid[i] <= 'z'
    ensures LexLe(tid, z)
    decreases |tid|
  {
    if |tid| > 0 && tid[0] == 'z' {
      BelowZRun(tid[1..], z[1..]);
    }
  }

  /** The default cursor bounds every key of at most 13 characters drawn
      from characters up to 'z', which includes every 13-character TID
      (alphabet "234567abcdefghijklmnopqrstuvwxyz"). */
  lemma DefaultCursorBoundsShortKeys(tid: string)
    requires ShortKey(tid)
    ensures LexLe(tid, DefaultCursor)
  {
    DefaultCursorIsZRun();
    BelowZRun(tid, DefaultCursor);
  }

  lemma DefaultCursorIsZRun()
    ensures AllZ(DefaultCursor) && |DefaultCursor| == 13
  {
  }

  /** A run of 14 'z's, as the code comment at the default describes, sorts
      after the default cursor: the default does not bound a key that long. */
  lemma FourteenZsAboveDefaultCursor()
    ensures !LexLe(DefaultCursor + "z", DefaultCursor)
  {
    var z := DefaultCursor;
    ZRunExtension(z);
  }

  lemma {:induction false} ZRunExtension(z: string)
    requires AllZ(z)
    ensures !LexLe(z + "z", z)
    decreases |z|
  {
    if |z| > 0 {
      assert (z + "z")[1..] == z[1..] + "z";
      ZRunExtension(z[1..]);
    }
  }
}
