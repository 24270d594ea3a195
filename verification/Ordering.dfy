/** The lexicographic order on strings that Go's `<` and sort.Strings use. */
module Ordering {
  predicate Less(a: string, b: string) {
    b != [] && (a == [] || a[0] < b[0] || (a[0] == b[0] && Less(a[1..], b[1..])))
  }

  lemma {:induction false} LessIsTotal(a: string, b: string)
    ensures Less(a, b) || a == b || Less(b, a)
    ensures !(Less(a, b) && (a == b || Less(b, a)))
    ensures !Less(a, a)
  {
    if a != [] && b != [] && a[0] == b[0] {
      LessIsTotal(a[1..], b[1..]);
      assert a == [a[0]] + a[1..] && b == [b[0]] + b[1..];
    }
    if a != [] {
      LessIsTotal(a[1..], a[1..]);
    }
  }

  /** One text is less than another exactly when, after what they have in common from the
      start, it ends or has the smaller character. */
  lemma {:induction false} LessExactly(a: string, b: string)
    ensures Less(a, b) <==> exists n: nat :: FirstDifference(a, b, n) && (n == |a| || a[n] < b[n])
  {
    if b != [] {
      if a == [] {
        assert FirstDifference(a, b, 0);
      } else if a[0] != b[0] {
        assert FirstDifference(a, b, 0);
        forall n: nat | FirstDifference(a, b, n) ensures n == 0 || a[0] == b[0] {
          HeadsAgree(a, b, n);
        }
      } else {
        LessExactly(a[1..], b[1..]);
        forall n: nat | n > 0 ensures FirstDifference(a, b, n) <==> FirstDifference(a[1..], b[1..], n - 1) {
          if n <= |a| && n < |b| {
            assert a[..n] == [a[0]] + a[1..][..n - 1] && b[..n] == [b[0]] + b[1..][..n - 1];
          }
        }
        if Less(a, b) {
          var n: nat :| FirstDifference(a[1..], b[1..], n) && (n == |a[1..]| || a[1..][n] < b[1..][n]);
          assert FirstDifference(a, b, n + 1);
        }
        if n: nat :| FirstDifference(a, b, n) && (n == |a| || a[n] < b[n]) {
          assert FirstDifference(a[1..], b[1..], n - 1);
        }
      }
    }
  }

  lemma HeadsAgree(a: string, b: string, n: nat)
    requires a != [] && FirstDifference(a, b, n)
    ensures n == 0 || a[0] == b[0]
  {
    if n > 0 {
      assert a[..n][0] == a[0] && b[..n][0] == b[0];
    }
  }

  /** They agree up to n, the second goes on there, and the first does not go on with the
      same character. */
  ghost predicate FirstDifference(a: string, b: string, n: nat) {
    n <= |a| && n < |b| && a[..n] == b[..n] && (n < |a| ==> a[n] != b[n])
  }

  lemma {:induction false} LessIsTransitive(a: string, b: string, c: string)
    requires Less(a, b) && Less(b, c)
    ensures Less(a, c)
  {
    if a != [] && a[0] == b[0] == c[0] {
      LessIsTransitive(a[1..], b[1..], c[1..]);
    }
  }

  ghost predicate Ascending(keys: seq<string>) {
    forall i, j | 0 <= i < j < |keys| :: Less(keys[i], keys[j])
  }

  lemma FirstIsLeast(keys: seq<string>, k: string)
    requires Ascending(keys) && k in keys
    ensures k == keys[0] || Less(keys[0], k)
  {
    var i :| 0 <= i < |keys| && keys[i] == k;
  }

  lemma TailHasTheOthers(keys: seq<string>, k: string)
    requires Ascending(keys) && keys != []
    ensures k in keys[1..] <==> k in keys && k != keys[0]
  {
    assert keys == [keys[0]] + keys[1..];
    if k in keys[1..] {
      var i :| 0 <= i < |keys| - 1 && keys[1..][i] == k;
      assert Less(keys[0], keys[i + 1]);
      LessIsTotal(k, k);
    }
  }

  /** A set has only one ascending enumeration. */
  lemma {:induction false} AscendingIsUnique(a: seq<string>, b: seq<string>)
    requires Ascending(a) && Ascending(b)
    requires forall k :: k in a <==> k in b
    ensures a == b
  {
    assert b != [] ==> b[0] in b;
    if a != [] {
      assert a[0] in b && b[0] in b && b[0] in a;
      FirstIsLeast(a, b[0]);
      FirstIsLeast(b, a[0]);
      LessIsTotal(a[0], b[0]);
      forall k ensures k in a[1..] <==> k in b[1..] {
        TailHasTheOthers(a, k);
        TailHasTheOthers(b, k);
      }
      AscendingIsUnique(a[1..], b[1..]);
      assert a == [a[0]] + a[1..] && b == [b[0]] + b[1..];
    }
  }
}
