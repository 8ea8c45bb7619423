/**
 * The order Array.prototype.sort uses when it is given no comparator:
 * strings compared character by character, a proper prefix first.
 */
module Collation {
  import opened Sorting

  /** a sorts strictly before b. */
  predicate Precedes(a: string, b: string)
    decreases |a|
  {
    if |a| == 0 then |b| > 0
    else if |b| == 0 then false
    else if a[0] != b[0] then a[0] < b[0]
    else Precedes(a[1..], b[1..])
  }

  predicate NotAfter(a: string, b: string) {
    a == b || Precedes(a, b)
  }

  predicate StrictlyAscending(s: seq<string>) {
    forall i, j :: 0 <= i < j < |s| ==> Precedes(s[i], s[j])
  }

  /**
   * The string comparison of ECMAScript (IsLessThan, section 7.2.13 of
   * ECMA-262): a and b agree on their first k characters, and then either a
   * ends where b goes on, or a's k-th character is the smaller one.
   */
  predicate LessAt(a: string, b: string, k: int) {
    && 0 <= k <= |a| && k <= |b| && a[..k] == b[..k]
    && (k == |a| ==> k < |b|)
    && (k < |a| ==> k < |b| && a[k] < b[k])
  }

  /** Precedes is exactly that comparison. */
  lemma {:induction false} PrecedesIsLessThan(a: string, b: string)
    ensures Precedes(a, b) <==> exists k :: LessAt(a, b, k)
  {
    if |a| == 0 {
      if |b| > 0 { assert LessAt(a, b, 0); }
    } else if |b| > 0 && a[0] == b[0] {
      PrecedesIsLessThan(a[1..], b[1..]);
      if Precedes(a, b) {
        var k :| LessAt(a[1..], b[1..], k);
        assert a[..k + 1] == [a[0]] + a[1..][..k];
        assert b[..k + 1] == [b[0]] + b[1..][..k];
        assert LessAt(a, b, k + 1);
      }
      if exists k :: LessAt(a, b, k) {
        var k :| LessAt(a, b, k);
        if k == 0 {
          assert false;
        }
        assert a[1..][..k - 1] == a[..k][1..];
        assert b[1..][..k - 1] == b[..k][1..];
        assert LessAt(a[1..], b[1..], k - 1);
      }
    } else if |b| > 0 {
      if a[0] < b[0] { assert LessAt(a, b, 0); }
      if exists k :: LessAt(a, b, k) {
        var k :| LessAt(a, b, k);
        if k > 0 {
          assert a[..k][0] == b[..k][0];
        }
      }
    }
  }

  lemma {:induction false} PrecedesIrreflexive(a: string)
    ensures !Precedes(a, a)
  {
    if |a| > 0 {
      PrecedesIrreflexive(a[1..]);
    }
  }

  lemma {:induction false} PrecedesTransitive(a: string, b: string, c: string)
    requires Precedes(a, b) && Precedes(b, c)
    ensures Precedes(a, c)
  {
    if |a| > 0 && a[0] == b[0] && b[0] == c[0] {
      PrecedesTransitive(a[1..], b[1..], c[1..]);
    }
  }

  lemma {:induction false} PrecedesTotal(a: string, b: string)
    requires a != b
    ensures Precedes(a, b) || Precedes(b, a)
  {
    if |a| > 0 && |b| > 0 && a[0] == b[0] {
      assert a == [a[0]] + a[1..] && b == [b[0]] + b[1..];
      PrecedesTotal(a[1..], b[1..]);
    }
  }

  /** NotAfter orders every pair of strings and is transitive. */
  lemma NotAfterIsTotalPreorder()
    ensures TotalPreorder(NotAfter)
  {
    forall a, b ensures NotAfter(a, b) || NotAfter(b, a) {
      if a != b { PrecedesTotal(a, b); }
    }
    forall a, b, c | NotAfter(a, b) && NotAfter(b, c) ensures NotAfter(a, c) {
      if a != b && b != c { PrecedesTransitive(a, b, c); }
    }
  }

  /** Of two ascending sequences holding the same strings, neither head comes before the other. */
  lemma HeadNotBefore(a: seq<string>, b: seq<string>)
    requires StrictlyAscending(a) && |a| > 0 && |b| > 0
    requires forall x :: x in a <==> x in b
    ensures !Precedes(b[0], a[0])
  {
    if Precedes(b[0], a[0]) {
      assert b[0] in a;
      var k :| 0 <= k < |a| && a[k] == b[0];
      if k > 0 {
        PrecedesTransitive(a[0], b[0], a[0]);
      }
      PrecedesIrreflexive(a[0]);
    }
  }

  /** Sorted without repeats, a sequence is fixed by the strings it holds. */
  lemma {:induction false} AscendingUnique(a: seq<string>, b: seq<string>)
    requires StrictlyAscending(a) && StrictlyAscending(b)
    requires forall x :: x in a <==> x in b
    ensures a == b
  {
    if a != [] { assert a[0] in b; }
    if b != [] { assert b[0] in a; }
    if a != [] && b != [] {
      HeadNotBefore(a, b);
      HeadNotBefore(b, a);
      if a[0] != b[0] {
        PrecedesTotal(a[0], b[0]);
      }
      forall x ensures x in a[1..] <==> x in b[1..] {
        if x in a[1..] {
          var k :| 1 <= k < |a| && a[k] == x;
          PrecedesIrreflexive(x);
          assert x in b;
          var m :| 0 <= m < |b| && b[m] == x;
          assert b[1..][m - 1] == x;
        }
        if x in b[1..] {
          var k :| 1 <= k < |b| && b[k] == x;
          PrecedesIrreflexive(x);
          assert x in a;
          var m :| 0 <= m < |a| && a[m] == x;
          assert a[1..][m - 1] == x;
        }
      }
      AscendingUnique(a[1..], b[1..]);
      assert a == [a[0]] + a[1..] && b == [b[0]] + b[1..];
    }
  }
}
