/** std::string's order, and the strictly increasing sequences that stand for std::set and std::map keys:
    an iterator is a position, and insertion and erasure keep the order. */
module Ordering {
  import opened Paths

  predicate Less(a: string, b: string) {
    b != "" && (a == "" || a[0] < b[0] || (a[0] == b[0] && Less(a[1..], b[1..])))
  }

  ghost predicate Sorted(s: seq<string>) {
    forall i, j {:trigger Less(s[i], s[j])} :: 0 <= i < j < |s| ==> Less(s[i], s[j])
  }

  function Insert(s: seq<string>, x: string): seq<string> {
    if s == [] then [x]
    else if x == s[0] then s
    else if Less(x, s[0]) then [x] + s
    else [s[0]] + Insert(s[1..], x)
  }

  lemma {:induction false} LessAsymmetric(a: string, b: string)
    requires Less(a, b)
    ensures !Less(b, a) && a != b
  {
    if a == "" || a[0] != b[0] {
    } else {
      LessAsymmetric(a[1..], b[1..]);
    }
  }

  lemma {:induction false} LessTotal(a: string, b: string)
    requires a != b && !Less(a, b)
    ensures Less(b, a)
  {
    if a == "" || b == "" || a[0] != b[0] {
    } else {
      assert a == [a[0]] + a[1..] && b == [b[0]] + b[1..];
      LessTotal(a[1..], b[1..]);
    }
  }

  lemma {:induction false} LessTransitive(a: string, b: string, c: string)
    requires Less(a, b) && Less(b, c)
    ensures Less(a, c)
  {
    if a == "" || !(a[0] == b[0] == c[0]) {
    } else {
      LessTransitive(a[1..], b[1..], c[1..]);
    }
  }

  /** A directory's string is a proper prefix of its descendants' strings, so it sorts before them. */
  lemma {:induction false} AncestorSortsFirst(a: string, p: string)
    requires Under(a, p)
    ensures Less(a, p)
  {
    if a == "" {
    } else {
      assert p[..|a|][0] == p[0];
      assert a[1..] == p[1..][..|a| - 1];
      AncestorSortsFirst(a[1..], p[1..]);
    }
  }

  /** A common base does not change the order: full and relative paths sort alike. */
  lemma {:induction false} LessJoin(base: string, a: string, b: string)
    ensures Less(Join(base, a), Join(base, b)) <==> Less(a, b)
  {
    var va, vb := Join(base, a), Join(base, b);
    if base == "" {
      assert va[1..] == a && vb[1..] == b;
    } else {
      assert va[1..] == Join(base[1..], a) && vb[1..] == Join(base[1..], b);
      LessJoin(base[1..], a, b);
    }
  }

  lemma {:induction false} InsertKeepsSorted(s: seq<string>, x: string)
    requires Sorted(s)
    ensures Sorted(Insert(s, x))
    ensures forall y :: y in Insert(s, x) <==> y == x || y in s
  {
    if s == [] {
    } else {
      var rest := s[1..];
      assert s == [s[0]] + rest;
      assert forall y :: y in s <==> y == s[0] || y in rest;
      if x != s[0] && Less(x, s[0]) {
        forall j | 0 <= j < |s| ensures Less(x, s[j]) {
          if j > 0 { LessTransitive(x, s[0], s[j]); }
        }
      } else if x != s[0] {
        InsertKeepsSorted(rest, x);
        LessTotal(x, s[0]);
        var r := Insert(rest, x);
        forall j | 0 <= j < |r| ensures Less(s[0], r[j]) {
          assert r[j] in r;
          if r[j] != x {
            var k :| 0 <= k < |rest| && rest[k] == r[j];
            assert s[k + 1] == r[j];
          }
        }
      }
    }
  }

  lemma SortedDistinct(s: seq<string>, i: nat, j: nat)
    requires Sorted(s) && i < |s| && j < |s| && s[i] == s[j]
    ensures i == j
  {
    if i < j { LessAsymmetric(s[i], s[j]); } else if j < i { LessAsymmetric(s[j], s[i]); }
  }

  /** Erasing one position keeps the order and removes exactly that key. */
  lemma ErasePosition(s: seq<string>, i: nat)
    requires Sorted(s) && i < |s|
    ensures Sorted(s[..i] + s[i + 1..])
    ensures forall y :: y in s[..i] + s[i + 1..] <==> y in s && y != s[i]
  {
    var r := s[..i] + s[i + 1..];
    forall y ensures y in r <==> y in s && y != s[i] {
      if y in r {
        var k :| 0 <= k < |r| && r[k] == y;
        if y == s[i] { SortedDistinct(s, i, if k < i then k else k + 1); }
      }
      if y in s && y != s[i] {
        var k :| 0 <= k < |s| && s[k] == y;
        assert r[if k < i then k else k - 1] == y;
      }
    }
  }
}
