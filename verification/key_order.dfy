/**
 * The order in which the users table enumerates its entries: byte-wise
 * lexicographic order of the 32-byte public keys.
 */
module KeyOrder {
  import opened DataLayout

  /** `a` comes strictly before `b` in lexicographic byte order. */
  predicate Less(a: seq<u8>, b: seq<u8>)
    requires |a| == |b|
    decreases |a|
  {
    |a| > 0 && (a[0] < b[0] || (a[0] == b[0] && Less(a[1..], b[1..])))
  }

  lemma {:induction false} LessIrreflexive(a: seq<u8>)
    ensures !Less(a, a)
    decreases |a|
  {
    if |a| > 0 {
      LessIrreflexive(a[1..]);
    }
  }

  lemma {:induction false} LessTransitive(a: seq<u8>, b: seq<u8>, c: seq<u8>)
    requires |a| == |b| == |c|
    requires Less(a, b) && Less(b, c)
    ensures Less(a, c)
    decreases |a|
  {
    if a[0] == b[0] && b[0] == c[0] {
      LessTransitive(a[1..], b[1..], c[1..]);
    }
  }

  lemma {:induction false} LessTotal(a: seq<u8>, b: seq<u8>)
    requires |a| == |b|
    requires a != b
    ensures Less(a, b) || Less(b, a)
    decreases |a|
  {
    assert |a| > 0;
    if a[0] == b[0] {
      assert a == [a[0]] + a[1..] && b == [b[0]] + b[1..];
      LessTotal(a[1..], b[1..]);
    }
  }

  /** `k` is the least key of `s`. */
  predicate IsMinimum(k: PublicKey, s: set<PublicKey>)
  {
    k in s && forall j :: j in s && j != k ==> Less(k, j)
  }

  /** Every non-empty finite set of keys has a least element. */
  lemma {:induction false} MinimumExists(s: set<PublicKey>)
    requires s != {}
    ensures exists k :: IsMinimum(k, s)
    decreases s
  {
    var x: PublicKey :| x in s;
    if s == {x} {
      assert IsMinimum(x, s);
    } else {
      MinimumExists(s - {x});
      var m: PublicKey :| IsMinimum(m, s - {x});
      if Less(x, m) {
        forall j | j in s && j != x
          ensures Less(x, j)
        {
          if j != m {
            LessTransitive(x, m, j);
          }
        }
        assert IsMinimum(x, s);
      } else {
        LessTotal(x, m);
        assert IsMinimum(m, s);
      }
    }
  }

  /** Keys listed in strictly increasing order (hence without repetition). */
  predicate StrictlyIncreasing(ks: seq<PublicKey>)
  {
    forall i, j :: 0 <= i < j < |ks| ==> Less(ks[i], ks[j])
  }
}
