/**
 * In-memory rows: the Option wrapper used for JavaScript's `undefined` / missing
 * results, and `Keep`, the order-preserving filter that `Array.prototype.filter`
 * performs on the lists the pages hold.
 */
module Rows {

  datatype Option<+T> = None | Some(value: T)

  /** The elements of `s` that satisfy `p`, in their original order. */
  function Keep<T>(s: seq<T>, p: T -> bool): seq<T>
  {
    if s == [] then []
    else (if p(s[0]) then [s[0]] else []) + Keep(s[1..], p)
  }

  /** An element survives the filter exactly when it was there and passes the test. */
  lemma {:induction false} KeepMembership<T>(s: seq<T>, p: T -> bool, x: T)
    ensures x in Keep(s, p) <==> x in s && p(x)
  {
    if s != [] {
      KeepMembership(s[1..], p, x);
      assert s == [s[0]] + s[1..];
    }
  }

  /** `KeepMembership` for every element at once. */
  lemma KeepMembershipAll<T>(s: seq<T>, p: T -> bool)
    ensures forall x :: x in Keep(s, p) <==> x in s && p(x)
  {
    forall x ensures x in Keep(s, p) <==> x in s && p(x) {
      KeepMembership(s, p, x);
    }
  }

  /** Filtering distributes over concatenation: the relative order of survivors is kept. */
  lemma {:induction false} KeepAppend<T>(a: seq<T>, b: seq<T>, p: T -> bool)
    ensures Keep(a + b, p) == Keep(a, p) + Keep(b, p)
  {
    if a == [] {
      assert a + b == b;
    } else {
      var head := if p(a[0]) then [a[0]] else [];
      assert (a + b)[0] == a[0];
      assert (a + b)[1..] == a[1..] + b;
      assert Keep(a + b, p) == head + Keep(a[1..] + b, p);
      KeepAppend(a[1..], b, p);
      assert Keep(a, p) == head + Keep(a[1..], p);
    }
  }

  /** A filter that every element passes changes nothing. */
  lemma {:induction false} KeepAll<T>(s: seq<T>, p: T -> bool)
    requires forall i :: 0 <= i < |s| ==> p(s[i])
    ensures Keep(s, p) == s
  {
    if s != [] {
      KeepAll(s[1..], p);
    }
  }

  /** Filtering never grows a list, and keeps its length exactly when every element passes. */
  lemma {:induction false} KeepShorter<T>(s: seq<T>, p: T -> bool)
    ensures |Keep(s, p)| <= |s|
    ensures |Keep(s, p)| == |s| <==> forall i :: 0 <= i < |s| ==> p(s[i])
  {
    if s != [] {
      KeepShorter(s[1..], p);
      if !p(s[0]) {
        assert !(forall i :: 0 <= i < |s| ==> p(s[i]));
      } else {
        assert (forall i :: 0 <= i < |s| ==> p(s[i])) <==> (forall i :: 0 <= i < |s[1..]| ==> p(s[1..][i])) by {
          if forall i :: 0 <= i < |s[1..]| ==> p(s[1..][i]) {
            forall i | 0 <= i < |s| ensures p(s[i]) {
              if i > 0 { assert s[i] == s[1..][i - 1]; }
            }
          }
        }
      }
    }
  }

  /** Filtering again by a condition that implies the first one only applies the second. */
  lemma {:induction false} KeepKeep<T>(s: seq<T>, p: T -> bool, q: T -> bool)
    requires forall x :: q(x) ==> p(x)
    ensures Keep(Keep(s, p), q) == Keep(s, q)
  {
    if s != [] {
      KeepKeep(s[1..], p, q);
      if p(s[0]) {
        var t := Keep(s, p);
        assert t == [s[0]] + Keep(s[1..], p);
        assert t[0] == s[0] && t[1..] == Keep(s[1..], p);
        assert Keep(t, q) == (if q(s[0]) then [s[0]] else []) + Keep(t[1..], q);
      } else {
        assert !q(s[0]);
        assert Keep(s, p) == Keep(s[1..], p);
      }
    }
  }

  /** A filter that no element passes leaves nothing. */
  lemma {:induction false} KeepNone<T>(s: seq<T>, p: T -> bool)
    requires forall i :: 0 <= i < |s| ==> !p(s[i])
    ensures Keep(s, p) == []
  {
    if s != [] {
      KeepNone(s[1..], p);
    }
  }
}
