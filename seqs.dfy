/** Sequence helpers shared by the routes: JavaScript's `Array.prototype.filter`
    and the small arithmetic the pagination uses. */
module Seqs {
  import opened Js

  function Min(a: int, b: int): (r: int)
    ensures r <= a && r <= b && (r == a || r == b)
  {
    if a <= b then a else b
  }

  /** `s.filter(p)`: the elements of `s` that satisfy `p`, in their order. */
  function Filter<T>(s: seq<T>, p: T -> bool): (r: seq<T>)
    ensures |r| <= |s|
    ensures forall i :: 0 <= i < |r| ==> r[i] in s && p(r[i])
    ensures forall i :: 0 <= i < |s| && p(s[i]) ==> s[i] in r
    ensures multiset(r) <= multiset(s)
  {
    if s == [] then []
    else
      assert s == [s[0]] + s[1..];
      (if p(s[0]) then [s[0]] else []) + Filter(s[1..], p)
  }

  /** Filtering distributes over concatenation: the elements that are kept
      keep their relative order. */
  lemma {:induction false} FilterConcat<T>(a: seq<T>, b: seq<T>, p: T -> bool)
    ensures Filter(a + b, p) == Filter(a, p) + Filter(b, p)
  {
    if a != [] {
      var c := a + b;
      assert c[0] == a[0] && c[1..] == a[1..] + b;
      var head := if p(a[0]) then [a[0]] else [];
      assert Filter(c, p) == head + Filter(c[1..], p);
      assert Filter(a, p) == head + Filter(a[1..], p);
      FilterConcat(a[1..], b, p);
      assert head + (Filter(a[1..], p) + Filter(b, p)) == (head + Filter(a[1..], p)) + Filter(b, p);
    } else {
      assert a + b == b;
    }
  }

  /** A filter that every element passes changes nothing. */
  lemma {:induction false} FilterKeepsAll<T>(s: seq<T>, p: T -> bool)
    requires forall i :: 0 <= i < |s| ==> p(s[i])
    ensures Filter(s, p) == s
  {
    if s != [] {
      FilterKeepsAll(s[1..], p);
    }
  }

  /** `s.map(f)`. */
  function MapSeq<T, U>(s: seq<T>, f: T -> U): (r: seq<U>)
    ensures |r| == |s|
    ensures forall i :: 0 <= i < |s| ==> r[i] == f(s[i])
  {
    seq(|s|, i requires 0 <= i < |s| => f(s[i]))
  }

  /** `s.map(f)` for an `f` that may throw (None): it throws exactly when
      `f` throws on some element, and otherwise maps each position. */
  function MapAll<T, U>(s: seq<T>, f: T -> Option<U>): (r: Option<seq<U>>)
    ensures r.Some? <==> forall i :: 0 <= i < |s| ==> f(s[i]).Some?
    ensures r.Some? ==> |r.value| == |s| && forall i :: 0 <= i < |s| ==> Some(r.value[i]) == f(s[i])
  {
    if s == [] then Some([])
    else
      match (f(s[0]), MapAll(s[1..], f))
      case (Some(x), Some(rest)) => Some([x] + rest)
      case _ => None
  }

  /** Mapping a concatenation: it throws when either part does, and otherwise
      is the two results one after the other. */
  lemma {:induction false} MapAllConcat<T, U>(a: seq<T>, b: seq<T>, f: T -> Option<U>)
    ensures MapAll(a + b, f) ==
      if MapAll(a, f).Some? && MapAll(b, f).Some? then Some(MapAll(a, f).value + MapAll(b, f).value)
      else None
  {
    var ab := MapAll(a + b, f);
    if MapAll(a, f).Some? && MapAll(b, f).Some? {
      var x, y := MapAll(a, f).value, MapAll(b, f).value;
      assert forall i :: 0 <= i < |a + b| ==> f((a + b)[i]).Some? by {
        forall i | 0 <= i < |a + b| ensures f((a + b)[i]).Some? {
          if i < |a| { assert (a + b)[i] == a[i]; } else { assert (a + b)[i] == b[i - |a|]; }
        }
      }
      forall i | 0 <= i < |a + b| ensures ab.value[i] == (x + y)[i] {
        if i < |a| { assert (a + b)[i] == a[i]; } else { assert (a + b)[i] == b[i - |a|]; }
      }
      assert ab.value == x + y;
    } else if MapAll(a, f).None? {
      var i :| 0 <= i < |a| && !f(a[i]).Some?;
      assert (a + b)[i] == a[i];
    } else {
      var i :| 0 <= i < |b| && !f(b[i]).Some?;
      assert (a + b)[|a| + i] == b[i];
    }
  }
}
