/** `.sort({ date: -1 })`, `.skip((page - 1) * limit).limit(limit)` and
    `Math.ceil(count / limit)`: the ordering and paging that the list routes
    apply to the records a query selects. */
module Ordering {
  import opened Js
  import opened Seqs

  /** What `.sort({ date: -1 })` compares, in Mongo's order across types:
      an empty array, then null or missing, then NaN, then the numbers, then
      strings, then an array (as an element of the array being sorted), then
      booleans, then Dates. */
  datatype SortKey =
    | EmptyList
    | Missing
    | NaNKey
    | NumKey(x: real)
    | TextKey(s: string)
    | ListKey
    | BoolKey(b: bool)
    | At(t: int)

  /** The place of a key's type in that order. */
  function Rank(k: SortKey): nat
  {
    match k
    case EmptyList => 0
    case Missing => 1
    case NaNKey => 2
    case NumKey(_) => 3
    case TextKey(_) => 4
    case ListKey => 5
    case BoolKey(_) => 6
    case At(_) => 7
  }

  /** Strings compare by code point, and a prefix comes first: the order of
      their UTF-8 bytes, which is Mongo's default binary comparison. */
  predicate TextLe(a: string, b: string)
  {
    |a| == 0 || (|b| > 0 && (a[0] < b[0] || (a[0] == b[0] && TextLe(a[1..], b[1..]))))
  }

  /** `a` sorts no later than `b` in ascending order. */
  predicate KeyLe(a: SortKey, b: SortKey)
  {
    Rank(a) < Rank(b) ||
    (Rank(a) == Rank(b) &&
      match a
      case NumKey(x) => x <= b.x
      case TextKey(s) => TextLe(s, b.s)
      case BoolKey(u) => !u || b.b
      case At(t) => t <= b.t
      case _ => true)
  }

  lemma {:induction false} TextLeRefl(a: string)
    ensures TextLe(a, a)
  {
    if |a| > 0 {
      TextLeRefl(a[1..]);
    }
  }

  lemma KeyLeRefl(a: SortKey)
    ensures KeyLe(a, a)
  {
    if a.TextKey? {
      TextLeRefl(a.s);
    }
  }

  lemma {:induction false} TextLeTotal(a: string, b: string)
    ensures TextLe(a, b) || TextLe(b, a)
  {
    if |a| > 0 && |b| > 0 && a[0] == b[0] {
      TextLeTotal(a[1..], b[1..]);
    }
  }

  lemma {:induction false} TextLeTrans(a: string, b: string, c: string)
    requires TextLe(a, b) && TextLe(b, c)
    ensures TextLe(a, c)
  {
    if |a| > 0 && a[0] == b[0] && b[0] == c[0] {
      TextLeTrans(a[1..], b[1..], c[1..]);
    }
  }

  /** Any two keys are ordered one way or the other. */
  lemma KeyLeTotal(a: SortKey, b: SortKey)
    ensures KeyLe(a, b) || KeyLe(b, a)
  {
    if a.TextKey? && b.TextKey? {
      TextLeTotal(a.s, b.s);
    }
  }

  lemma KeyLeTrans(a: SortKey, b: SortKey, c: SortKey)
    requires KeyLe(a, b) && KeyLe(b, c)
    ensures KeyLe(a, c)
  {
    if a.TextKey? && b.TextKey? && c.TextKey? {
      TextLeTrans(a.s, b.s, c.s);
    }
  }

  /** The key of a value that is not an array, or of an array inside one. */
  function ScalarKey(v: Value): SortKey
  {
    match v
    case Null => Missing
    case NaN => NaNKey
    case Num(x) => NumKey(x)
    case Str(s) => TextKey(s)
    case Arr(_) => ListKey
    case Bool(b) => BoolKey(b)
    case Time(t) => At(t)
  }

  /** A descending sort compares an array by its largest element. */
  function Largest(items: seq<Value>): (r: SortKey)
    requires items != []
    ensures forall i :: 0 <= i < |items| ==> KeyLe(ScalarKey(items[i]), r)
    ensures exists i :: 0 <= i < |items| && r == ScalarKey(items[i])
  {
    if |items| == 1 then KeyLeRefl(ScalarKey(items[0])); ScalarKey(items[0])
    else
      var rest := Largest(items[1..]);
      var head := ScalarKey(items[0]);
      KeyLeTotal(head, rest);
      KeyLeRefl(head);
      forall i | 1 <= i < |items| ensures KeyLe(ScalarKey(items[i]), if KeyLe(head, rest) then rest else head) {
        assert items[i] == items[1..][i - 1];
        if !KeyLe(head, rest) {
          KeyLeTrans(ScalarKey(items[i]), rest, head);
        }
      }
      var i :| 0 <= i < |items[1..]| && rest == ScalarKey(items[1..][i]);
      assert items[1..][i] == items[i + 1];
      if KeyLe(head, rest) then rest else head
  }

  /** The key of `.sort({ date: -1 })` on a field's value. */
  function ValueKey(v: Value): SortKey
  {
    match v
    case Arr(items) => if items == [] then EmptyList else Largest(items)
    case _ => ScalarKey(v)
  }

  /** The key of `.sort({ date: -1 })` on a stored record. */
  function DateKey(d: Doc): SortKey
  {
    ValueKey(Get(d, "date"))
  }

  /** Newest first: no record is preceded by an older one. */
  ghost predicate SortedDesc<T>(s: seq<T>, key: T -> SortKey)
  {
    forall i, j :: 0 <= i < j < |s| ==> KeyLe(key(s[j]), key(s[i]))
  }

  /** Puts `x` in front of the first record that is not newer than it. */
  function Insert<T>(x: T, s: seq<T>, key: T -> SortKey): (r: seq<T>)
    requires SortedDesc(s, key)
    ensures SortedDesc(r, key)
    ensures multiset(r) == multiset(s) + multiset{x}
    ensures forall i :: 0 <= i < |r| ==> r[i] == x || r[i] in s
  {
    if s == [] then [x]
    else if KeyLe(key(s[0]), key(x)) then
      forall i | 0 <= i < |s| ensures KeyLe(key(s[i]), key(x)) {
        if i > 0 {
          KeyLeTrans(key(s[i]), key(s[0]), key(x));
        }
      }
      ConsSorted(x, s, key);
      [x] + s
    else
      var rest := Insert(x, s[1..], key);
      assert s == [s[0]] + s[1..];
      KeyLeTotal(key(s[0]), key(x));
      forall i | 0 <= i < |rest| ensures KeyLe(key(rest[i]), key(s[0])) {
        if rest[i] != x {
          var j :| 0 <= j < |s[1..]| && s[1..][j] == rest[i];
          assert s[j + 1] == rest[i];
        }
      }
      ConsSorted(s[0], rest, key);
      [s[0]] + rest
  }

  /** A record no older than any of a newest-first sequence can go in front. */
  lemma ConsSorted<T>(y: T, s: seq<T>, key: T -> SortKey)
    requires SortedDesc(s, key)
    requires forall i :: 0 <= i < |s| ==> KeyLe(key(s[i]), key(y))
    ensures SortedDesc([y] + s, key)
  {
    var r := [y] + s;
    forall i, j | 0 <= i < j < |r| ensures KeyLe(key(r[j]), key(r[i])) {
      assert r[j] == s[j - 1];
      if i > 0 {
        assert r[i] == s[i - 1];
      }
    }
  }

  /** The date-descending order of `s` (insertion sort; records with equal
      keys keep their order). */
  function SortByDateDesc<T>(s: seq<T>, key: T -> SortKey): (r: seq<T>)
    ensures SortedDesc(r, key)
    ensures multiset(r) == multiset(s)
  {
    if s == [] then []
    else
      assert s == [s[0]] + s[1..];
      Insert(s[0], SortByDateDesc(s[1..], key), key)
  }

  /** `Math.ceil(n / d)` on whole numbers: the fewest pages of `d` that hold `n`. */
  function CeilDiv(n: nat, d: nat): (r: nat)
    requires d >= 1
    ensures r * d >= n
    ensures r == 0 || (r - 1) * d < n
  {
    var q := (n + d - 1) / d;
    assert (n + d - 1) == d * q + (n + d - 1) % d;
    q
  }

  /** The records page `page` shows when each page holds `limit` of them:
      the first `(page - 1) * limit` are skipped and at most `limit` kept. */
  function Paginate<T>(s: seq<T>, page: nat, limit: nat): (r: seq<T>)
    requires page >= 1
    ensures |r| <= limit
    ensures (page - 1) * limit >= |s| ==> r == []
    ensures (page - 1) * limit < |s| ==> |r| == Min(limit, |s| - (page - 1) * limit)
    ensures forall i :: 0 <= i < |r| ==> (page - 1) * limit + i < |s| && r[i] == s[(page - 1) * limit + i]
  {
    var from: nat := (page - 1) * limit;
    if from >= |s| then []
    else
      var r := s[from..Min(from + limit, |s|)];
      assert forall i :: 0 <= i < |r| ==> r[i] == s[from + i];
      r
  }

  /** A page of a newest-first listing is newest first, and holds only
      records of the listing. */
  lemma PageOfSorted<T>(s: seq<T>, page: nat, limit: nat, key: T -> SortKey)
    requires page >= 1 && SortedDesc(s, key)
    ensures SortedDesc(Paginate(s, page, limit), key)
    ensures forall i :: 0 <= i < |Paginate(s, page, limit)| ==> Paginate(s, page, limit)[i] in s
  {
    var r := Paginate(s, page, limit);
    var from := (page - 1) * limit;
    forall i, j | 0 <= i < j < |r| ensures KeyLe(key(r[j]), key(r[i])) {
      assert r[i] == s[from + i] && r[j] == s[from + j];
    }
  }

  /** Pages 1 to k, one after the other. */
  function Pages<T>(s: seq<T>, limit: nat, k: nat): seq<T>
  {
    if k == 0 then [] else Pages(s, limit, k - 1) + Paginate(s, k, limit)
  }

  /** Mapping a partial function over pages 1 to j + 1 is mapping it over
      pages 1 to j and over page j + 1, and succeeds when both do. */
  lemma MapAllPagesStep<T, U>(s: seq<T>, limit: nat, j: nat, f: T -> Option<U>)
    ensures var before := MapAll(Pages(s, limit, j), f);
      var page := MapAll(Paginate(s, j + 1, limit), f);
      MapAll(Pages(s, limit, j + 1), f)
        == if before.Some? && page.Some? then Some(before.value + page.value) else None
  {
    MapAllConcat(Pages(s, limit, j), Paginate(s, j + 1, limit), f);
  }

  /** Pages 1 to k together are the first k * limit records. */
  lemma {:induction false} PagesArePrefix<T>(s: seq<T>, limit: nat, k: nat)
    ensures Pages(s, limit, k) == s[..Min(k * limit, |s|)]
  {
    if k > 0 {
      var j: nat := k - 1;
      PagesArePrefix(s, limit, j);
      assert k * limit == j * limit + limit;
      PageIsSlice(s, j * limit, limit, k);
      var a := Min(j * limit, |s|);
      var b := Min(j * limit + limit, |s|);
      assert s[..a] + s[a..b] == s[..b];
    }
  }

  /** The page that starts after `from` records is the slice from there. */
  lemma PageIsSlice<T>(s: seq<T>, from: nat, limit: nat, page: nat)
    requires page >= 1 && from == (page - 1) * limit
    ensures Paginate(s, page, limit) == s[Min(from, |s|)..Min(from + limit, |s|)]
  {
  }

  /** Fetching pages 1 to `Math.ceil(|s| / limit)` yields every record once,
      in order. */
  lemma AllPagesCoverTheListing<T>(s: seq<T>, limit: nat)
    requires limit >= 1
    ensures Pages(s, limit, CeilDiv(|s|, limit)) == s
  {
    PagesArePrefix(s, limit, CeilDiv(|s|, limit));
  }

  /** A page after the last one is empty. */
  lemma PagePastTheEndIsEmpty<T>(s: seq<T>, page: nat, limit: nat)
    requires limit >= 1 && page > CeilDiv(|s|, limit)
    ensures Paginate(s, page, limit) == []
  {
    var c := CeilDiv(|s|, limit);
    MulMonotone(c, page - 1, limit);
  }

  /** Every page before the last is full. */
  lemma PagesBeforeTheLastAreFull<T>(s: seq<T>, page: nat, limit: nat)
    requires limit >= 1 && 1 <= page < CeilDiv(|s|, limit)
    ensures |Paginate(s, page, limit)| == limit
  {
    var c := CeilDiv(|s|, limit);
    MulMonotone(page, c - 1, limit);
  }

  lemma {:induction false} MulMonotone(a: nat, b: nat, c: nat)
    requires a <= b
    ensures a * c <= b * c
  {
    if a < b {
      MulMonotone(a, b - 1, c);
      assert (b - 1) * c + c == b * c;
    }
  }
}
