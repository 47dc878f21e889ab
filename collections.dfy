/** A Mongo collection as the routes see it: records by id, plus the order in
    which they were inserted (the order an unsorted `find()` returns). */
module Collections {
  import opened Js
  import opened Seqs

  /** No id occurs twice. */
  predicate Distinct(ids: seq<Id>)
  {
    forall i, j :: 0 <= i < j < |ids| ==> ids[i] != ids[j]
  }

  /** The records named by `ids`, in that order. */
  function InOrder<T>(ids: seq<Id>, m: map<Id, T>): (r: seq<T>)
    requires forall i :: 0 <= i < |ids| ==> ids[i] in m
    ensures |r| == |ids|
    ensures forall i :: 0 <= i < |ids| ==> r[i] == m[ids[i]]
  {
    if ids == [] then [] else [m[ids[0]]] + InOrder(ids[1..], m)
  }

  /** `ids` without `x`. */
  function Without(ids: seq<Id>, x: Id): (r: seq<Id>)
    ensures forall y :: y in r <==> y in ids && y != x
  {
    if ids == [] then []
    else if ids[0] == x then Without(ids[1..], x)
    else [ids[0]] + Without(ids[1..], x)
  }

  class Collection<T> {
    var records: map<Id, T>
    var order: seq<Id>

    /** `order` lists every stored id exactly once. */
    ghost predicate Valid()
      reads this
    {
      && (forall i :: 0 <= i < |order| ==> order[i] in records)
      && (forall id :: id in records ==> id in order)
      && Distinct(order)
    }

    constructor ()
      ensures Valid() && records == map[] && order == []
    {
      records := map[];
      order := [];
    }

    /** Every stored record, in natural order. */
    function All(): (r: seq<T>)
      reads this
      requires Valid()
      ensures |r| == |order| == |records|
      ensures forall i :: 0 <= i < |order| ==> r[i] == records[order[i]]
    {
      DistinctCover(order, records.Keys);
      InOrder(order, records)
    }

    /** `All()` holds every stored record and nothing else. */
    lemma AllIsTheRecords()
      requires Valid()
      ensures forall i :: 0 <= i < |All()| ==> All()[i] in records.Values
      ensures forall id :: id in records ==> records[id] in All()
    {
      var all := All();
      forall i | 0 <= i < |all| ensures all[i] in records.Values {
        assert all[i] == records[order[i]];
      }
      forall id | id in records ensures records[id] in all {
        var i :| 0 <= i < |order| && order[i] == id;
        assert all[i] == records[id];
      }
    }

    /** Filtering the stored records keeps one record per id whose record
        passes `p`. */
    lemma FilterCount(p: T -> bool)
      requires Valid()
      ensures |Filter(All(), p)| == |PassingIds(order, records, p)|
      ensures forall id :: id in records && p(records[id]) ==> id in PassingIds(order, records, p)
    {
      FilterCountsIds(order, records, p);
    }

    /** `save()` of a new document. */
    method Insert(id: Id, x: T)
      requires Valid() && id !in records
      modifies this
      ensures Valid()
      ensures records == old(records)[id := x] && order == old(order) + [id]
    {
      records := records[id := x];
      order := order + [id];
    }

    /** The document with this id takes its new value. */
    method Replace(id: Id, x: T)
      requires Valid() && id in records
      modifies this
      ensures Valid()
      ensures records == old(records)[id := x] && order == old(order)
    {
      records := records[id := x];
    }

    /** `findByIdAndDelete` / `remove()`. */
    method Remove(id: Id)
      requires Valid()
      modifies this
      ensures Valid()
      ensures records == old(records) - {id} && order == Without(old(order), id)
    {
      WithoutKeepsDistinct(order, id);
      records := records - {id};
      order := Without(order, id);
      assert forall i :: 0 <= i < |order| ==> order[i] in order;
    }
  }

  lemma {:induction false} WithoutKeepsDistinct(ids: seq<Id>, x: Id)
    requires Distinct(ids)
    ensures Distinct(Without(ids, x))
  {
    if ids != [] {
      assert Distinct(ids[1..]);
      WithoutKeepsDistinct(ids[1..], x);
      assert ids[0] !in ids[1..];
    }
  }

  /** The ids among `ids` whose record passes `p`, in order. */
  function PassingIds<T>(ids: seq<Id>, m: map<Id, T>, p: T -> bool): (r: seq<Id>)
    requires forall i :: 0 <= i < |ids| ==> ids[i] in m
    ensures forall i :: 0 <= i < |r| ==> r[i] in ids && r[i] in m && p(m[r[i]])
    ensures forall x :: x in ids && x in m && p(m[x]) ==> x in r
    ensures Distinct(ids) ==> Distinct(r)
  {
    if ids == [] then []
    else
      var t := ids[1..];
      assert ids == [ids[0]] + t;
      var rest := PassingIds(t, m, p);
      DistinctTail(ids);
      if p(m[ids[0]]) then [ids[0]] + rest else rest
  }

  /** The first id of a duplicate-free list does not recur in the rest. */
  lemma DistinctTail(ids: seq<Id>)
    requires ids != []
    ensures Distinct(ids) ==> Distinct(ids[1..]) && ids[0] !in ids[1..]
  {
    if Distinct(ids) {
      forall k | 0 <= k < |ids[1..]| ensures ids[1..][k] != ids[0] {
        assert ids[1..][k] == ids[k + 1];
      }
    }
  }

  /** Filtering the records of an id list keeps one record per id whose
      record passes. */
  lemma {:induction false} FilterCountsIds<T>(ids: seq<Id>, m: map<Id, T>, p: T -> bool)
    requires forall i :: 0 <= i < |ids| ==> ids[i] in m
    ensures |Filter(InOrder(ids, m), p)| == |PassingIds(ids, m, p)|
  {
    if ids != [] {
      var all := InOrder(ids, m);
      assert all == [m[ids[0]]] + InOrder(ids[1..], m);
      assert all[1..] == InOrder(ids[1..], m);
      FilterCountsIds(ids[1..], m, p);
    }
  }

  /** A duplicate-free listing of a set has the set's size. */
  lemma {:induction false} DistinctCover(ids: seq<Id>, keys: set<Id>)
    requires forall i :: 0 <= i < |ids| ==> ids[i] in keys
    requires forall k :: k in keys ==> k in ids
    requires Distinct(ids)
    ensures |ids| == |keys|
  {
    if ids != [] {
      var rest := ids[1..];
      assert forall k :: k in keys - {ids[0]} ==> k in rest by {
        forall k | k in keys - {ids[0]} ensures k in rest {
          var i :| 0 <= i < |ids| && ids[i] == k;
          assert i != 0;
          assert rest[i - 1] == k;
        }
      }
      DistinctCover(rest, keys - {ids[0]});
    }
  }
}
