/**
 * The shuttle list shared by the two Inspect screens (app/inspect.jsx and
 * mobileapp/app/inspect.jsx): a fetched list is sorted in place by numeric
 * id, largest first, and a successful delete filters out the deleted id.
 */
module ShuttleList {
  import opened Common

  /** A row of `/shuttles`: its numeric id and what the list shows of it. */
  datatype Shuttle = Shuttle(id: int, shuttleDriver: string, shuttlePlatNumber: string, route: string)

  /** Largest id first: no shuttle comes before one with a larger id. */
  predicate SortedByIdDescending(s: seq<Shuttle>)
  {
    forall k, l :: 0 <= k < l < |s| ==> s[k].id >= s[l].id
  }

  /**
   * `data.sort((a, b) => parseInt(b.id) - parseInt(a.id))`: the array is
   * rearranged in place, largest id first, and keeps exactly the shuttles it
   * had. The sort is written out as an insertion sort by adjacent swaps.
   */
  method SortByIdDescending(a: array<Shuttle>)
    modifies a
    ensures SortedByIdDescending(a[..])
    ensures multiset(a[..]) == multiset(old(a[..]))
  {
    var i := 0;
    while i < a.Length
      invariant 0 <= i <= a.Length
      invariant SortedByIdDescending(a[..i])
      invariant multiset(a[..]) == multiset(old(a[..]))
    {
      InsertAt(a, i);
      i := i + 1;
    }
    assert a[..i] == a[..];
  }

  /** Moves `a[i]` left past every smaller id, so that `a[..i + 1]` is sorted when `a[..i]` was. */
  method InsertAt(a: array<Shuttle>, i: nat)
    requires i < a.Length
    requires SortedByIdDescending(a[..i])
    modifies a
    ensures SortedByIdDescending(a[..i + 1])
    ensures multiset(a[..]) == multiset(old(a[..]))
  {
    var j := i;
    while j > 0 && a[j - 1].id < a[j].id
      invariant 0 <= j <= i
      invariant forall k, l :: 0 <= k < l <= i && k != j && l != j ==> a[k].id >= a[l].id
      invariant forall l :: j < l <= i ==> a[l].id < a[j].id
      invariant multiset(a[..]) == multiset(old(a[..]))
    {
      SwapWithPrevious(a, j);
      j := j - 1;
    }
  }

  /** Exchanges `a[j - 1]` and `a[j]`. */
  method SwapWithPrevious(a: array<Shuttle>, j: nat)
    requires 0 < j < a.Length
    modifies a
    ensures a[..] == old(a[..])[j - 1 := old(a[j])][j := old(a[j - 1])]
    ensures multiset(a[..]) == multiset(old(a[..]))
  {
    a[j - 1], a[j] := a[j], a[j - 1];
  }

  /** `shuttleList.filter((item) => item.id !== id)`: every shuttle with another id, in order. */
  function RemoveId(list: seq<Shuttle>, id: int): (r: seq<Shuttle>)
    ensures forall i :: 0 <= i < |r| ==> r[i].id != id && r[i] in list
    ensures forall i :: 0 <= i < |list| && list[i].id != id ==> list[i] in r
    ensures IsSubsequence(r, list)
  {
    Filter(list, (item: Shuttle) => item.id != id)
  }

  /** Deleting an id no shuttle has leaves the list as it is. */
  lemma RemoveAbsentId(list: seq<Shuttle>, id: int)
    requires forall i :: 0 <= i < |list| ==> list[i].id != id
    ensures RemoveId(list, id) == list
  {
    FilterAll(list, (item: Shuttle) => item.id != id);
  }

  /** Deleting an id removes exactly the shuttles with that id: their number and nothing more. */
  lemma {:induction false} RemoveIdCount(list: seq<Shuttle>, id: int)
    ensures |RemoveId(list, id)| == |list| - |Filter(list, (item: Shuttle) => item.id == id)|
    decreases |list|
  {
    if list != [] {
      RemoveIdCount(list[1..], id);
    }
  }

  /** The tail of a sorted list is sorted. */
  lemma SortedTail(list: seq<Shuttle>)
    requires list != [] && SortedByIdDescending(list)
    ensures SortedByIdDescending(list[1..])
  {
    var rest := list[1..];
    forall k, l | 0 <= k < l < |rest| ensures rest[k].id >= rest[l].id {
      assert rest[k] == list[k + 1] && rest[l] == list[l + 1];
    }
  }

  /** A shuttle whose id is at least every id of a sorted list can go in front of it. */
  lemma SortedCons(x: Shuttle, r: seq<Shuttle>)
    requires SortedByIdDescending(r)
    requires forall l :: 0 <= l < |r| ==> x.id >= r[l].id
    ensures SortedByIdDescending([x] + r)
  {
    var xr := [x] + r;
    forall k, l | 0 <= k < l < |xr| ensures xr[k].id >= xr[l].id {
      assert xr[l] == r[l - 1];
      if k > 0 {
        assert xr[k] == r[k - 1];
      }
    }
  }

  /** The delete on a non-empty list: the head stays exactly when its id is another one. */
  lemma RemoveIdCons(list: seq<Shuttle>, id: int)
    requires list != []
    ensures RemoveId(list, id) == if list[0].id != id then [list[0]] + RemoveId(list[1..], id) else RemoveId(list[1..], id)
  {
  }

  /** A list that was sorted stays sorted after a delete. */
  lemma {:induction false} RemoveIdKeepsOrder(list: seq<Shuttle>, id: int)
    requires SortedByIdDescending(list)
    ensures SortedByIdDescending(RemoveId(list, id))
    decreases |list|
  {
    if list != [] {
      var rest := list[1..];
      SortedTail(list);
      RemoveIdKeepsOrder(rest, id);
      var r := RemoveId(rest, id);
      forall l | 0 <= l < |r| ensures list[0].id >= r[l].id {
        var m :| 0 <= m < |rest| && rest[m] == r[l];
        assert rest[m] == list[m + 1];
      }
      RemoveIdCons(list, id);
      if list[0].id != id {
        SortedCons(list[0], r);
      }
    }
  }
}
