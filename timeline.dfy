/**
 * Shared by the Education and Experience sections: the sort key and
 * comparator both sections pass to `Array.prototype.sort`, the in-place sort
 * itself, and the single-expanded-entry toggle.
 */
module Timeline {
  import opened Common

  /** What the comparator looks at: the display order and the start date as a timestamp. */
  datatype Key = Key(order: int, startDate: int)

  /**
   * The comparator of both sections, in the JavaScript sense (a positive
   * answer puts `b` before `a`): `order` ascending, then the later
   * `startDate` first.
   */
  function Compare(a: Key, b: Key): (c: int)
    ensures c < 0 <==> a.order < b.order || (a.order == b.order && a.startDate > b.startDate)
    ensures c == 0 <==> a == b
  {
    if a.order != b.order then a.order - b.order else b.startDate - a.startDate
  }

  /** Every entry comes no later than every entry after it. */
  ghost predicate SortedBy<T>(s: seq<T>, key: T -> Key) {
    forall i, j :: 0 <= i < j < |s| ==> Compare(key(s[i]), key(s[j])) <= 0
  }

  /** Exchanges two entries of `a`, keeping its elements. */
  method Swap<T>(a: array<T>, i: int, j: int)
    requires 0 <= i < j < a.Length
    modifies a
    ensures a[i] == old(a[j]) && a[j] == old(a[i])
    ensures forall k :: 0 <= k < a.Length && k != i && k != j ==> a[k] == old(a[k])
    ensures multiset(a[..]) == multiset(old(a[..]))
  {
    a[i], a[j] := a[j], a[i];
  }

  /**
   * While entry `j` moves towards the front of `s[..i + 1]`: the other
   * entries are in order, and entry `j` comes no later than those after it.
   */
  ghost predicate Inserting<T>(s: seq<T>, i: int, j: int, key: T -> Key)
    requires 0 <= j <= i < |s|
  {
    && (forall p, q :: 0 <= p < q <= i && p != j && q != j ==> Compare(key(s[p]), key(s[q])) <= 0)
    && (forall q :: j < q <= i ==> Compare(key(s[j]), key(s[q])) <= 0)
  }

  /** Swapping entry `j` with a left neighbour that should come after it keeps `Inserting`, one place further left. */
  lemma InsertingStep<T>(s: seq<T>, i: int, j: int, key: T -> Key)
    requires 0 < j <= i < |s|
    requires Inserting(s, i, j, key)
    requires Compare(key(s[j - 1]), key(s[j])) > 0
    ensures Inserting(s[j - 1 := s[j]][j := s[j - 1]], i, j - 1, key)
  {
  }

  /** Once entry `j` is at the front or its left neighbour comes no later, `s[..i + 1]` is sorted. */
  lemma InsertingDone<T>(s: seq<T>, i: int, j: int, key: T -> Key)
    requires 0 <= j <= i < |s|
    requires Inserting(s, i, j, key)
    requires j == 0 || Compare(key(s[j - 1]), key(s[j])) <= 0
    ensures SortedBy(s[..i + 1], key)
  {
    forall p, q | 0 <= p < q <= i
      ensures Compare(key(s[p]), key(s[q])) <= 0
    {
      if q == j && p < j - 1 {
        assert Compare(key(s[p]), key(s[j - 1])) <= 0;
      }
    }
  }

  /**
   * One insertion step: with `a[..i]` sorted, moves `a[i]` towards the front
   * while the comparator puts it before its left neighbour.
   */
  method InsertAt<T>(a: array<T>, i: int, key: T -> Key)
    requires 0 <= i < a.Length
    requires SortedBy(a[..i], key)
    modifies a
    ensures SortedBy(a[..i + 1], key)
    ensures forall k :: i < k < a.Length ==> a[k] == old(a[k])
    ensures multiset(a[..]) == multiset(old(a[..]))
  {
    var j := i;
    assert Inserting(a[..], i, j, key);
    while 0 < j && Compare(key(a[j - 1]), key(a[j])) > 0
      invariant 0 <= j <= i
      invariant Inserting(a[..], i, j, key)
      invariant forall k :: i < k < a.Length ==> a[k] == old(a[k])
      invariant multiset(a[..]) == multiset(old(a[..]))
    {
      ghost var before := a[..];
      InsertingStep(before, i, j, key);
      Swap(a, j - 1, j);
      assert a[..] == before[j - 1 := before[j]][j := before[j - 1]];
      j := j - 1;
    }
    InsertingDone(a[..], i, j, key);
  }

  /**
   * Sorts `a` in place by insertion (a stable sort), as
   * `Array.prototype.sort` does with a consistent comparator.
   */
  method SortInPlace<T>(a: array<T>, key: T -> Key)
    modifies a
    ensures SortedBy(a[..], key)
    ensures multiset(a[..]) == multiset(old(a[..]))
  {
    var i := 0;
    while i < a.Length
      invariant 0 <= i <= a.Length
      invariant SortedBy(a[..i], key)
      invariant multiset(a[..]) == multiset(old(a[..]))
    {
      InsertAt(a, i, key);
      i := i + 1;
    }
    assert a[..a.Length] == a[..];
  }

  /**
   * `[...data].sort(cmp)`: the fetched list is copied into a fresh array and
   * the copy is sorted; `data` itself, a value, keeps its order.
   */
  method SortedCopy<T>(data: seq<T>, key: T -> Key) returns (sorted: seq<T>)
    ensures SortedBy(sorted, key)
    ensures multiset(sorted) == multiset(data)
  {
    var a := new T[|data|](i requires 0 <= i < |data| => data[i]);
    assert a[..] == data;
    SortInPlace(a, key);
    sorted := a[..];
  }

  /** Entry `index` shows its details exactly when it is the expanded one. */
  predicate IsExpanded(expanded: Option<int>, index: int) {
    expanded == Some(index)
  }

  /**
   * `expandedIndex === index ? null : index`: clicking an entry collapses it
   * when it is open and otherwise opens it, closing whichever was open.
   */
  function NextExpanded(expanded: Option<int>, index: int): (r: Option<int>)
    ensures IsExpanded(r, index) <==> !IsExpanded(expanded, index)
    ensures forall k :: k != index ==> !IsExpanded(r, k)
  {
    if expanded == Some(index) then None else Some(index)
  }

  /** Toggling the same entry twice restores the state exactly when that entry was open or nothing was. */
  lemma NextExpandedTwice(expanded: Option<int>, index: int)
    ensures NextExpanded(NextExpanded(expanded, index), index) == expanded
        <==> expanded == None || expanded == Some(index)
  {
  }
}
