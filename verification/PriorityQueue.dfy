/** The priority queue of queue/priorityQueue.go, driven by the sift procedures of Go's container/heap.

    Comparison is the source's own: higher priority first, then older timestamp, and NON-strict, so a sift
    also moves past an element it ties with. */
module PriorityQueues {

  /** What Less looks at. */
  datatype Key = Key(priority: int, stamp: int)

  /** Less on two keys. */
  predicate Before(a: Key, b: Key) {
    if a.priority == b.priority then a.stamp <= b.stamp else a.priority > b.priority
  }

  /** (j - 1) / 2 with Go's truncation, so that the root is its own parent. */
  function Parent(j: nat): (p: nat)
    ensures j > 0 ==> p < j
  {
    if j == 0 then 0 else (j - 1) / 2
  }

  function Swapped<X>(s: seq<X>, i: nat, j: nat): (r: seq<X>)
    requires i < |s| && j < |s|
    ensures |r| == |s|
  {
    s[i := s[j]][j := s[i]]
  }

  /** The first n keys are in heap order. */
  ghost predicate Heap(ks: seq<Key>, n: nat)
    requires n <= |ks|
  {
    forall j: nat {:trigger Parent(j)} :: 1 <= j < n ==> Before(ks[Parent(j)], ks[j])
  }

  /** Heap order, except possibly between `hole` and its parent. */
  ghost predicate HeapButAbove(ks: seq<Key>, hole: nat) {
    && (forall j: nat {:trigger Parent(j)} :: 1 <= j < |ks| && j != hole ==> Before(ks[Parent(j)], ks[j]))
    && (forall j: nat {:trigger Parent(j)} :: 1 <= j < |ks| && Parent(j) == hole && hole >= 1 ==> Before(ks[Parent(hole)], ks[j]))
  }

  /** Heap order of the first n keys, except possibly between `hole` and its children and, while it has not
      moved from `start`, between `start` and its parent. */
  ghost predicate HeapButBelow(ks: seq<Key>, n: nat, start: nat, hole: nat)
    requires n <= |ks|
  {
    && (forall j: nat {:trigger Parent(j)} :: 1 <= j < n && Parent(j) != hole && !(hole == start && j == start) ==> Before(ks[Parent(j)], ks[j]))
    && (forall j: nat {:trigger Parent(j)} :: 1 <= j < n && Parent(j) == hole && hole >= 1 ==> Before(ks[Parent(hole)], ks[j]))
  }

  /** One step of the sift up. */
  lemma SwapUp(ks: seq<Key>, j: nat)
    requires 1 <= j < |ks| && HeapButAbove(ks, j) && Before(ks[j], ks[Parent(j)])
    ensures HeapButAbove(Swapped(ks, Parent(j), j), Parent(j))
  {
    var i := Parent(j);
    var r := Swapped(ks, i, j);
    forall k | 1 <= k < |r| && k != i ensures Before(r[Parent(k)], r[k]) {
      if k != j && Parent(k) == i {
        assert Before(ks[i], ks[k]);
      }
    }
    forall k | 1 <= k < |r| && Parent(k) == i && i >= 1 ensures Before(r[Parent(i)], r[k]) {
      assert Before(ks[Parent(i)], ks[i]);
      if k != j {
        assert Before(ks[i], ks[k]);
      }
    }
  }

  /** One step of the sift down: c is a child of the hole, no worse than its sibling and than the hole. */
  lemma SwapDown(ks: seq<Key>, n: nat, start: nat, hole: nat, c: nat)
    requires start <= hole && n <= |ks| && BestChild(ks, n, hole, c) && HeapButBelow(ks, n, start, hole)
    requires Before(ks[c], ks[hole])
    ensures HeapButBelow(Swapped(ks, hole, c), n, start, c)
  {
    var r := Swapped(ks, hole, c);
    assert Parent(c) == hole;
    assert forall k :: 1 <= k < n && Parent(k) == hole ==> k == 2 * hole + 1 || k == 2 * hole + 2;
    forall k | 1 <= k < n && Parent(k) != c ensures Before(r[Parent(k)], r[k]) {
      if k == hole {
        assert Before(ks[Parent(hole)], ks[c]);
      } else if Parent(k) == hole {
        assert Before(ks[c], ks[k]);
      }
    }
    forall k | 1 <= k < n && Parent(k) == c ensures Before(r[Parent(c)], r[k]) {
      assert Before(ks[c], ks[k]);
    }
  }

  /** c is a child of the hole, no worse than the other one. */
  ghost predicate BestChild(ks: seq<Key>, n: nat, hole: nat, c: nat) {
    && c < n <= |ks| && (c == 2 * hole + 1 || c == 2 * hole + 2)
    && (2 * hole + 1 < n ==> Before(ks[c], ks[2 * hole + 1]))
    && (2 * hole + 2 < n ==> Before(ks[c], ks[2 * hole + 2]))
  }

  /** The sift down stops at a hole that beats its children. */
  lemma DownDone(ks: seq<Key>, n: nat, start: nat, hole: nat, c: nat)
    requires start <= hole && n <= |ks| && HeapButBelow(ks, n, start, hole)
    requires 2 * hole + 1 < n ==> BestChild(ks, n, hole, c) && Before(ks[hole], ks[c])
    ensures hole > start || start == 0 ==> Heap(ks, n)
    ensures hole == start && n == |ks| ==> HeapButAbove(ks, start)
  {
    forall k | 1 <= k < n && Parent(k) == hole ensures Before(ks[hole], ks[k]) {
      assert k == 2 * hole + 1 || k == 2 * hole + 2;
    }
  }

  /** The root of a heap is best of all. */
  lemma {:induction false} RootIsBest(ks: seq<Key>, j: nat)
    requires j < |ks| && Heap(ks, |ks|)
    ensures Before(ks[0], ks[j])
  {
    if j > 0 {
      RootIsBest(ks, Parent(j));
    }
  }

  /** Exchanging the root with the last key leaves a heap of the others but for the root. */
  lemma RootOut(ks: seq<Key>)
    requires |ks| > 0 && Heap(ks, |ks|)
    ensures HeapButBelow(Swapped(ks, 0, |ks| - 1), |ks| - 1, 0, 0)
  {
  }

  lemma HeapPrefix(ks: seq<Key>, n: nat)
    requires n <= |ks| && Heap(ks, n)
    ensures Heap(ks[..n], n)
  {
  }

  lemma HeapButNothing(ks: seq<Key>)
    requires Heap(ks, |ks|)
    ensures HeapButBelow(ks, |ks|, 0, 0)
  {
  }

  /** Changing the key of one heap element leaves a heap but for that element. */
  lemma RekeyedHeap(ks: seq<Key>, i: nat, k: Key)
    requires i < |ks| && Heap(ks, |ks|)
    ensures HeapButBelow(ks[i := k], |ks|, i, i)
  {
    forall j | 1 <= j < |ks| && Parent(j) == i && i >= 1 ensures Before(ks[Parent(i)], ks[j]) {
      assert Before(ks[i], ks[j]);
    }
  }

  class Item<T> {
    const value: T
    var priority: int
    var timeStamp: int
    var index: int

    constructor (value: T, priority: int)
      ensures this.value == value && this.priority == priority && index == 0 && timeStamp == 0
    {
      this.value := value;
      this.priority := priority;
      timeStamp := 0;
      index := 0;
    }
  }

  /** The keys in heap position order. */
  ghost function KeysOf<T>(items: seq<Item<T>>, queued: map<Item<T>, Key>): (ks: seq<Key>)
    requires forall i :: 0 <= i < |items| ==> items[i] in queued
    ensures |ks| == |items|
  {
    seq(|items|, i requires 0 <= i < |items| => queued[items[i]])
  }

  class PriorityQueue<T> {
    var items: seq<Item<T>>
    ghost var queued: map<Item<T>, Key>  // what is in the queue, and the key it is held under

    /** Positions and back-indexes are inverse, so no item occurs twice and none is lost; `queued` tells exactly
        the items present, under their current keys. */
    ghost predicate Indexed()
      reads this, queued.Keys
    {
      && (forall i :: 0 <= i < |items| ==> items[i] in queued && items[i].index == i)
      && (forall x :: x in queued ==> 0 <= x.index < |items| && items[x.index] == x)
      && (forall x :: x in queued ==> queued[x] == Key(x.priority, x.timeStamp))
    }

    ghost function Keys(): (ks: seq<Key>)
      requires Indexed()
      reads this, queued.Keys
    {
      KeysOf(items, queued)
    }

    ghost predicate Valid()
      reads this, queued.Keys
    {
      Indexed() && Heap(Keys(), |items|)
    }

    constructor ()
      ensures items == [] && queued == map[] && Valid()
    {
      items, queued := [], map[];
    }

    function Less(i: nat, j: nat): (r: bool)
      requires Indexed() && i < |items| && j < |items|
      reads this, queued.Keys
      ensures r == Before(Keys()[i], Keys()[j])
    {
      if items[i].priority == items[j].priority then items[i].timeStamp <= items[j].timeStamp
      else items[i].priority > items[j].priority
    }

    method Swap(i: nat, j: nat)
      requires Indexed() && i < |items| && j < |items|
      modifies this`items, queued.Keys`index
      ensures Indexed() && items == Swapped(old(items), i, j)
      ensures Keys() == Swapped(old(Keys()), i, j)
    {
      items := items[i := items[j]][j := items[i]];
      items[i].index := i;
      items[j].index := j;
    }

    /** The interface method: stamp and append, no sifting. */
    method Append(item: Item<T>, now: int)
      requires Indexed() && item !in queued
      modifies this, item`index, item`timeStamp
      ensures Indexed() && items == old(items) + [item]
      ensures queued == old(queued)[item := Key(item.priority, now)]
      ensures Keys() == old(Keys()) + [Key(item.priority, now)]
    {
      item.index := |items|;
      item.timeStamp := now;
      items := items + [item];
      queued := queued[item := Key(item.priority, now)];
    }

    /** The interface method: detach the last item; null if there is none. */
    method DropLast() returns (item: Item?<T>)
      requires Indexed()
      modifies this, queued.Keys`index
      ensures Indexed() && (item == null <==> old(items) == [])
      ensures item == null ==> items == [] && queued == old(queued)
      ensures item != null ==> item == old(items)[|old(items)| - 1] && item.index == -1
      ensures item != null ==> items == old(items)[..|old(items)| - 1] && queued == old(queued) - {item}
      ensures item != null ==> Keys() == old(Keys())[..|old(items)| - 1]
    {
      if |items| == 0 {
        return null;
      }
      item := items[|items| - 1];
      items := items[..|items| - 1];
      queued := queued - {item};
      item.index := -1;
    }

    method Up(start: nat)
      requires Indexed() && (start < |items| || start == 0) && HeapButAbove(Keys(), start)
      modifies this`items, queued.Keys`index
      ensures Valid()
    {
      var j: nat := start;
      while true
        invariant Indexed() && (j < |items| || j == 0) && HeapButAbove(Keys(), j)
        decreases j
      {
        var i := Parent(j);
        if i == j || !Less(j, i) { break; }
        SwapUp(Keys(), j);
        Swap(i, j);
        j := i;
      }
    }

    method PickChild(i: nat, n: nat) returns (j: nat)
      requires Indexed() && 2 * i + 1 < n <= |items|
      ensures BestChild(Keys(), n, i, j)
    {
      j := 2 * i + 1;
      if j + 1 < n && Less(j + 1, j) { j := j + 1; }
    }

    method Down(start: nat, n: nat) returns (moved: bool)
      requires Indexed() && start <= |items| && n <= |items| && HeapButBelow(Keys(), n, start, start)
      modifies this`items, queued.Keys`index
      ensures Indexed() && |items| == |old(items)|
      ensures n < |items| ==> items[n] == old(items)[n]
      ensures moved || start == 0 ==> Heap(Keys(), n)
      ensures !moved ==> items == old(items)
      ensures !moved && n == |items| ==> HeapButAbove(Keys(), start)
    {
      var i := start;
      while true
        invariant start <= i && Indexed() && |items| == |old(items)|
        invariant HeapButBelow(Keys(), n, start, i)
        invariant n < |items| ==> items[n] == old(items)[n]
        invariant i == start ==> items == old(items)
        decreases n - i
      {
        if 2 * i + 1 >= n {
          DownDone(Keys(), n, start, i, 0);
          break;
        }
        var j := PickChild(i, n);
        if !Less(j, i) {
          DownDone(Keys(), n, start, i, j);
          break;
        }
        SwapDown(Keys(), n, start, i, j);
        Swap(i, j);
        i := j;
      }
      moved := i > start;
    }

    /** heap.Push. */
    method Push(item: Item<T>, now: int)
      requires Valid() && item !in queued
      modifies this, queued.Keys`index, item`index, item`timeStamp
      ensures Valid() && item.timeStamp == now
      ensures queued == old(queued)[item := Key(item.priority, now)]
    {
      Append(item, now);
      Up(|items| - 1);
    }

    lemma FirstIsBest()
      requires Valid() && |items| > 0
      ensures forall x :: x in queued ==> Before(queued[items[0]], queued[x])
    {
      forall x | x in queued ensures Before(queued[items[0]], queued[x]) {
        RootIsBest(Keys(), x.index);
      }
    }

    /** heap.Pop: the item returned is best of all by (highest priority, then oldest timestamp). Null stands for the
        panic of its swap on an empty heap. */
    method Pop() returns (item: Item?<T>)
      requires Valid()
      modifies this, queued.Keys`index
      ensures Valid() && (item == null <==> old(items) == []) && (item == null ==> queued == old(queued))
      ensures item != null ==> item.index == -1 && item in old(queued) && queued == old(queued) - {item}
      ensures item != null ==> forall x :: x in old(queued) ==> Before(old(queued)[item], old(queued)[x])
    {
      hide Heap, HeapButBelow, HeapButAbove, KeysOf;
      if |items| == 0 {
        return null;
      }
      FirstIsBest();
      var n: nat := |items| - 1;
      RootOut(Keys());
      Swap(0, n);
      var _ := Down(0, n);
      HeapPrefix(Keys(), n);
      item := DropLast();
    }

    /** Update, with heap.Fix written out: sift down, else up. An item that was popped is left alone; one that was
        never pushed, whose index is still 0, gets its priority, and the queue stays a heap of the same items. */
    method Update(item: Item<T>, priority: int)
      requires Valid() && (item.index == -1 || item.index == 0 || item in queued)
      modifies this, queued.Keys`index, item`priority
      ensures Valid()
      ensures old(item.index) == -1 ==> queued == old(queued) && item.priority == old(item.priority) && item.index == -1
      ensures old(item.index) != -1 ==> item.priority == priority
      ensures old(item.index) != -1 ==> queued == if item in old(queued) then old(queued)[item := Key(priority, item.timeStamp)] else old(queued)
    {
      if item.index == -1 {
        return;
      }
      hide Heap, HeapButBelow, HeapButAbove;
      var start: nat := item.index;
      if item in queued {
        RekeyedHeap(Keys(), start, Key(priority, item.timeStamp));
      } else {
        HeapButNothing(Keys());
      }
      item.priority := priority;
      if item in queued {
        queued := queued[item := Key(priority, item.timeStamp)];
        assert Keys() == old(Keys())[start := Key(priority, item.timeStamp)];
      }
      var moved := Down(start, |items|);
      if !moved {
        Up(item.index);
      }
    }
  }
}
