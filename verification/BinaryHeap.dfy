/** The heap list behind the dispatcher: heappush and heappop on a list of entries in heap order. */
module BinaryHeap {
  import opened DelayQueue

  predicate AtMost(a: Entry, b: Entry) { a == b || Before(a, b) }

  function Parent(k: nat): nat
    requires 0 < k
  {
    (k - 1) / 2
  }

  /** Every entry but possibly the one at `hole` is at least its parent. */
  ghost predicate HeapExceptAt(heap: seq<Entry>, hole: int) {
    forall k :: 0 < k < |heap| && k != hole ==> AtMost(heap[Parent(k)], heap[k])
  }

  ghost predicate IsHeap(heap: seq<Entry>) { HeapExceptAt(heap, -1) }

  /** Entries below a node that may be out of place: its children are at least its parent. */
  ghost predicate Bridged(heap: seq<Entry>, at: nat) {
    forall k :: 0 < k < |heap| && 0 < at && Parent(k) == at ==> AtMost(heap[Parent(at)], heap[k])
  }

  /** The root is least: every entry is reached from it by going up. */
  lemma {:induction false} RootIsLeast(heap: seq<Entry>, k: nat)
    requires IsHeap(heap) && k < |heap|
    ensures AtMost(heap[0], heap[k])
    decreases k
  {
    if 0 < k {
      RootIsLeast(heap, Parent(k));
    }
  }

  lemma HeadIsLeast(heap: seq<Entry>)
    requires IsHeap(heap) && heap != []
    ensures IsMin(AsSet(heap), heap[0])
  {
    forall x | x in heap && x != heap[0]
      ensures Before(heap[0], x)
    {
      var k :| 0 <= k < |heap| && heap[k] == x;
      RootIsLeast(heap, k);
    }
  }

  function Swap(heap: seq<Entry>, i: nat, j: nat): seq<Entry>
    requires i < |heap| && j < |heap|
  {
    heap[i := heap[j]][j := heap[i]]
  }

  lemma SwapKeepsContents(heap: seq<Entry>, i: nat, j: nat)
    requires i < j < |heap|
    ensures multiset(Swap(heap, i, j)) == multiset(heap)
  {
  }

  /** One step of moving an entry up: if it comes before its parent, they change places. */
  lemma UpStep(heap: seq<Entry>, at: nat)
    requires 0 < at < |heap| && HeapExceptAt(heap, at) && Bridged(heap, at)
    requires Before(heap[at], heap[Parent(at)])
    ensures var next := Swap(heap, Parent(at), at);
            HeapExceptAt(next, Parent(at)) && Bridged(next, Parent(at))
  {
    var p, next := Parent(at), Swap(heap, Parent(at), at);
    forall k | 0 < k < |heap| && k != p
      ensures AtMost(next[Parent(k)], next[k])
    {
      assert k == at || AtMost(heap[Parent(k)], heap[k]);
    }
    forall k | 0 < k < |heap| && 0 < p && Parent(k) == p
      ensures AtMost(next[Parent(p)], next[k])
    {
      assert AtMost(heap[Parent(p)], heap[p]);
      assert k == at || AtMost(heap[Parent(k)], heap[k]);
    }
  }

  /** heappush: append, then move up. */
  method HeapPush(heap: seq<Entry>, e: Entry) returns (out: seq<Entry>)
    requires IsHeap(heap)
    ensures IsHeap(out) && multiset(out) == multiset(heap) + multiset{e}
  {
    out := heap + [e];
    var at: nat := |heap|;
    while 0 < at && Before(out[at], out[Parent(at)])
      invariant at < |out| == |heap| + 1
      invariant multiset(out) == multiset(heap) + multiset{e}
      invariant HeapExceptAt(out, at) && Bridged(out, at)
    {
      UpStep(out, at);
      SwapKeepsContents(out, Parent(at), at);
      out := Swap(out, Parent(at), at);
      at := Parent(at);
    }
    assert 0 < at ==> AtMost(out[Parent(at)], out[at]);
  }

  /** Every entry but the children of `at` is at least its parent. */
  ghost predicate HeapExceptBelow(heap: seq<Entry>, at: nat) {
    forall k :: 0 < k < |heap| && Parent(k) != at ==> AtMost(heap[Parent(k)], heap[k])
  }

  /** The smaller child of `at`. */
  function SmallerChild(heap: seq<Entry>, at: nat): (c: nat)
    requires 2 * at + 1 < |heap|
    ensures c < |heap| && at < c && Parent(c) == at
    ensures forall k :: 0 < k < |heap| && Parent(k) == at ==> AtMost(heap[c], heap[k])
  {
    assert forall k: nat :: 0 < k && Parent(k) == at ==> k == 2 * at + 1 || k == 2 * at + 2;
    if 2 * at + 2 < |heap| && Before(heap[2 * at + 2], heap[2 * at + 1]) then 2 * at + 2 else 2 * at + 1
  }

  /** One step of moving an entry down: it changes places with its smaller child. */
  lemma DownStep(heap: seq<Entry>, at: nat)
    requires 2 * at + 1 < |heap| && HeapExceptBelow(heap, at) && Bridged(heap, at)
    requires Before(heap[SmallerChild(heap, at)], heap[at])
    ensures var c := SmallerChild(heap, at);
            HeapExceptBelow(Swap(heap, at, c), c) && Bridged(Swap(heap, at, c), c)
  {
    var c := SmallerChild(heap, at);
    var next := Swap(heap, at, c);
    forall k | 0 < k < |heap| && Parent(k) != c
      ensures AtMost(next[Parent(k)], next[k])
    {
      assert Parent(k) == at || AtMost(heap[Parent(k)], heap[k]);
      assert Parent(k) == at ==> AtMost(heap[c], heap[k]);
    }
    forall k | 0 < k < |heap| && Parent(k) == c
      ensures AtMost(next[Parent(c)], next[k])
    {
      assert AtMost(heap[Parent(k)], heap[k]);
    }
  }

  /** heappop: the last entry takes the root's place and moves down. */
  method HeapPop(heap: seq<Entry>) returns (least: Entry, out: seq<Entry>)
    requires IsHeap(heap) && heap != []
    ensures least == heap[0]
    ensures IsHeap(out) && multiset(out) == multiset(heap) - multiset{least}
  {
    least := heap[0];
    var last, n := heap[|heap| - 1], |heap| - 1;
    assert heap == heap[..n] + [last];
    if n == 0 {
      return least, [];
    }
    out := [last] + heap[1..n];
    RootReplaced(heap);
    RootLeaves(heap);
    var at: nat := 0;
    while 2 * at + 1 < n && Before(out[SmallerChild(out, at)], out[at])
      invariant at < |out| == n
      invariant multiset(out) == multiset(heap) - multiset{least}
      invariant HeapExceptBelow(out, at) && Bridged(out, at)
      decreases n - at
    {
      DownStep(out, at);
      var c := SmallerChild(out, at);
      SwapKeepsContents(out, at, c);
      out := Swap(out, at, c);
      at := c;
    }
    Settled(out, at);
  }

  lemma RootReplaced(heap: seq<Entry>)
    requires IsHeap(heap) && 1 < |heap|
    ensures HeapExceptBelow([heap[|heap| - 1]] + heap[1..|heap| - 1], 0)
  {
    var n := |heap| - 1;
    var out := [heap[n]] + heap[1..n];
    forall k | 0 < k < n && Parent(k) != 0
      ensures AtMost(out[Parent(k)], out[k])
    {
      assert out[k] == heap[k] && out[Parent(k)] == heap[Parent(k)];
    }
  }

  lemma RootLeaves(heap: seq<Entry>)
    requires 1 < |heap|
    ensures multiset([heap[|heap| - 1]] + heap[1..|heap| - 1]) == multiset(heap) - multiset{heap[0]}
  {
    var middle, last := heap[1..|heap| - 1], heap[|heap| - 1];
    assert heap == [heap[0]] + (middle + [last]);
    assert multiset(heap) == multiset{heap[0]} + multiset(middle + [last]);
    assert multiset([last] + middle) == multiset(middle + [last]);
  }

  lemma Settled(heap: seq<Entry>, at: nat)
    requires at < |heap| && HeapExceptBelow(heap, at)
    requires 2 * at + 1 < |heap| ==> !Before(heap[SmallerChild(heap, at)], heap[at])
    ensures IsHeap(heap)
  {
    forall k | 0 < k < |heap|
      ensures AtMost(heap[Parent(k)], heap[k])
    {
      if Parent(k) == at {
        assert AtMost(heap[SmallerChild(heap, at)], heap[k]);
      }
    }
  }
}
