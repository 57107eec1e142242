/**
  The index-tracking binary heap behind the outbound delivery queue: the slice operations of
  `deliveryHeap` and the sift loops that Go's `container/heap` runs over them.
 */
module DeliveryHeap {

  datatype Status = Pending | InFlight | Delivered | Failed | DeadLetter

  /** A queued message; `index` is its position in the heap, or -1 once it has been popped. */
  class DeliveryItem {
    const id: string
    const channel: string
    const recipientId: string
    const content: string
    const idempotencyKey: string
    const maxAttempts: int
    var status: Status
    var attempts: int
    var nextRetryAt: int
    var lastError: string
    var index: int

    constructor (id: string, channel: string, recipientId: string, content: string,
                 idempotencyKey: string, maxAttempts: int,
                 attempts: int, nextRetryAt: int, lastError: string)
      ensures this.id == id && this.channel == channel && this.recipientId == recipientId
      ensures this.content == content && this.idempotencyKey == idempotencyKey
      ensures this.maxAttempts == maxAttempts && this.attempts == attempts
      ensures this.nextRetryAt == nextRetryAt && this.lastError == lastError
      ensures this.status == Pending
    {
      this.id, this.channel, this.recipientId, this.content := id, channel, recipientId, content;
      this.idempotencyKey, this.maxAttempts := idempotencyKey, maxAttempts;
      this.attempts, this.nextRetryAt, this.lastError := attempts, nextRetryAt, lastError;
      this.status, this.index := Pending, 0;
    }
  }

  function Parent(k: int): int {
    if k <= 0 then 0 else (k - 1) / 2
  }

  class Heap {
    var items: seq<DeliveryItem>

    ghost predicate Indexed()
      reads this, items
    {
      forall k :: 0 <= k < |items| ==> items[k].index == k
    }

    /** Heap order on retry times among the first `n` items. */
    ghost predicate OrderedBelow(n: nat)
      requires n <= |items|
      reads this, items
    {
      forall k :: 1 <= k < n ==> items[Parent(k)].nextRetryAt <= items[k].nextRetryAt
    }

    ghost predicate Valid()
      reads this, items
    {
      Indexed() && OrderedBelow(|items|)
    }

    constructor ()
      ensures items == [] && Valid()
    {
      items := [];
    }

    predicate Less(i: nat, j: nat)
      requires i < |items| && j < |items|
      reads this, items
    {
      items[i].nextRetryAt < items[j].nextRetryAt
    }

    method Swap(i: nat, j: nat)
      requires i < |items| && j < |items| && Indexed()
      modifies this`items, {items[i], items[j]}`index
      ensures Indexed()
      ensures items == old(items)[i := old(items[j])][j := old(items[i])]
      ensures multiset(items) == multiset(old(items))
      ensures forall x :: x in items ==> x in old(items)
    {
      items := items[i := items[j]][j := items[i]];
      items[i].index := i;
      items[j].index := j;
    }

    /** Order holds everywhere but between `j` and its parent; `j`'s children are above that parent. */
    ghost predicate OrderedButUp(j: nat)
      reads this, items
    {
      && (forall k :: 1 <= k < |items| && k != j ==> items[Parent(k)].nextRetryAt <= items[k].nextRetryAt)
      && (forall k :: 1 <= k < |items| && Parent(k) == j && j != 0 ==>
          items[Parent(j)].nextRetryAt <= items[k].nextRetryAt)
    }

    /** One turn of sift-up: `j` rises above its parent, or is in place. */
    method RiseOnce(j: nat) returns (next: nat)
      requires j < |items| && Indexed() && OrderedButUp(j)
      modifies this`items, (set x <- items)`index
      ensures |items| == old(|items|) && Indexed()
      ensures if next == j then OrderedBelow(|items|) else next < j && OrderedButUp(next)
      ensures multiset(items) == multiset(old(items)) && forall x :: x in items ==> x in old(items)
    {
      next := Parent(j);
      if next == j || !Less(j, next) {
        return j;
      }
      Swap(next, j);
    }

    method Up(start: nat)
      requires start < |items| && Indexed() && OrderedButUp(start)
      modifies this`items, (set x <- items)`index
      ensures Valid() && multiset(items) == multiset(old(items))
    {
      var j: nat := start;
      while true
        invariant j < |items| && Indexed() && OrderedButUp(j)
        invariant multiset(items) == multiset(old(items))
        invariant forall x :: x in items ==> x in old(items)
        decreases j
      {
        var next := RiseOnce(j);
        if next == j {
          break;
        }
        j := next;
      }
    }

    /** Order holds below `n` everywhere but between `i` and its children, which are above `i`'s parent. */
    ghost predicate OrderedButDown(i: nat, n: nat)
      requires n <= |items|
      reads this, items
    {
      && (forall k :: 1 <= k < n && Parent(k) != i ==> items[Parent(k)].nextRetryAt <= items[k].nextRetryAt)
      && (forall k :: 1 <= k < n && Parent(k) == i && i != 0 ==> items[Parent(i)].nextRetryAt <= items[k].nextRetryAt)
    }

    /** One level of sift-down: `i` sinks below its earlier child. */
    method Sink(i: nat, child: nat, n: nat)
      requires child < n <= |items| && Indexed() && OrderedButDown(i, n)
      requires 1 <= child && Parent(child) == i && Less(child, i)
      requires forall k :: 1 <= k < n && Parent(k) == i ==> !Less(k, child)
      modifies this`items, {items[i], items[child]}`index
      ensures items == old(items)[i := old(items[child])][child := old(items[i])]
      ensures Indexed() && OrderedButDown(child, n)
      ensures multiset(items) == multiset(old(items))
      ensures forall x :: x in items ==> x in old(items)
    {
      Swap(i, child);
    }

    /** One turn of sift-down: sinks `i` below its earlier child, or finds it in place. */
    method SinkOnce(i: nat, n: nat) returns (next: nat)
      requires n <= |items| && Indexed() && OrderedButDown(i, n)
      modifies this`items, (set x <- items)`index
      ensures |items| == old(|items|) && Indexed()
      ensures if next == i then OrderedBelow(n) else i < next < n && OrderedButDown(next, n)
      ensures multiset(items) == multiset(old(items)) && items[n..] == old(items[n..])
      ensures forall x :: x in items ==> x in old(items)
    {
      var left := 2 * i + 1;
      if left >= n {
        return i;
      }
      var child := if left + 1 < n && Less(left + 1, left) then left + 1 else left;
      if !Less(child, i) {
        return i;
      }
      Sink(i, child, n);
      return child;
    }

    method Down(start: nat, n: nat)
      requires n <= |items| && Indexed() && OrderedButDown(start, n)
      modifies this`items, (set x <- items)`index
      ensures Indexed() && |items| == old(|items|) && OrderedBelow(n)
      ensures multiset(items) == multiset(old(items)) && items[n..] == old(items[n..])
      ensures forall x :: x in items ==> x in old(items)
    {
      var i: nat := start;
      while true
        invariant |items| == old(|items|) && Indexed() && OrderedButDown(i, n)
        invariant multiset(items) == multiset(old(items)) && items[n..] == old(items[n..])
        invariant forall x :: x in items ==> x in old(items)
        decreases n - i
      {
        var next := SinkOnce(i, n);
        if next == i {
          break;
        }
        i := next;
      }
    }

    method Push(item: DeliveryItem)
      requires Valid() && item !in items
      modifies this`items, (set x <- items)`index, item`index
      ensures Valid() && multiset(items) == multiset(old(items)) + multiset{item}
      ensures forall x :: x in items <==> x in old(items) || x == item
    {
      item.index := |items|;
      items := items + [item];
      Up(|items| - 1);
      assert forall x :: x in items <==> x in multiset(items);
    }

    /** The front of a heap is a minimum. */
    lemma {:induction false} FrontIsEarliest(k: nat)
      requires k < |items| && OrderedBelow(|items|)
      ensures items[0].nextRetryAt <= items[k].nextRetryAt
      decreases k
    {
      if k != 0 {
        FrontIsEarliest(Parent(k));
      }
    }

    method DropLast() returns (item: DeliveryItem)
      requires items != [] && Indexed() && OrderedBelow(|items| - 1)
      modifies this`items, {items[|items| - 1]}`index
      ensures Valid() && item == old(items[|items| - 1]) && items == old(items)[..old(|items|) - 1]
      ensures multiset(items) + multiset{item} == multiset(old(items))
      ensures item.index == -1 && item !in items
    {
      var n := |items| - 1;
      item := items[n];
      assert items[..n] + [item] == items;
      item.index := -1;
      items := items[..n];
    }

    /** Removes an item with the earliest retry time. */
    method Pop() returns (item: DeliveryItem)
      requires Valid() && items != []
      modifies this`items, (set x <- items)`index
      ensures Valid() && multiset(items) + multiset{item} == multiset(old(items))
      ensures item == old(items[0]) && item.index == -1 && |items| == |old(items)| - 1
      ensures forall x :: x in items <==> x in old(items) && x != item
    {
      var n := |items| - 1;
      Swap(0, n);
      Down(0, n);
      item := DropLast();
      assert forall x :: x in items <==> x in multiset(items);
      assert forall x :: x in old(items) <==> x in multiset(old(items));
    }

    /** Pops every item whose retry time has passed, earliest first, and marks it in flight. */
    method PopDue(now: int) returns (ready: seq<DeliveryItem>)
      requires Valid()
      modifies this`items, (set x <- items)`index, (set x <- items)`status
      ensures Valid() && forall x :: x in old(items) <==> x in items || x in ready
      ensures forall x :: x in ready ==> x !in items && x.nextRetryAt <= now && x.status == InFlight
      ensures forall x :: x in items ==> now < x.nextRetryAt
      ensures forall i, j :: 0 <= i < j < |ready| ==>
                ready[i] != ready[j] && ready[i].nextRetryAt <= ready[j].nextRetryAt
    {
      ready := [];
      while |items| > 0
        invariant Valid()
        invariant forall x :: x in old(items) <==> x in items || x in ready
        invariant forall x :: x in ready ==> x !in items && x.nextRetryAt <= now && x.status == InFlight
        invariant forall x, y :: x in ready && y in items ==> x.nextRetryAt <= y.nextRetryAt
        invariant forall i, j :: 0 <= i < j < |ready| ==>
                  ready[i] != ready[j] && ready[i].nextRetryAt <= ready[j].nextRetryAt
        decreases |items|
      {
        forall x | x in items ensures items[0].nextRetryAt <= x.nextRetryAt {
          var k :| 0 <= k < |items| && items[k] == x;
          FrontIsEarliest(k);
        }
        if items[0].nextRetryAt > now {
          break;
        }
        var item := Pop();
        item.status := InFlight;
        ready := ready + [item];
      }
    }
  }
}
