/**
 The packet queue on the heap: a circular doubly linked list of nodes around a sentinel, with a size counter, proved to
 be the sequence of packets of the value model.
 */
module AvQueueRing {
  import opened Common
  import opened AvQueue
  import opened AvQueueAbort

  class AVNode {
    var prev: AVNode?
    var next: AVNode?
    var data: Packet

    constructor (data: Packet)
      ensures this.data == data
    {
      this.data := data;
      prev, next := null, null;
    }
  }

  class AVQueue {
    const realtime: bool
    const maxSize: int
    const delay: int
    var headNode: AVNode
    var queueSize: int
    var overflow: bool

    /**
     The ring: the sentinel, the nodes from newest to oldest, and the sentinel again; and their packets, oldest first.
     */
    ghost var ring: seq<AVNode>
    ghost var items: seq<Packet>

    /** Packets freed by the queue itself so far. */
    var freed: seq<Packet>

    /** The nodes form the ring and hold the packets. */
    ghost predicate Linked()
      reads this, ring
    {
      && |ring| == |items| + 2
      && ring[0] == ring[|ring| - 1] == headNode
      && (forall i, j | 0 <= i < j < |ring| - 1 :: ring[i] != ring[j])
      && (forall i | 0 <= i < |ring| - 1 :: ring[i].next == ring[i + 1])
      && (forall i | 0 < i < |ring| :: ring[i].prev == ring[i - 1])
      && (forall i | 0 < i < |ring| - 1 :: ring[i].data == items[|items| - i])
      && queueSize == |items|
    }

    ghost predicate Valid()
      reads this, ring
    {
      && Linked()
      && (overflow ==> realtime)
      && (realtime ==> queueSize == 0 || queueSize <= maxSize)
    }

    ghost function View(): Queue
      reads this
    {
      Queue(items, realtime, maxSize, delay, overflow)
    }

    /** A queue that holds nothing. */
    constructor (realtime: bool, size: int, delayCount: int)
      ensures Valid() && fresh(headNode) && ring == [headNode, headNode] && freed == []
      ensures View() == Queue([], realtime, if realtime then size else 0, if realtime then delayCount else 0, false)
    {
      this.realtime := realtime;
      maxSize := if realtime then size else 0;
      delay := if realtime then delayCount else 0;
      var head := new AVNode(0);
      headNode := head;
      queueSize, overflow, ring, items, freed := 0, false, [head, head], [], [];
      new;
      headNode.prev := headNode;
      headNode.next := headNode;
    }

    /** Makes a queue unless a real-time one is to lag by more packets than it holds. */
    static method AVQueueInit(realtime: bool, size: int, delayCount: int) returns (queue: AVQueue?)
      ensures queue == null <==> realtime && !InitAccepts(size, delayCount)
      ensures queue != null ==> fresh(queue) && queue.Valid() && fresh(queue.ring)
      ensures queue != null ==>
        queue.View() == Queue([], realtime, if realtime then size else 0, if realtime then delayCount else 0, false)
    {
      if realtime && delayCount > size {
        return null;
      }
      queue := new AVQueue(realtime, size, delayCount);
    }

    /** Unlinks the node before the sentinel, which holds the oldest packet. */
    method UnlinkTail() returns (data: Packet)
      requires Linked() && items != []
      modifies this`queueSize, this`ring, this`items, ring
      ensures Linked()
      ensures ring == old(ring)[..|old(ring)| - 2] + [headNode]
      ensures items == old(items)[1..] && data == old(items)[0]
    {
      queueSize := queueSize - 1;
      ghost var m := |ring| - 2;
      var node := headNode.prev;
      assert node == ring[m] && node.prev == ring[m - 1];
      headNode.prev := node.prev;
      node.prev.next := headNode;
      data := node.data;
      ring := ring[..m] + [headNode];
      items := items[1..];
    }

    /** Links a new node after the sentinel. */
    method LinkHead(node: AVNode)
      requires Linked() && node !in ring
      modifies this`queueSize, this`ring, this`items, ring, node
      ensures Linked()
      ensures ring == [headNode, node] + old(ring)[1..] && items == old(items) + [old(node.data)]
    {
      queueSize := queueSize + 1;
      assert headNode.next == ring[1];
      node.next := headNode.next;
      headNode.next.prev := node;
      node.prev := headNode;
      headNode.next := node;
      ring := [headNode, node] + ring[1..];
      items := items + [node.data];
    }

    /** Unlinks and frees the oldest packet. */
    method DropOldest()
      requires Linked() && items != []
      modifies this`queueSize, this`ring, this`items, this`freed, ring
      ensures Linked() && items == old(items)[1..] && freed == old(freed) + [old(items)[0]]
      ensures forall i | 0 <= i < |ring| :: ring[i] in old(ring)
    {
      var result := UnlinkTail();
      freed := freed + [result];
    }

    method AVQueuePushHead(databuf: Packet)
      requires Valid() && (realtime ==> 1 <= maxSize)
      modifies this, ring
      ensures Valid() && View() == Push(old(View()), databuf)
      ensures freed == old(freed) + old(items)[..PushDrops(old(View()))]
      ensures forall i | 0 <= i < |ring| :: ring[i] in old(ring) || fresh(ring[i])
    {
      var node := new AVNode(databuf);
      if realtime && queueSize >= maxSize {
        overflow := true;
        DropOldest();
      }
      LinkHead(node);
    }

    /** The next packet, or nothing when the wait for one times out. */
    method AVQueuePopTail() returns (result: Option<Packet>)
      requires Valid() && (overflow ==> 1 <= delay)
      modifies this, ring
      ensures Valid() && (View(), result) == Pop(old(View()))
      ensures freed == old(freed) + old(items)[..PopDrops(old(View()))]
      ensures forall i | 0 <= i < |ring| :: ring[i] in old(ring)
    {
      if queueSize == 0 {
        return None;
      }
      if overflow {
        CatchUpLoop();
        overflow := false;
      }
      Rest(old(items), PopDrops(old(View())));
      var data := UnlinkTail();
      result := Some(data);
    }

    /** Frees all but the newest `delay` packets. */
    method CatchUpLoop()
      requires Linked() && items != [] && overflow && 1 <= delay
      modifies this`queueSize, this`ring, this`items, this`freed, ring
      ensures Linked() && items == old(items)[PopDrops(old(View()))..]
      ensures freed == old(freed) + old(items)[..PopDrops(old(View()))]
      ensures forall i | 0 <= i < |ring| :: ring[i] in old(ring)
    {
      ghost var dropped := 0;
      while queueSize > delay
        invariant delay <= |items| || dropped == 0
        invariant Linked() && items != []
        invariant forall i | 0 <= i < |ring| :: ring[i] in old(ring)
        invariant dropped <= |old(items)| && items == old(items)[dropped..]
        invariant freed == old(freed) + old(items)[..dropped]
        decreases queueSize
      {
        assert old(items)[..dropped] + [items[0]] == old(items)[..dropped + 1];
        DropOldest();
        dropped := dropped + 1;
      }
    }

    /** Node `i` of the ring leads to the next one and holds its packet. */
    ghost predicate ChainAt(i: int)
      requires 0 < i < |ring| - 1 && |ring| == |items| + 2
      reads this`ring, this`items, ring[i]
    {
      ring[i].next == ring[i + 1] && ring[i].data == items[|items| - i]
    }

    /** The nodes from the sentinel on, without the way back. */
    ghost predicate Chained()
      reads this, ring, headNode
    {
      && |ring| == |items| + 2 && queueSize == |items| && headNode.next == ring[1]
      && (forall i | 0 < i < |ring| - 1 :: ring[i] != headNode)
      && (forall i | 0 < i < |ring| - 1 :: ChainAt(i))
    }

    lemma {:induction false} LinkedChained()
      requires Linked()
      ensures Chained()
    {
    }

    /**
     Takes the nodes off the front, giving each packet, newest first, to the caller's function; a null packet is
     skipped.
     */
    method AbortLoop() returns (given: seq<Packet>)
      requires Chained()
      modifies this`queueSize, headNode
      ensures given == NewestFirst(items) && queueSize == 0
    {
      given := [];
      ghost var k := 0;
      while queueSize > 0
        invariant 0 <= k <= |items| && queueSize == |items| - k
        invariant headNode.next == ring[k + 1]
        invariant forall i | 0 < i < |ring| - 1 :: ChainAt(i)
        invariant given == NewestFirst(items[|items| - k..])
        decreases queueSize
      {
        assert ChainAt(k + 1);
        var node := headNode.next;
        var data := node.data;
        assert items[|items| - k - 1..] == [data] + items[|items| - k..];
        if data != 0 {
          given := given + [data];
        }
        headNode.next := node.next;
        queueSize := queueSize - 1;
        k := k + 1;
      }
      assert items[0..] == items;
    }

    /** Empties the queue. */
    method AVQueueAbort() returns (given: seq<Packet>)
      requires Valid()
      modifies this, ring
      ensures Valid() && View() == Abort(old(View())) && ring == [headNode, headNode]
      ensures given == NewestFirst(old(items)) && freed == old(freed)
    {
      LinkedChained();
      given := AbortLoop();
      headNode.next := headNode;
      headNode.prev := headNode;
      ring := [headNode, headNode];
      items := [];
    }
  }

  lemma {:induction false} Rest(items: seq<Packet>, n: nat)
    requires n < |items|
    ensures items[n..][0] == items[n] && items[n..][1..] == items[n + 1..]
  {
  }
}
