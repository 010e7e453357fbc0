/**
 What emptying the packet queue hands over to the caller.
 */
module AvQueueAbort {
  import opened AvQueue

  /** The packets other than null, from the newest to the oldest. */
  ghost function NewestFirst(items: seq<Packet>): seq<Packet> {
    if items == [] then [] else NewestFirst(items[1..]) + if items[0] != 0 then [items[0]] else []
  }

  lemma {:induction false} NothingLost(items: seq<Packet>)
    ensures multiset(NewestFirst(items)) == multiset(items)[0 := 0]
  {
    if items != [] {
      NothingLost(items[1..]);
      assert items == [items[0]] + items[1..];
    }
  }

  /** These are the places in `items` of the packets `given`, the newest first. */
  ghost predicate FromPlaces(items: seq<Packet>, given: seq<Packet>, places: seq<nat>) {
    && |places| == |given|
    && (forall k | 0 <= k < |places| :: places[k] < |items| && items[places[k]] == given[k])
    && (forall j, k | 0 <= j < k < |places| :: places[j] > places[k])
  }

  lemma {:induction false} OneOlder(items: seq<Packet>, given: seq<Packet>, places: seq<nat>) returns (from: seq<nat>)
    requires items != [] && FromPlaces(items[1..], given, places)
    ensures FromPlaces(items, given + if items[0] != 0 then [items[0]] else [], from)
  {
    from := seq(|places|, k requires 0 <= k < |places| => places[k] + 1);
    if items[0] != 0 { from := from + [0]; }
  }

  /**
   What an abort hands over: every packet but null ones, each as often as it was queued, and newer ones before older
   ones, from the given places in the queue.
   */
  lemma {:induction false} AbortHandsOver(items: seq<Packet>) returns (places: seq<nat>)
    ensures multiset(NewestFirst(items)) == multiset(items)[0 := 0]
    ensures FromPlaces(items, NewestFirst(items), places)
  {
    NothingLost(items);
    if items == [] {
      places := [];
    } else {
      var rest := AbortHandsOver(items[1..]);
      places := OneOlder(items, NewestFirst(items[1..]), rest);
    }
  }
}
