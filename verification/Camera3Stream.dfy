/**
 The stream object: the critical sections of the stream, which update its fields and the slot array in place and
 search the pool in loops, each proved against the corresponding function on stream values.
 */
module Camera3Stream {
  import opened Common
  import opened StreamPool
  import opened StreamRuns

  predicate InSlot(p: Pool, h: Handle, i: nat) { i < p.slotCount && i < |p.slots| && p.slots[i] == h }

  /** Every buffer of the pool is in a slot, whether or not slots are left over from an earlier pool. */
  ghost predicate Findable(p: Pool) {
    |p.slots| == p.total && forall h | h in p.buffers :: exists i: nat :: InSlot(p, h, i)
  }

  /** The streams of every fair run have that. */
  lemma {:induction false} ConsistentFindable(s: Stream)
    requires Consistent(s)
    ensures Findable(s.pool)
  {
    var p := s.pool;
    if SlotsMatch(p) {
      forall h | h in p.buffers
        ensures exists i: nat :: InSlot(p, h, i)
      {
        assert h in Elements(p.slots[..p.slotCount]);
        var i :| 0 <= i < p.slotCount && p.slots[..p.slotCount][i] == h;
        assert InSlot(p, h, i);
      }
    }
  }

  class OutputStream {
    var status: Status
    var totalBufferCount: nat
    var pendingBufferCount: nat
    var halBufferCount: nat
    var clientBufferCount: nat
    var memAllocBuffers: map<Handle, bool>
    var memAllocSlots: array<Handle>
    var hwBufferAllocated: nat
    var monitorId: int
    var isStreamActive: bool
    var preparedBuffersCount: nat
    var ask: Ask
    var oldAsk: Ask
    const clientAsk: Ask
    ghost var waiters: nat

    /** The monitor requests and the frees made so far. */
    var calls: seq<Call>
    var freed: multiset<Handle>

    ghost function ThePool(): Pool
      reads this, memAllocSlots
    {
      Pool(totalBufferCount, memAllocSlots[..], hwBufferAllocated, memAllocBuffers, pendingBufferCount)
    }

    ghost function View(): Stream
      reads this, memAllocSlots
    {
      Stream(status, ThePool(), halBufferCount, clientBufferCount, monitorId, isStreamActive, preparedBuffersCount,
             ask, oldAsk, clientAsk, waiters)
    }

    /** Kept from one operation to the next, as `StreamRuns.StepConsistent` shows. */
    ghost predicate Valid()
      reads this, memAllocSlots
    {
      Consistent(View())
    }

    /** The fields and the requests made are those of `d`, on top of earlier ones. */
    ghost predicate Did(d: Done, code: int, oldCalls: seq<Call>, oldFreed: multiset<Handle>)
      reads this, memAllocSlots
    {
      View() == d.stream && code == d.code && calls == oldCalls + d.calls && freed == oldFreed + multiset(d.freed)
    }

    constructor (ask: Ask)
      ensures Valid() && View() == NewStream(ask) && calls == [] && freed == multiset{}
      ensures fresh(memAllocSlots)
    {
      status := Initialized;
      totalBufferCount, pendingBufferCount, halBufferCount, clientBufferCount := 0, 0, 0, 0;
      memAllocBuffers, memAllocSlots, hwBufferAllocated := map[], new Handle[0], 0;
      monitorId, isStreamActive, preparedBuffersCount := INVALID_ID, false, 0;
      this.ask, oldAsk, clientAsk := ask, Ask(0, 0), ask;
      waiters := 0;
      calls, freed := [], multiset{};
    }

    // -------------------------------------------------------------- configuration

    method BeginConfigure() returns (code: int)
      modifies this`ask, this`calls, this`monitorId, this`status
      ensures Did(StreamPool.BeginConfigure(old(View())), code, old(calls), old(freed))
    {
      if status.Failed? || status.PrepareActive? {
        return ENOSYS;
      }
      if status.ConfigActive? || status.ReconfigActive? {
        return OK;
      }
      ask := clientAsk;
      if monitorId != INVALID_ID {
        calls := calls + [Release(monitorId)];
        monitorId := INVALID_ID;
      }
      status := if status.Initialized? then ConfigActive else ReconfigActive;
      return OK;
    }

    /** Gives every buffer of the pool back to the allocator. */
    method FreeBuffers()
      modifies this`memAllocBuffers, this`freed
      ensures memAllocBuffers == map[]
      ensures freed == old(freed) + multiset(old(memAllocBuffers).Keys)
    {
      var rest := memAllocBuffers.Keys;
      while rest != {}
        invariant rest <= memAllocBuffers.Keys
        invariant memAllocBuffers == old(memAllocBuffers)
        invariant freed == old(freed) + multiset(memAllocBuffers.Keys - rest)
        decreases |rest|
      {
        var h :| h in rest;
        assert memAllocBuffers.Keys - (rest - {h}) == (memAllocBuffers.Keys - rest) + {h};
        freed := freed + multiset{h};
        rest := rest - {h};
      }
      assert memAllocBuffers.Keys - {} == memAllocBuffers.Keys;
      memAllocBuffers := map[];
    }

    method CloseLocked() returns (code: int)
      modifies this`memAllocBuffers, this`freed, this`status
      ensures Did(StreamPool.CloseLocked(old(View())), code, old(calls), old(freed))
    {
      if !status.ReconfigActive? && !status.Configured? {
        return ENOTCONN;
      }
      if pendingBufferCount > 0 {
        return ENOSYS;
      }
      FreeBuffers();
      status := if status.ReconfigActive? then ConfigActive else Initialized;
      return OK;
    }

    method Close() returns (code: int)
      modifies this`memAllocBuffers, this`freed, this`status
      ensures Did(StreamPool.Close(old(View())), code, old(calls), old(freed))
    {
      code := CloseLocked();
      if code == ENOTCONN {
        code := OK;
      }
    }

    /** Empties the pool and makes place for the buffers asked for. */
    method ResetPool()
      modifies this`memAllocBuffers, this`freed, this`totalBufferCount, this`pendingBufferCount,
        this`hwBufferAllocated, this`memAllocSlots
      ensures fresh(memAllocSlots)
      ensures ThePool() == Pool(View().Demand(), memAllocSlots[..], 0, map[], 0)
      ensures memAllocSlots.Length == totalBufferCount
      ensures freed == old(freed) + multiset(old(memAllocBuffers).Keys)
    {
      totalBufferCount := if clientAsk.maxBuffers > ask.maxBuffers then clientAsk.maxBuffers else ask.maxBuffers;
      pendingBufferCount, hwBufferAllocated := 0, 0;
      FreeBuffers();
      memAllocSlots := new Handle[totalBufferCount];
    }

    method ConfigureLocked() returns (code: int)
      modifies this`status, this`memAllocBuffers, this`freed, this`totalBufferCount, this`pendingBufferCount,
        this`hwBufferAllocated, this`isStreamActive, this`memAllocSlots
      ensures memAllocSlots == old(memAllocSlots) || fresh(memAllocSlots)
      ensures code == OK ==> memAllocSlots.Length == totalBufferCount
      ensures Did(StreamPool.ConfigureLocked(old(View()), memAllocSlots[..]), code, old(calls), old(freed))
    {
      if status.ReconfigActive? {
        code := CloseLocked();
        if code != OK {
          return code;
        }
      } else if !status.ConfigActive? {
        return ENOSYS;
      }
      ResetPool();
      isStreamActive := false;
      return OK;
    }

    /** Ends a configuration; `id` is the monitor's answer. */
    method EndConfigure(id: int) returns (code: int)
      modifies this`status, this`memAllocBuffers, this`freed, this`totalBufferCount, this`pendingBufferCount,
        this`hwBufferAllocated, this`isStreamActive, this`memAllocSlots, this`monitorId, this`oldAsk
      ensures memAllocSlots == old(memAllocSlots) || fresh(memAllocSlots)
      ensures Did(StreamPool.EndConfigure(old(View()), id, memAllocSlots[..]), code, old(calls), old(freed))
    {
      if !status.ConfigActive? && !status.ReconfigActive? {
        return ENOSYS;
      }
      monitorId := id;
      if monitorId < 0 {
        return monitorId;
      }
      if status.ReconfigActive? && ask == oldAsk {
        status := Configured;
        return OK;
      }
      code := NewPool();
    }

    /** Replaces the pool at the end of a configuration. */
    method NewPool() returns (code: int)
      modifies this`status, this`memAllocBuffers, this`freed, this`totalBufferCount, this`pendingBufferCount,
        this`hwBufferAllocated, this`isStreamActive, this`memAllocSlots, this`oldAsk
      ensures memAllocSlots == old(memAllocSlots) || fresh(memAllocSlots)
      ensures var d := StreamPool.ConfigureLocked(old(View()), memAllocSlots[..]);
              var s := if d.code != OK then d.stream.(status := Failed)
                       else d.stream.(status := Configured, oldAsk := old(ask));
              Did(d.(stream := s), code, old(calls), old(freed))
    {
      code := ConfigureLocked();
      if code != OK {
        status := Failed;
        return code;
      }
      status := Configured;
      oldAsk := ask;
    }

    method AbortConfigure() returns (code: int)
      modifies this`ask, this`status
      ensures Did(StreamPool.AbortConfigure(old(View())), code, old(calls), old(freed))
    {
      if !status.ConfigActive? && !status.ReconfigActive? {
        return ENOSYS;
      }
      ask := oldAsk;
      status := if status.ReconfigActive? then Configured else Initialized;
      return OK;
    }

    method TearDown() returns (code: int)
      requires Valid()
      modifies this`memAllocBuffers, this`freed, this`hwBufferAllocated, this`isStreamActive, memAllocSlots
      ensures Did(StreamPool.TearDown(old(View())), code, old(calls), old(freed))
    {
      if !status.Configured? || pendingBufferCount > 0 {
        return ENOSYS;
      }
      if hwBufferAllocated > 0 {
        FreeBuffers();
        hwBufferAllocated := 0;
      }
      ClearSlots();
      isStreamActive := false;
      return OK;
    }

    method ClearSlots()
      requires memAllocSlots.Length == totalBufferCount
      modifies memAllocSlots
      ensures memAllocSlots[..] == seq(old(memAllocSlots.Length), i => 0)
    {
      for i := 0 to totalBufferCount
        invariant forall k | 0 <= k < i :: memAllocSlots[k] == 0
      {
        memAllocSlots[i] := 0;
      }
    }

    // -------------------------------------------------------------- buffers

    /** A free buffer of the pool, if there is one. */
    method FindFree() returns (found: Option<Handle>)
      ensures found.Some? ==> found.value in memAllocBuffers && memAllocBuffers[found.value]
      ensures found.None? ==> ThePool().NoneFree()
    {
      var rest := memAllocBuffers.Keys;
      while rest != {}
        invariant rest <= memAllocBuffers.Keys
        invariant forall h | h in memAllocBuffers && h !in rest :: !memAllocBuffers[h]
        decreases |rest|
      {
        var h :| h in rest;
        if memAllocBuffers[h] {
          return Some(h);
        }
        rest := rest - {h};
      }
      return None;
    }

    /** The slot of a buffer of the pool. */
    method FindSlot(h: Handle) returns (slot: nat)
      requires Findable(ThePool()) && h in memAllocBuffers
      ensures slot < hwBufferAllocated && slot < memAllocSlots.Length && memAllocSlots[slot] == h
    {
      ghost var place: nat :| InSlot(ThePool(), h, place);
      slot := 0;
      while memAllocSlots[slot] != h
        invariant slot <= place
        decreases place - slot
      {
        slot := slot + 1;
      }
    }

    /** Stores a buffer just allocated in the next slot. */
    method Register(h: Handle, free: bool)
      requires ThePool().Room()
      modifies this`memAllocBuffers, this`hwBufferAllocated, memAllocSlots
      ensures ThePool() == old(ThePool()).Register(h, free)
    {
      memAllocSlots[hwBufferAllocated] := h;
      memAllocBuffers := memAllocBuffers[h := free];
      hwBufferAllocated := hwBufferAllocated + 1;
    }

    /** Finds or allocates a buffer and marks it as out; `allocator` is the answer the allocator would give. */
    method Obtain(allocator: Option<Handle>) returns (code: int, got: Option<Handle>)
      requires Findable(ThePool())
      requires allocator.Some? ==> allocator.value != 0 && allocator.value !in memAllocBuffers
      modifies this`memAllocBuffers, this`hwBufferAllocated, this`pendingBufferCount, memAllocSlots
      ensures got.Some? ==>
                code == OK && old(ThePool()).Obtainable(got.value) && ThePool() == old(ThePool()).HandOut(got.value)
      ensures got.None? ==>
                && ThePool() == old(ThePool())
                && code == NoBuffer(View()) && code != OK
                && ThePool().NoneFree()
                && (ThePool().Room() ==> allocator.None?)
    {
      got := FindFree();
      if got.Some? {
        var slot := FindSlot(got.value);
        memAllocBuffers := memAllocBuffers[memAllocSlots[slot] := false];
      } else if hwBufferAllocated < totalBufferCount {
        if allocator.None? {
          return ENOMEM, None;
        }
        got := allocator;
        Register(got.value, false);
      } else {
        return ENOSYS, None;
      }
      pendingBufferCount := pendingBufferCount + 1;
      code := OK;
    }

    /** A request of the HAL for a buffer, by a caller that does not have to wait or has done so. */
    method GetBufferLocked(allocator: Option<Handle>) returns (code: int, got: Option<Handle>)
      requires Findable(ThePool())
      requires allocator.Some? ==> allocator.value != 0 && allocator.value !in memAllocBuffers
      modifies this`memAllocBuffers, this`hwBufferAllocated, this`pendingBufferCount, memAllocSlots,
        this`calls, this`halBufferCount
      ensures got.Some? <==> code == OK
      ensures got.Some? ==> old(ThePool()).Obtainable(got.value)
      ensures Did(StreamPool.GetBufferLocked(old(View()), got), code, old(calls), old(freed))
    {
      if !status.Configured? && !status.ConfigActive? && !status.ReconfigActive? && !status.PrepareActive? {
        return ENOSYS, None;
      }
      var idle := pendingBufferCount == 0;
      code, got := Obtain(allocator);
      if got.Some? {
        NoteHandOut(idle);
      }
    }

    /** A buffer went to the HAL: the monitor hears of the first one. */
    method NoteHandOut(first: bool)
      modifies this`calls, this`halBufferCount
      ensures halBufferCount == Inc(old(halBufferCount))
      ensures calls == old(calls) + if first && !View().Configuring() then [ToActive(monitorId)] else []
    {
      if first && !status.ConfigActive? && !status.ReconfigActive? {
        calls := calls + [ToActive(monitorId)];
      }
      halBufferCount := Inc(halBufferCount);
    }

    /**
     A buffer request. With every buffer out the caller gives up the lock and waits; it then goes on with `Resume` or
     with `Timeout`, whatever happened to the stream in the meantime.
     */
    method GetBuffer(allocator: Option<Handle>) returns (waits: bool, code: int, got: Option<Handle>)
      requires Findable(ThePool())
      requires allocator.Some? ==> allocator.value != 0 && allocator.value !in memAllocBuffers
      modifies this`memAllocBuffers, this`hwBufferAllocated, this`pendingBufferCount, memAllocSlots,
        this`calls, this`halBufferCount, this`waiters
      ensures waits == AllOut(old(View()))
      ensures Did(Apply(old(View()), if waits then Wait else GetBufferOp(got)), code, old(calls), old(freed))
      ensures !waits ==> (code == OK <==> got.Some?)
      ensures got.Some? ==> !waits && old(ThePool()).Obtainable(got.value)
    {
      if !status.Configured? {
        return false, ENOSYS, None;
      }
      if pendingBufferCount == totalBufferCount {
        waiters := waiters + 1;
        return true, OK, None;
      }
      waits := false;
      code, got := GetBufferLocked(allocator);
    }

    /** A caller that waited was woken, with or without a buffer having come back. */
    method Resume(allocator: Option<Handle>) returns (code: int, got: Option<Handle>)
      requires Findable(ThePool()) && waiters > 0
      requires allocator.Some? ==> allocator.value != 0 && allocator.value !in memAllocBuffers
      modifies this`memAllocBuffers, this`hwBufferAllocated, this`pendingBufferCount, memAllocSlots,
        this`calls, this`halBufferCount, this`waiters
      ensures Did(Apply(old(View()), StreamPool.Resume(got)), code, old(calls), old(freed))
      ensures code == OK <==> got.Some?
      ensures got.Some? ==> old(ThePool()).Obtainable(got.value)
    {
      waiters := waiters - 1;
      code, got := GetBufferLocked(allocator);
    }

    method Timeout() returns (code: int)
      requires waiters > 0
      modifies this`waiters
      ensures Did(Apply(old(View()), StreamPool.Timeout), code, old(calls), old(freed))
    {
      waiters := waiters - 1;
      return ETIMEDOUT;
    }

    method ReturnBuffer(h: Handle) returns (code: int)
      modifies this`memAllocBuffers, this`pendingBufferCount, this`clientBufferCount, this`calls
      ensures Did(StreamPool.ReturnBuffer(old(View()), h), code, old(calls), old(freed))
    {
      if status.Initialized? || pendingBufferCount == 0 {
        return ENOSYS;
      }
      if h !in memAllocBuffers {
        return EINVAL;
      }
      memAllocBuffers := memAllocBuffers[h := true];
      pendingBufferCount := pendingBufferCount - 1;
      clientBufferCount := Dec(clientBufferCount);
      if pendingBufferCount == 0 && !status.ConfigActive? && !status.ReconfigActive? {
        calls := calls + [ToIdle(monitorId)];
      }
      return OK;
    }

    /** The first critical section of a buffer on its way to the client. */
    method ToClient(h: Handle)
      modifies this`halBufferCount, this`clientBufferCount, this`isStreamActive
      ensures Did(Apply(old(View()), ToClientOp(h)), OK, old(calls), old(freed))
    {
      halBufferCount := Dec(halBufferCount);
      clientBufferCount := Inc(clientBufferCount);
      isStreamActive := true;
    }

    /** A failed buffer goes back in a second critical section. */
    method ReturnBufferToClient(h: Handle, good: bool) returns (code: int)
      modifies this`memAllocBuffers, this`pendingBufferCount, this`clientBufferCount, this`calls,
        this`halBufferCount, this`isStreamActive
      ensures Did(StreamPool.ReturnBufferToClient(old(View()), h, good), code, old(calls), old(freed))
    {
      ToClient(h);
      code := OK;
      if !good {
        code := ReturnBuffer(h);
      }
    }

    // -------------------------------------------------------------- preparation

    method BeginPrepare() returns (code: int)
      modifies this`preparedBuffersCount, this`status
      ensures Did(StreamPool.BeginPrepare(old(View())), code, old(calls), old(freed))
    {
      if !status.Configured? || isStreamActive || pendingBufferCount > 0 {
        return ENOSYS;
      }
      preparedBuffersCount := 0;
      status := PrepareActive;
      return ENODATA;
    }

    method PrepareBuffer(allocator: Option<Handle>) returns (code: int)
      requires Valid()
      modifies this`memAllocBuffers, this`hwBufferAllocated, this`preparedBuffersCount, this`status, memAllocSlots
      ensures Did(StreamPool.PrepareBuffer(old(View()), allocator), code, old(calls), old(freed))
    {
      if !status.PrepareActive? {
        return ENOSYS;
      }
      if hwBufferAllocated >= totalBufferCount || allocator.None? {
        return ENODEV;
      }
      Register(allocator.value, true);
      preparedBuffersCount := preparedBuffersCount + 1;
      if preparedBuffersCount < totalBufferCount {
        return ENODATA;
      }
      code := EndPrepare();
    }

    method EndPrepare() returns (code: int)
      modifies this`preparedBuffersCount, this`status
      ensures Did(StreamPool.EndPrepare(old(View())), code, old(calls), old(freed))
    {
      if !status.PrepareActive? {
        return ENOSYS;
      }
      preparedBuffersCount := 0;
      status := Configured;
      return OK;
    }
  }
}
