/**
 The output stream of the camera adaptor as values: a pool of at most `total` buffers with a six-state
 configuration lifecycle. Each function is one critical section of the stream; choices made by the allocator,
 the monitor and the scheduler are arguments.
 */
module StreamPool {
  import opened Common

  /** Buffer handles; 0 is the null handle. */
  type Handle = nat

  const WORD: nat := 0x1_0000_0000

  const OK := 0
  const ENOMEM := -12
  const ENODEV := -19
  const EINVAL := -22
  const ENOSYS := -38
  const ENODATA := -61
  const ENOTCONN := -107
  const ETIMEDOUT := -110
  const INVALID_ID := -1

  datatype Status = Failed | Initialized | ConfigActive | ReconfigActive | Configured | PrepareActive

  /** The buffers obtained so far, each free or out, and the slots that remember the order they came in. */
  datatype Pool = Pool(total: nat, slots: seq<Handle>, slotCount: nat, buffers: map<Handle, bool>, pending: nat) {
    /** Handles that are out, at the HAL or at the client. */
    function Busy(): set<Handle> { set h | h in buffers && !buffers[h] }

    predicate NoneFree() { forall h | h in buffers :: !buffers[h] }

    /** The pool may grow. The slot array has `total` places from the first configuration on. */
    predicate Room() { slotCount < total == |slots| }

    /** `h` is a handle a request may get: a free one, or else one just allocated. */
    predicate Obtainable(h: Handle) {
      if h in buffers then buffers[h] else h != 0 && NoneFree() && Room()
    }

    function Register(h: Handle, free: bool): Pool
      requires Room()
    {
      this.(slots := slots[slotCount := h], buffers := buffers[h := free], slotCount := slotCount + 1)
    }

    function HandOut(h: Handle): Pool
      requires Obtainable(h)
    {
      (if h in buffers then this.(buffers := buffers[h := false]) else Register(h, false)).(pending := pending + 1)
    }

    function TakeBack(h: Handle): Pool
      requires h in buffers && pending > 0
    {
      this.(buffers := buffers[h := true], pending := pending - 1)
    }
  }

  /** What the stream asks the allocator for. */
  datatype Ask = Ask(usage: int, maxBuffers: nat)

  datatype Stream = Stream(
    status: Status,
    pool: Pool,
    halCount: nat,
    clientCount: nat,
    monitorId: int,
    active: bool,
    prepared: nat,
    ask: Ask,
    oldAsk: Ask,
    clientAsk: Ask,
    waiters: nat)
  {
    predicate Configuring() { status.ConfigActive? || status.ReconfigActive? }

    /** Statuses in which the pool can be asked for a buffer. */
    predicate Serving() { status.Configured? || Configuring() || status.PrepareActive? }

    /** Places a new configuration needs. */
    function Demand(): nat { if clientAsk.maxBuffers > ask.maxBuffers then clientAsk.maxBuffers else ask.maxBuffers }
  }

  function NewStream(ask: Ask): Stream {
    Stream(Initialized, Pool(0, [], 0, map[], 0), 0, 0, INVALID_ID, false, 0, ask, Ask(0, 0), ask, 0)
  }

  /** A request to the monitor. */
  datatype Call = Release(id: int) | ToIdle(id: int) | ToActive(id: int)

  /** The new stream, the result code, the monitor requests in order and the handles freed. */
  datatype Done = Done(stream: Stream, code: int, calls: seq<Call>, freed: set<Handle>)

  /** Nothing asked of the monitor or of the allocator. */
  function Plain(s: Stream, code: int): Done { Done(s, code, [], {}) }

  /** 32-bit counters. */
  function Inc(x: nat): nat { if x + 1 == WORD then 0 else x + 1 }
  function Dec(x: nat): nat { if x == 0 then WORD - 1 else x - 1 }

  // ---------------------------------------------------------------- configuration

  function BeginConfigure(s: Stream): Done {
    match s.status
    case Failed => Plain(s, ENOSYS)
    case PrepareActive => Plain(s, ENOSYS)
    case ConfigActive => Plain(s, OK)
    case ReconfigActive => Plain(s, OK)
    case _ =>
      Done(s.(ask := s.clientAsk, monitorId := INVALID_ID,
              status := if s.status.Initialized? then ConfigActive else ReconfigActive),
           OK, if s.monitorId != INVALID_ID then [Release(s.monitorId)] else [], {})
  }

  function CloseLocked(s: Stream): Done {
    if !s.status.ReconfigActive? && !s.status.Configured? then Plain(s, ENOTCONN)
    else if s.pool.pending > 0 then Plain(s, ENOSYS)
    else Done(s.(pool := s.pool.(buffers := map[]),
                 status := if s.status.ReconfigActive? then ConfigActive else Initialized),
              OK, [], s.pool.buffers.Keys)
  }

  /** Sets up the pool of a configuration under way; an earlier pool must close first. The new slots hold anything. */
  function ConfigureLocked(s: Stream, unset: seq<Handle>): Done {
    var closed :=
      if s.status.ReconfigActive? then CloseLocked(s)
      else Plain(s, if s.status.ConfigActive? then OK else ENOSYS);
    if closed.code != OK then closed
    else Done(closed.stream.(pool := Pool(s.Demand(), unset, 0, map[], 0), active := false),
              OK, [], s.pool.buffers.Keys)
  }

  predicate SameAsk(s: Stream) { s.status.ReconfigActive? && s.ask == s.oldAsk }

  /** Ends a configuration with the monitor id obtained for it; a negative id is the monitor's error. */
  function EndConfigure(s: Stream, id: int, unset: seq<Handle>): Done {
    if !s.Configuring() then Plain(s, ENOSYS)
    else
      var s1 := s.(monitorId := id);
      if id < 0 then Plain(s1, id)
      else if SameAsk(s) then Plain(s1.(status := Configured), OK)
      else
        var d := ConfigureLocked(s1, unset);
        if d.code != OK then d.(stream := d.stream.(status := Failed))
        else d.(stream := d.stream.(status := Configured, oldAsk := s.ask))
  }

  function AbortConfigure(s: Stream): Done {
    if !s.Configuring() then Plain(s, ENOSYS)
    else Plain(s.(ask := s.oldAsk, status := if s.status.ReconfigActive? then Configured else Initialized), OK)
  }

  function TearDown(s: Stream): Done {
    if !s.status.Configured? || s.pool.pending > 0 then Plain(s, ENOSYS)
    else
      var s1 := s.(active := false, pool := s.pool.(slots := seq(|s.pool.slots|, i => 0)));
      if s.pool.slotCount == 0 then Plain(s1, OK)
      else Done(s1.(pool := s1.pool.(buffers := map[], slotCount := 0)), OK, [], s.pool.buffers.Keys)
  }

  function Close(s: Stream): Done {
    var d := CloseLocked(s);
    if d.code == ENOTCONN then d.(code := OK) else d
  }

  // ---------------------------------------------------------------- buffers

  /** Hands `h` to the HAL. */
  function HandOut(s: Stream, h: Handle): Done
    requires s.pool.Obtainable(h)
  {
    Done(s.(pool := s.pool.HandOut(h), halCount := Inc(s.halCount)), OK,
         if s.pool.pending == 0 && !s.Configuring() then [ToActive(s.monitorId)] else [], {})
  }

  /** The code of a request that finds no buffer: the allocator failed, or the pool is full and all out. */
  function NoBuffer(s: Stream): int {
    if s.pool.NoneFree() && s.pool.slotCount < s.pool.total then ENOMEM else ENOSYS
  }

  /** A request for a buffer; `got` is the handle it obtains, if any. */
  function GetBufferLocked(s: Stream, got: Option<Handle>): Done {
    if !s.Serving() then Plain(s, ENOSYS)
    else if got.Some? && s.pool.Obtainable(got.value) then HandOut(s, got.value)
    else Plain(s, NoBuffer(s))
  }

  /** Takes `h` back from the HAL or from the client. */
  function ReturnBuffer(s: Stream, h: Handle): Done {
    if s.status.Initialized? || s.pool.pending == 0 then Plain(s, ENOSYS)
    else if h !in s.pool.buffers then Plain(s, EINVAL)
    else
      Done(s.(pool := s.pool.TakeBack(h), clientCount := Dec(s.clientCount)), OK,
           if s.pool.pending == 1 && !s.Configuring() then [ToIdle(s.monitorId)] else [], {})
  }

  /** A filled buffer is now the client's, or, if its status is an error, about to come back. */
  function ToClient(s: Stream): Stream {
    s.(halCount := Dec(s.halCount), clientCount := Inc(s.clientCount), active := true)
  }

  /**
   Passes a filled buffer on to the client, or straight back to the pool when its status is an error. The lock is
   released in between, so that in a run other operations may come between the two steps.
   */
  function ReturnBufferToClient(s: Stream, h: Handle, good: bool): Done {
    if good then Plain(ToClient(s), OK) else ReturnBuffer(ToClient(s), h)
  }

  // ---------------------------------------------------------------- preparation

  function BeginPrepare(s: Stream): Done {
    if !s.status.Configured? || s.active || s.pool.pending > 0 then Plain(s, ENOSYS)
    else Plain(s.(prepared := 0, status := PrepareActive), ENODATA)
  }

  /** Adds one buffer to the pool; `h` is the allocator's answer. */
  function PrepareBuffer(s: Stream, h: Option<Handle>): Done {
    if !s.status.PrepareActive? then Plain(s, ENOSYS)
    else if !s.pool.Room() || h.None? then Plain(s, ENODEV)
    else
      var s1 := s.(pool := s.pool.Register(h.value, true), prepared := s.prepared + 1);
      if s1.prepared < s.pool.total then Plain(s1, ENODATA) else Plain(s1.(prepared := 0, status := Configured), OK)
  }

  function EndPrepare(s: Stream): Done {
    if !s.status.PrepareActive? then Plain(s, ENOSYS) else Plain(s.(prepared := 0, status := Configured), OK)
  }

  // ---------------------------------------------------------------- operations

  /**
   One call, with the choices of its surroundings. A buffer request that finds every buffer out waits (`Wait`);
   the caller then times out or goes on (`Resume`), in whatever state the stream is by then. `HalAdjusts` is the
   HAL changing what the stream asks for while a configuration is under way.
   */
  datatype Op =
    | BeginConfigureOp
    | HalAdjusts(ask: Ask)
    | EndConfigureOp(id: int, unset: seq<Handle>)
    | AbortConfigureOp
    | TearDownOp
    | CloseOp
    | BeginPrepareOp
    | PrepareBufferOp(added: Option<Handle>)
    | EndPrepareOp
    | GetBufferOp(got: Option<Handle>)
    | Wait
    | Resume(late: Option<Handle>)
    | Timeout
    | ReturnBufferOp(handle: Handle)
    | ToClientOp(filled: Handle)

  predicate AllOut(s: Stream) { s.status.Configured? && s.pool.pending == s.pool.total }

  function Apply(s: Stream, op: Op): Done {
    match op
    case BeginConfigureOp => BeginConfigure(s)
    case HalAdjusts(ask) => Plain(if s.Configuring() then s.(ask := ask) else s, OK)
    case EndConfigureOp(id, unset) => EndConfigure(s, id, unset)
    case AbortConfigureOp => AbortConfigure(s)
    case TearDownOp => TearDown(s)
    case CloseOp => Close(s)
    case BeginPrepareOp => BeginPrepare(s)
    case PrepareBufferOp(h) => PrepareBuffer(s, h)
    case EndPrepareOp => EndPrepare(s)
    case GetBufferOp(got) =>
      if !s.status.Configured? || AllOut(s) then Plain(s, ENOSYS) else GetBufferLocked(s, got)
    case Wait => Plain(if AllOut(s) then s.(waiters := s.waiters + 1) else s, OK)
    case Resume(late) =>
      if s.waiters == 0 then Plain(s, ENOSYS) else GetBufferLocked(s.(waiters := s.waiters - 1), late)
    case Timeout => Plain(if s.waiters > 0 then s.(waiters := s.waiters - 1) else s, ETIMEDOUT)
    case ReturnBufferOp(h) => ReturnBuffer(s, h)
    case ToClientOp(_) => Plain(ToClient(s), OK)
  }
}
