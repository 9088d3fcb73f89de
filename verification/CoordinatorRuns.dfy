/**
 The coordinator as a whole: control requests, worker connections and workers, interleaved step by step.
 Every section under a lock, and every step between two sections of a request, is one event.
 */
module CoordinatorRuns {
  import opened Basics
  import opened Records
  import opened Authorities
  import opened Capacity
  import opened Fabrics
  import opened FabricRuns
  import opened AdapterCodec
  import opened Codec
  import opened Envelope
  import opened Protocol
  import opened Workers
  import opened Coordinators
  import Uuids

  /** The control requests that are forwarded to a worker. */
  datatype Command =
    | Load(fence: AuthorityFence)
    | Activate(fence: AuthorityFence)
    | Deactivate(adapter: Uuid)
    | Migrate(fence: AuthorityFence)
    | Invalidation(adapter: Uuid, reason: Bytes)
    | Eviction(inst: Uuid)

  /** How far a request has come; from `Begun` to `Answered` it is being forwarded. */
  datatype Phase =
    | Start | Checked | Begun | Drawn | Found | Inserted | Waiting | Woken | Answered | Recorded | Finished

  /** A request id of 0 and a nil instance mean "none yet". */
  datatype Task = Task(cmd: Command, worker: Bytes, phase: Phase, req: u64, inst: Uuid, ack: Message, ok: bool)

  datatype Link = Announced | Serving | Holding(msg: Message) | Lost | Aborted | Gone

  /**
   The shared state, the requests and worker connections in progress, and what has happened so far:
   instance ids generated, commands sent, replies accepted while their request was pending, and replies
   workers made to commands they handled.
   */
  datatype System = System(
    shared: Shared, tasks: map<nat, Task>, links: map<nat, Link>,
    generated: set<Uuid>,
    sent: map<u64, Message>, received: set<Message>, replies: set<Message>)

  datatype Event =
    | NewTask(i: nat, cmd: Command, worker: Bytes)
    | Check(i: nat)
    | Create(i: nat, inst: Uuid)
    | Begin(i: nat)
    | DrawId(i: nat)
    | Lookup(i: nat)
    | InsertEntry(i: nat)
    | Send(i: nat, delivered: bool)
    | Take(i: nat)
    | EraseEntry(i: nat)
    | Commit(i: nat)
    | Record(i: nat)
    | Direct(op: FabricOp)
    | NewSlot(l: nat, text: Bytes, slot: Slot)
    | Attach(l: nat, node: Uuid)
    | Receive(l: nat, msg: Message)
    | PostHeld(l: nat)
    | LoseSlot(l: nat)
    | AbortPending(l: nat)
    | Detach(l: nat)
    | Vanish(l: nat)
    | Handle(req: u64, reply: Message)

  /** The command forwarded for a request. */
  function Forwarded(t: Task): Message {
    match t.cmd
    case Load(f) =>
      Blank(WK_LOAD).(text := Uuids.Text(f.adapter), text2 := Uuids.Text(t.inst), payload := Seal(Encode(FenceVal(f))),
                      reqId := t.req)
    case Activate(f) =>
      Blank(WK_ACTIVATE).(text := Uuids.Text(f.adapter), payload := Seal(Encode(FenceVal(f))), reqId := t.req)
    case Deactivate(a) => Blank(WK_DEACTIVATE).(text := Uuids.Text(a), reqId := t.req)
    case Migrate(f) =>
      Blank(WK_MIGRATE).(text := Uuids.Text(f.adapter), text2 := t.worker, payload := Seal(Encode(FenceVal(f))),
                         reqId := t.req)
    case Invalidation(a, _) => Blank(WK_INVALIDATE).(text := Uuids.Text(a), reqId := t.req)
    case Eviction(inst) => Blank(WK_DEACTIVATE).(text := Uuids.Text(inst), reqId := t.req)
  }

  predicate At(s: System, i: nat, phase: Phase) { i in s.tasks && s.tasks[i].phase == phase }
  predicate LinkIs(s: System, l: nat, link: Link) { l in s.links && s.links[l] == link && l in s.shared.slots }

  /** Requests settled in one section: register_adapter, compose, pin, unpin and epoch. */
  predicate OneSection(op: FabricOp) {
    (op.EpochOp? || op.AdapterOp? || op.ComposeOp? || op.PinOp? || op.UnpinOp?) && FromWire(op)
  }

  predicate Enabled(s: System, e: Event) {
    match e
    case NewTask(i, _, _) => i !in s.tasks
    case Check(i) => At(s, i, Start) && (s.tasks[i].cmd.Load? || s.tasks[i].cmd.Activate?)
    case Create(i, inst) => At(s, i, Checked) && s.tasks[i].cmd.Load? && inst !in s.generated && inst != NIL
    case Begin(i) => At(s, i, Start) && !s.tasks[i].cmd.Load? && !s.tasks[i].cmd.Activate?
    case DrawId(i) => At(s, i, Begun) && s.shared.nextReq < U64_MAX
    case Lookup(i) => At(s, i, Drawn)
    case InsertEntry(i) => At(s, i, Found)
    case Send(i, _) => At(s, i, Inserted)
    case Take(i) => At(s, i, Waiting) && s.tasks[i].req in s.shared.entries && s.shared.entries[s.tasks[i].req].done
    case EraseEntry(i) => At(s, i, Woken)
    case Commit(i) => At(s, i, Answered)
    case Record(i) => At(s, i, Recorded)
    case Direct(op) => OneSection(op)
    case NewSlot(l, _, slot) => l !in s.links && slot.connected && Short(slot.address)
    case Attach(l, _) => LinkIs(s, l, Announced)
    case Receive(l, _) => LinkIs(s, l, Serving)
    case PostHeld(l) => l in s.links && s.links[l].Holding?
    case LoseSlot(l) => LinkIs(s, l, Serving)
    case AbortPending(l) => LinkIs(s, l, Lost)
    case Detach(l) => LinkIs(s, l, Aborted)
    case Vanish(l) => LinkIs(s, l, Serving)
    case Handle(req, reply) => req in s.sent && Answers(reply, s.sent[req])
  }

  /** What a shipped worker answers: a load acknowledges at least one byte. */
  predicate Answers(reply: Message, command: Message) {
    && AnswerOf(reply, command)
    && (command.kind == WK_LOAD ==> reply.a == if command.a == 0 then 1 else command.a)
  }

  function Put(s: System, i: nat, t: Task): System {
    s.(tasks := s.tasks[i := t])
  }

  function DoCheck(s: System, i: nat): System
    requires i in s.tasks && (s.tasks[i].cmd.Load? || s.tasks[i].cmd.Activate?)
  {
    var t := s.tasks[i];
    if CheckFence(s.shared.fabric, t.cmd.fence) != Authorized then Put(s, i, t.(phase := Finished, ok := false))
    else Put(s, i, t.(phase := if t.cmd.Load? then Checked else Begun))
  }

  function DoCreate(s: System, i: nat, inst: Uuid): System
    requires i in s.tasks && s.tasks[i].cmd.Load?
  {
    var t := s.tasks[i];
    var (shared, res) := CreateSection(s.shared, t.cmd.fence, inst);
    if res.Err? then Put(s, i, t.(phase := Finished, ok := false))
    else Put(s, i, t.(phase := Begun, inst := inst)).(shared := shared, generated := s.generated + {inst})
  }

  /** A load whose instance exists but whose reply has not been committed. */
  predicate Uncommitted(t: Task) {
    t.cmd.Load? && t.inst != NIL && t.phase in {Begun, Drawn, Found, Inserted, Waiting, Woken, Answered}
  }

  const MANUAL: byte := 11

  /** The first section of a request that is not checked: only invalidation and eviction have one. */
  function BeginSection(s: Shared, cmd: Command): Shared {
    match cmd
    case Invalidation(a, reason) => s.(fabric := Invalidate(s.fabric, a, MANUAL, reason).0)
    case Eviction(inst) => EvictSection(s, inst).0
    case _ => s
  }

  function BeginResult(s: Shared, cmd: Command): bool {
    cmd.Invalidation? || (cmd.Eviction? && EvictSection(s, cmd.inst).1 == EvictedNow)
  }

  function DoBegin(s: System, i: nat): System
    requires i in s.tasks
  {
    var t := s.tasks[i];
    var ok := BeginResult(s.shared, t.cmd);
    Put(s, i, t.(phase := Begun, ok := ok)).(shared := BeginSection(s.shared, t.cmd))
  }

  function DoSend(s: System, i: nat, delivered: bool): System
    requires i in s.tasks
  {
    var t := s.tasks[i];
    if delivered then Put(s, i, t.(phase := Waiting)).(sent := s.sent[t.req := Forwarded(t)])
    else Put(s, i, t.(phase := Answered, ack := UNSENT)).(shared := Erase(s.shared, t.req))
  }

  /** The section after the reply: a load and an activation take effect only on a good one. */
  function ReplySection(s: Shared, t: Task): Shared {
    match t.cmd
    case Load(_) => if t.ack.ok then CommitSection(s, t.inst, t.ack.a) else s
    case Activate(f) => if t.ack.ok then BindSection(s, f).0 else s
    case Deactivate(a) => s.(fabric := MarkReady(s.fabric, a))
    case _ => s
  }

  function ReplyResult(s: Shared, t: Task): bool {
    match t.cmd
    case Load(_) => t.ack.ok
    case Activate(f) => t.ack.ok && BindSection(s, f).1 == Ok(Authorized)
    case Deactivate(_) => t.ack.ok
    case Migrate(_) => t.ack.ok
    case _ => t.ok
  }

  function DoCommit(s: System, i: nat): System
    requires i in s.tasks
  {
    var t := s.tasks[i];
    var ok := ReplyResult(s.shared, t);
    Put(s, i, t.(phase := if t.cmd.Load? && ok then Recorded else Finished, ok := ok)).(
      shared := ReplySection(s.shared, t))
  }

  function DoRecord(s: System, i: nat): System
    requires i in s.tasks
  {
    var t := s.tasks[i];
    var a := if t.cmd.Load? then t.cmd.fence.adapter else NIL;
    Put(s, i, t.(phase := Finished, ok := true)).(shared := s.shared.(fabric := MarkReady(s.shared.fabric, a)))
  }

  function DoNewTask(s: System, i: nat, cmd: Command, worker: Bytes): System {
    Put(s, i, Task(cmd, worker, Start, 0, NIL, Blank(0x50), false))
  }

  function DoDraw(s: System, i: nat): System
    requires i in s.tasks && s.shared.nextReq < U64_MAX
  {
    Put(s, i, s.tasks[i].(phase := Drawn, req := s.shared.nextReq)).(shared := Draw(s.shared))
  }

  function DoLookup(s: System, i: nat): System
    requires i in s.tasks
  {
    var t := s.tasks[i];
    Put(s, i, if Reachable(s.shared, t.worker) then t.(phase := Found) else t.(phase := Answered, ack := UNREACHABLE))
  }

  function DoInsert(s: System, i: nat): System
    requires i in s.tasks
  {
    Put(s, i, s.tasks[i].(phase := Inserted)).(shared := Insert(s.shared, s.tasks[i].req))
  }

  function DoTake(s: System, i: nat): System
    requires i in s.tasks && s.tasks[i].req in s.shared.entries
  {
    Put(s, i, s.tasks[i].(phase := Woken, ack := s.shared.entries[s.tasks[i].req].result))
  }

  function DoErase(s: System, i: nat): System
    requires i in s.tasks
  {
    Put(s, i, s.tasks[i].(phase := Answered)).(shared := Erase(s.shared, s.tasks[i].req))
  }

  function DoReceive(s: System, l: nat, msg: Message): System {
    if Finds(s.shared, msg) then s.(links := s.links[l := Holding(msg)], received := s.received + {msg}) else s
  }

  function DoPost(s: System, l: nat): System
    requires l in s.links && s.links[l].Holding?
  {
    s.(links := s.links[l := Serving], shared := Post(s.shared, s.links[l].msg))
  }

  function DoAbort(s: System, l: nat): System {
    s.(links := s.links[l := Link.Aborted], shared := AbortAll(s.shared))
  }

  function Do(s: System, e: Event): System
    requires Enabled(s, e)
  {
    match e
    case NewTask(i, cmd, worker) => DoNewTask(s, i, cmd, worker)
    case Check(i) => DoCheck(s, i)
    case Create(i, inst) => DoCreate(s, i, inst)
    case Begin(i) => DoBegin(s, i)
    case DrawId(i) => DoDraw(s, i)
    case Lookup(i) => DoLookup(s, i)
    case InsertEntry(i) => DoInsert(s, i)
    case Send(i, delivered) => DoSend(s, i, delivered)
    case Take(i) => DoTake(s, i)
    case EraseEntry(i) => DoErase(s, i)
    case Commit(i) => DoCommit(s, i)
    case Record(i) => DoRecord(s, i)
    case Direct(op) => s.(shared := s.shared.(fabric := FabricRuns.Apply(s.shared.fabric, op)))
    case NewSlot(l, text, slot) => s.(links := s.links[l := Announced], shared := SlotUp(s.shared, l, text, slot))
    case Attach(l, node) => s.(links := s.links[l := Serving], shared := WorkerUp(s.shared, l, node))
    case Receive(l, msg) => DoReceive(s, l, msg)
    case PostHeld(l) => DoPost(s, l)
    case LoseSlot(l) => s.(links := s.links[l := Lost], shared := SlotDown(s.shared, l))
    case AbortPending(l) => DoAbort(s, l)
    case Detach(l) => s.(links := s.links[l := Gone], shared := WorkerGone(s.shared, l))
    case Vanish(l) => s.(links := s.links[l := Gone])
    case Handle(req, reply) => s.(replies := s.replies + {reply})
  }

  /** A coordinator that has just been started. */
  ghost predicate Init(s: System) {
    && s.shared.fabric == FRESH && s.shared.cap.held == map[]
    && Balanced(s.shared.cap) && WithinLimits(s.shared.cap)
    && s.shared.workers == map[] && s.shared.slots == map[] && s.shared.pending == {} && s.shared.entries == map[]
    && s.shared.nextReq == 1
    && s.tasks == map[] && s.links == map[] && s.generated == {}
    && s.sent == map[] && s.received == {} && s.replies == {}
  }

  /** An event that is not enabled does not happen. */
  function Step(s: System, e: Event): System {
    if Enabled(s, e) then Do(s, e) else s
  }

  function After(s: System, es: seq<Event>): System {
    if es == [] then s else Step(After(s, es[..|es| - 1]), es[|es| - 1])
  }

  // ---- what an event does to the fabric ----

  function FabricOps(s: System, e: Event): seq<FabricOp>
    requires Enabled(s, e)
  {
    match e
    case Create(i, inst) =>
      var f := s.tasks[i].cmd.fence;
      var bytes := if f.adapter in s.shared.fabric.adapters then s.shared.fabric.adapters[f.adapter].memoryBytes else 0;
      [CreateOp(f.adapter, f.worker, f.boot, f.device, bytes, inst)]
    case Begin(i) => BeginOps(s.tasks[i])
    case Commit(i) => CommitOps(s.tasks[i])
    case Record(i) => [ReadyOp(if s.tasks[i].cmd.Load? then s.tasks[i].cmd.fence.adapter else NIL)]
    case Direct(op) => [op]
    case Attach(l, node) => [JoinOp(s.shared.slots[l].id, s.shared.slots[l].boot, s.shared.slots[l].address, node)]
    case Detach(l) => [DownOp(s.shared.slots[l].id)]
    case _ => []
  }

  function BeginOps(t: Task): seq<FabricOp> {
    match t.cmd
    case Invalidation(a, reason) => [InvalidateOp(a, MANUAL, reason)]
    case Eviction(inst) => [EvictOp(inst)]
    case _ => []
  }

  function CommitOps(t: Task): seq<FabricOp> {
    match t.cmd
    case Load(_) => if t.ack.ok then [LoadedOp(t.inst, t.ack.a)] else []
    case Activate(f) => if t.ack.ok then [BindOp(f)] else []
    case Deactivate(a) => [ReadyOp(a)]
    case _ => []
  }

  lemma OneOp(s: FabricState, op: FabricOp)
    ensures Run(s, [op]) == FabricRuns.Apply(s, op) && Run(s, []) == s
  {
    assert [op][..0] == [];
  }

  lemma CreateOnFabric(s: System, i: nat, inst: Uuid)
    requires Enabled(s, Create(i, inst))
    ensures DoCreate(s, i, inst).shared.fabric == FabricRuns.Apply(s.shared.fabric, FabricOps(s, Create(i, inst))[0])
  {
  }

  lemma BeginOnFabric(s: System, i: nat)
    requires Enabled(s, Begin(i))
    ensures var ops := BeginOps(s.tasks[i]);
      DoBegin(s, i).shared.fabric == if ops == [] then s.shared.fabric else FabricRuns.Apply(s.shared.fabric, ops[0])
  {
    hide Invalidate, Evict, Release;
  }

  lemma CommitOnFabric(s: System, i: nat)
    requires Enabled(s, Commit(i))
    ensures var ops := CommitOps(s.tasks[i]);
      DoCommit(s, i).shared.fabric == if ops == [] then s.shared.fabric else FabricRuns.Apply(s.shared.fabric, ops[0])
  {
    hide MarkLoaded, MarkReady, BindAuthority, Reserve;
  }

  /** Events between sections, and sections on the other tables, leave the fabric alone. */
  predicate Quiet(e: Event) {
    !(e.Create? || e.Begin? || e.Commit? || e.Record? || e.Direct? || e.Attach? || e.Detach?)
  }

  lemma QuietOnFabric(s: System, e: Event)
    requires Enabled(s, e) && Quiet(e)
    ensures Do(s, e).shared.fabric == s.shared.fabric && FabricOps(s, e) == []
  {
    hide CheckFence, Forwarded, OneSection, Answers;
  }

  lemma LoudOnFabric(s: System, e: Event)
    requires Enabled(s, e) && (e.Record? || e.Direct? || e.Attach? || e.Detach?)
    ensures |FabricOps(s, e)| == 1
    ensures Do(s, e).shared.fabric == FabricRuns.Apply(s.shared.fabric, FabricOps(s, e)[0])
  {
    hide Join, OnWorkerDown, MarkReady, OneSection, DoCreate, DoBegin, DoCommit, DoCheck, DoSend, DoReceive, DoPost;
  }

  lemma EventOnFabric(s: System, e: Event)
    requires Enabled(s, e)
    ensures |FabricOps(s, e)| <= 1
    ensures Do(s, e).shared.fabric == Run(s.shared.fabric, FabricOps(s, e))
  {
    hide Run, DoCreate, DoBegin, DoCommit, DoRecord, DoCheck, DoSend, DoReceive, DoPost, FabricRuns.Apply, OneSection,
         Answers;
    var f := s.shared.fabric;
    var ops := FabricOps(s, e);
    OneOp(f, if ops == [] then EpochOp else ops[0]);
    assert |ops| == 1 ==> ops == [ops[0]];
    if Quiet(e) {
      QuietOnFabric(s, e);
    } else if e.Create? {
      CreateOnFabric(s, e.i, e.inst);
    } else if e.Begin? {
      BeginOnFabric(s, e.i);
    } else if e.Commit? {
      CommitOnFabric(s, e.i);
    } else {
      LoudOnFabric(s, e);
    }
  }

  /** The fabric operations of a run, in order. */
  function FabricTrace(s: System, es: seq<Event>): seq<FabricOp> {
    if es == [] then []
    else
      var before := es[..|es| - 1];
      FabricTrace(s, before) +
      if Enabled(After(s, before), es[|es| - 1]) then FabricOps(After(s, before), es[|es| - 1]) else []
  }

  lemma {:induction false} RunConcat(s: FabricState, xs: seq<FabricOp>, ys: seq<FabricOp>)
    ensures Run(s, xs + ys) == Run(Run(s, xs), ys)
  {
    hide FabricRuns.Apply;
    if ys == [] {
      assert xs + ys == xs;
    } else {
      var all := xs + ys;
      assert all[..|all| - 1] == xs + ys[..|ys| - 1];
      RunConcat(s, xs, ys[..|ys| - 1]);
    }
  }

  /**
   However requests, replies and disconnects interleave, the coordinator's fabric is what some
   sequence of fabric operations makes of it, all of them within the bounds of the wire.
   */
  lemma {:induction false} InterleavingsAreFabricRuns(s: System, es: seq<Event>)
    requires SlotsFromWire(s)
    ensures SlotsFromWire(After(s, es)) && AllFromWire(FabricTrace(s, es))
    ensures After(s, es).shared.fabric == Run(s.shared.fabric, FabricTrace(s, es))
  {
    hide Run, Enabled, Do, FabricOps, SlotsFromWire, AllFromWire;
    if es == [] {
      NoOps(s.shared.fabric);
    } else {
      var before, e := es[..|es| - 1], es[|es| - 1];
      InterleavingsAreFabricRuns(s, before);
      var t := After(s, before);
      if Enabled(t, e) {
        EventOnFabric(t, e);
        RunConcat(s.shared.fabric, FabricTrace(s, before), FabricOps(t, e));
        EventsFromWire(t, e);
        WireConcat(FabricTrace(s, before), FabricOps(t, e));
      } else {
        assert FabricTrace(s, es) == FabricTrace(s, before);
      }
    }
  }

  lemma NoOps(s: FabricState)
    ensures Run(s, []) == s && AllFromWire([])
  {
  }

  lemma WireConcat(xs: seq<FabricOp>, ys: seq<FabricOp>)
    requires AllFromWire(xs) && AllFromWire(ys)
    ensures AllFromWire(xs + ys)
  {
  }

  predicate SlotsFromWire(s: System) {
    forall l <- s.shared.slots :: Short(s.shared.slots[l].address)
  }

  lemma EventsFromWire(s: System, e: Event)
    requires Enabled(s, e) && SlotsFromWire(s)
    ensures AllFromWire(FabricOps(s, e)) && SlotsFromWire(Do(s, e))
  {
    hide CheckFence, Join, OnWorkerDown, MarkReady, Answers, AdapterOk, FabricRuns.Apply, Invalidate, Evict,
         BindAuthority, CreateInstance, MarkLoaded, Reserve, Release, Forwarded;
  }

  predicate Authoritative(f: FabricState, a: Uuid) { a in f.authority && f.authority[a].hasAuthority }

  /**
   In every reachable state of the coordinator at most one record has authority; it names a live
   worker process and the recorded attempt; and the registries are fit to be saved.
   */
  lemma CoordinatorIsSafe(s: System, es: seq<Event>)
    requires Init(s)
    ensures var f := After(s, es).shared.fabric;
      && AuthoritySafe(f) && RegistrySafe(f)
      && forall a, b :: Authoritative(f, a) && Authoritative(f, b) ==>
           a == b && f.activeFence == Some(f.authority[a].fence)
  {
    hide Run, After, RegistrySafe;
    InterleavingsAreFabricRuns(s, es);
    var ops := FabricTrace(s, es);
    FreshIsSafe();
    RunKeepsAuthority(FRESH, ops);
    RunKeepsRegistry(FRESH, ops);
    var f := After(s, es).shared.fabric;
    assert forall a <- f.authority :: RecordSafe(f, a);
  }

  lemma FreshIsSafe()
    ensures RegistrySafe(FRESH) && AuthoritySafe(FRESH)
  {
  }
}
