/**
 The state the coordinator's threads share, and its critical sections (src/coordinator.cpp): each section
 runs under one lock, and is one atomic step here.
 */
module Coordinators {
  import opened Basics
  import opened Records
  import opened Authorities
  import opened Compositions
  import opened Capacity
  import opened Fabrics
  import opened FabricRuns
  import opened Protocol
  import opened Workers
  import Uuids

  /** A waiting request: whether it is done, and what it was answered. */
  datatype Pending = Pending(done: bool, result: Message)

  datatype Slot = Slot(id: Uuid, boot: Uuid, address: Bytes, connected: bool)

  /**
   Slots and pending entries are shared objects: `slots` and `entries` hold them under a handle, which
   for a pending entry is its request id. `workers` and `pending` are the coordinator's two tables.
   */
  datatype Shared = Shared(
    fabric: FabricState, cap: CapState, workers: map<Bytes, nat>, slots: map<nat, Slot>,
    pending: set<u64>, entries: map<u64, Pending>, nextReq: u64)

  function Failure(text: string): Message { Blank(WK_ERROR).(text := Ascii(text)) }

  const DISCONNECTED: Message := Failure("worker disconnected")
  const UNREACHABLE: Message := Failure("unknown or disconnected worker")
  const UNSENT: Message := Failure("send to worker failed")

  // ---- sections run for a worker connection ----

  function SlotUp(s: Shared, l: nat, text: Bytes, slot: Slot): Shared {
    s.(slots := s.slots[l := slot], workers := s.workers[text := l])
  }

  function WorkerUp(s: Shared, l: nat, node: Uuid): Shared
    requires l in s.slots
  {
    s.(fabric := Join(s.fabric, s.slots[l].id, s.slots[l].boot, s.slots[l].address, node))
  }

  /** A message read from a worker reaches the entry its request id looks up. */
  predicate Finds(s: Shared, msg: Message) { msg.reqId != 0 && msg.reqId in s.pending }

  function Post(s: Shared, msg: Message): Shared {
    s.(entries := s.entries[msg.reqId := Pending(true, msg)])
  }

  function SlotDown(s: Shared, l: nat): Shared
    requires l in s.slots
  {
    s.(slots := s.slots[l := s.slots[l].(connected := false)])
  }

  function Aborted(p: Pending): Pending {
    if p.done then p else Pending(true, DISCONNECTED)
  }

  /** Every pending entry that is not done is failed, whichever worker it waits for. */
  function AbortAll(s: Shared): Shared {
    s.(entries := map r | r in s.entries :: if r in s.pending then Aborted(s.entries[r]) else s.entries[r])
  }

  function WorkerGone(s: Shared, l: nat): Shared
    requires l in s.slots
  {
    s.(fabric := OnWorkerDown(s.fabric, s.slots[l].id))
  }

  // ---- sections of a forwarded request ----

  function Draw(s: Shared): Shared
    requires s.nextReq < U64_MAX
  {
    s.(nextReq := s.nextReq + 1)
  }

  predicate Reachable(s: Shared, worker: Bytes) {
    worker in s.workers && s.workers[worker] in s.slots && s.slots[s.workers[worker]].connected
  }

  function Insert(s: Shared, req: u64): Shared {
    s.(pending := s.pending + {req}, entries := s.entries[req := Pending(false, Blank(0x50))])
  }

  function Erase(s: Shared, req: u64): Shared {
    s.(pending := s.pending - {req})
  }

  // ---- sections on the fabric and the accountant ----

  function CreateSection(s: Shared, f: AuthorityFence, inst: Uuid): (Shared, Result<Uuid>) {
    var bytes := if f.adapter in s.fabric.adapters then s.fabric.adapters[f.adapter].memoryBytes else 0;
    var (fabric, res) := CreateInstance(s.fabric, f.adapter, f.worker, f.boot, f.device, bytes, inst);
    (s.(fabric := fabric), res)
  }

  /** A refused reservation is ignored. */
  function CommitSection(s: Shared, inst: Uuid, bytes: u64): Shared {
    s.(fabric := MarkLoaded(s.fabric, inst, bytes),
       cap := Reserve(s.cap, DeviceMemory, bytes, Uuids.Text(inst)).0)
  }

  /** So is a refused release. */
  function EvictSection(s: Shared, inst: Uuid): (Shared, EvictOutcome) {
    var bytes := if inst in s.fabric.residencies then s.fabric.residencies[inst].bytes else 0;
    var (fabric, outcome) := Evict(s.fabric, inst);
    var cap := if outcome == EvictedNow then Release(s.cap, DeviceMemory, bytes, Uuids.Text(inst)).0 else s.cap;
    (s.(fabric := fabric, cap := cap), outcome)
  }

  function BindSection(s: Shared, f: AuthorityFence): (Shared, Result<Verdict>) {
    var (fabric, res) := BindAuthority(s.fabric, f.adapter, f);
    (s.(fabric := fabric), res)
  }

  class CoordinatorServer {
    const fabric: Fabric
    const capacity: CapacityAccountant
    var workers: map<Bytes, nat>
    var slots: map<nat, Slot>
    var pending: set<u64>
    var entries: map<u64, Pending>
    var nextReq: u64

    function View(): Shared
      reads this, fabric, capacity
    {
      Shared(fabric.View(), capacity.View(), workers, slots, pending, entries, nextReq)
    }

    constructor (limits: map<Location, u64>)
      ensures fresh(fabric) && fresh(capacity)
      ensures View().fabric == FRESH && Balanced(capacity.View()) && WithinLimits(capacity.View())
      ensures capacity.held == map[]
      ensures workers == map[] && slots == map[] && pending == {} && entries == map[] && nextReq == 1
    {
      fabric := new Fabric();
      capacity := new CapacityAccountant(limits);
      workers, slots, pending, entries, nextReq := map[], map[], {}, map[], 1;
    }

    method RegisterSlot(l: nat, text: Bytes, slot: Slot)
      modifies this
      ensures View() == SlotUp(old(View()), l, text, slot)
    {
      slots := slots[l := slot];
      workers := workers[text := l];
    }

    method RegisterWorker(l: nat, node: Uuid)
      requires l in slots
      modifies fabric
      ensures View() == WorkerUp(old(View()), l, node)
    {
      hide OnWorkerRestart;
      var slot := slots[l];
      fabric.AddWorker(WorkerRecord(slot.id, slot.boot, slot.address, node, NIL, true, fabric.epoch, [], 0, []));
      fabric.WorkerRestart(slot.id, slot.boot);
    }

    method Deliver(msg: Message) returns (found: bool)
      ensures found == Finds(View(), msg)
    {
      found := msg.reqId != 0 && msg.reqId in pending;
    }

    method PostResult(msg: Message)
      modifies `entries
      ensures View() == Post(old(View()), msg)
    {
      entries := entries[msg.reqId := Pending(true, msg)];
    }

    method Disconnect(l: nat)
      requires l in slots
      modifies `slots
      ensures View() == SlotDown(old(View()), l)
    {
      slots := slots[l := slots[l].(connected := false)];
    }

    method AbortPending() returns (failed: set<u64>)
      modifies `entries
      ensures View() == AbortAll(old(View()))
      ensures failed == set r | r in pending && r in old(entries) && !old(entries)[r].done
    {
      failed := {};
      var rest := pending;
      while rest != {}
        invariant rest <= pending
        invariant entries.Keys == old(entries).Keys
        invariant forall r <- entries :: entries[r] ==
                    if r in pending && r !in rest then Aborted(old(entries)[r]) else old(entries)[r]
        invariant failed == set r | r in pending - rest && r in old(entries) && !old(entries)[r].done
      {
        var r :| r in rest;
        if r in entries && !entries[r].done {
          entries := entries[r := Pending(true, DISCONNECTED)];
          failed := failed + {r};
        }
        rest := rest - {r};
      }
    }

    method WorkerLost(l: nat)
      requires l in slots
      modifies fabric
      ensures View() == WorkerGone(old(View()), l)
    {
      hide OnWorkerDown;
      fabric.WorkerDown(slots[l].id);
    }

    method DrawRequest() returns (req: u64)
      requires nextReq < U64_MAX
      modifies `nextReq
      ensures req == old(nextReq) && View() == Draw(old(View()))
    {
      req := nextReq;
      nextReq := nextReq + 1;
    }

    method FindWorker(worker: Bytes) returns (reachable: bool)
      ensures reachable == Reachable(View(), worker)
    {
      reachable := worker in workers && workers[worker] in slots && slots[workers[worker]].connected;
    }

    method InsertPending(req: u64)
      modifies `pending, `entries
      ensures View() == Insert(old(View()), req)
    {
      pending := pending + {req};
      entries := entries[req := Pending(false, Blank(0x50))];
    }

    method ErasePending(req: u64)
      modifies `pending
      ensures View() == Erase(old(View()), req)
    {
      pending := pending - {req};
    }

    /**
     Forwarding one request: find the worker, enter the request, send, wait, take the result and leave. `delivered`
     says whether the send succeeds; while the request waits, the worker's connection posts `answer` to it.
     */
    method ForwardToWorker(req: u64, worker: Bytes, delivered: bool, answer: Message) returns (result: Message)
      requires answer.reqId == req != 0
      modifies `pending, `entries
      ensures var s := old(View());
        (result, View()) ==
          if !Reachable(s, worker) then (UNREACHABLE, s)
          else if !delivered then (UNSENT, Erase(Insert(s, req), req))
          else (answer, Erase(Post(Insert(s, req), answer), req))
    {
      var reachable := FindWorker(worker);
      if !reachable { return UNREACHABLE; }
      InsertPending(req);
      if !delivered {
        ErasePending(req);
        return UNSENT;
      }
      var found := Deliver(answer);
      if found { PostResult(answer); }
      result := entries[req].result;
      ErasePending(req);
    }

    method CreateForLoad(f: AuthorityFence, inst: Uuid) returns (res: Result<Uuid>)
      modifies fabric
      ensures (View(), res) == CreateSection(old(View()), f, inst)
    {
      hide CreateInstance;
      var bytes := if f.adapter in fabric.adapters then fabric.adapters[f.adapter].memoryBytes else 0;
      res := fabric.Create(f.adapter, f.worker, f.boot, f.device, bytes, inst);
    }

    method CommitLoad(inst: Uuid, bytes: u64)
      modifies fabric, capacity
      ensures View() == CommitSection(old(View()), inst, bytes)
    {
      hide MarkLoaded, Reserve;
      fabric.LoadAcknowledged(inst, bytes);
      var ignored := capacity.ReserveBytes(DeviceMemory, bytes, Uuids.Text(inst));
    }

    method EvictAndRelease(inst: Uuid) returns (outcome: EvictOutcome)
      modifies fabric, capacity
      ensures (View(), outcome) == EvictSection(old(View()), inst)
    {
      hide Evict, Release;
      var bytes := if inst in fabric.residencies then fabric.residencies[inst].bytes else 0;
      outcome := fabric.EvictInstance(inst);
      if outcome == EvictedNow {
        var ignored := capacity.ReleaseBytes(DeviceMemory, bytes, Uuids.Text(inst));
      }
    }

    method BindChecked(f: AuthorityFence) returns (res: Result<Verdict>)
      modifies fabric
      ensures (View(), res) == BindSection(old(View()), f)
    {
      hide BindAuthority;
      res := fabric.Bind(f.adapter, f);
    }
  }
}
