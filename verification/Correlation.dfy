/** Which reply a forwarded request's result comes from. */
module Correlation {
  import opened Basics
  import opened Records
  import opened Authorities
  import opened Fabrics
  import opened Protocol
  import opened Workers
  import opened Coordinators
  import opened CoordinatorRuns
  import opened FabricRuns
  import opened Checks
  import Capacity

  /** The request was sent as its own command, and an accepted reply carries its id. */
  predicate Evidence(s: System, t: Task) {
    && t.req in s.sent && s.sent[t.req] == Forwarded(t)
    && t.ack.ok && t.ack.reqId == t.req && t.ack in s.received
  }

  /** Requests whose good result rests on a worker's reply. */
  predicate NeedsReply(cmd: Command) { cmd.Load? || cmd.Activate? || cmd.Deactivate? || cmd.Migrate? }

  predicate TaskOk(s: System, t: Task) {
    && t.req < s.shared.nextReq
    && (t.phase in {Start, Checked, Begun} ==> t.req == 0)
    && (t.req == 0 ==> t.phase in {Start, Checked, Begun, Finished})
    && (t.phase in {Inserted, Waiting, Woken} ==> t.req in s.shared.entries)
    && (t.phase in {Waiting, Woken} ==> t.req in s.sent && s.sent[t.req] == Forwarded(t))
    && (t.phase in {Woken, Answered, Recorded} && t.ack.ok ==> Evidence(s, t))
    && (t.phase == Recorded ==> t.ack.ok && t.cmd.Load?)
    && (t.phase == Finished && t.ok && NeedsReply(t.cmd) ==> Evidence(s, t))
  }

  /** A done entry that says ok holds an accepted reply to that very request. */
  predicate EntryOk(s: System, r: u64)
    requires r in s.shared.entries
  {
    var p := s.shared.entries[r];
    p.done && p.result.ok ==> p.result.reqId == r && p.result in s.received
  }

  ghost predicate Correlated(s: System) {
    && s.shared.nextReq != 0
    && (forall i <- s.tasks :: TaskOk(s, s.tasks[i]))
    && (forall i, j :: i in s.tasks && j in s.tasks && i != j && s.tasks[i].req == s.tasks[j].req ==>
          s.tasks[i].req == 0)
    && (forall i <- s.tasks :: s.tasks[i].phase in {Drawn, Found, Inserted} ==> s.tasks[i].req !in s.sent)
    && (forall r <- s.sent :: r < s.shared.nextReq)
    && (forall r <- s.shared.entries :: EntryOk(s, r))
    && (forall l <- s.links :: s.links[l].Holding? ==> s.links[l].msg in s.received)
  }

  /** Nothing a task relies on is lost. */
  ghost predicate Keeps(s: System, t: System) {
    && s.shared.nextReq <= t.shared.nextReq && s.shared.entries.Keys <= t.shared.entries.Keys
    && s.received <= t.received
    && (forall r <- s.sent :: r in t.sent && t.sent[r] == s.sent[r])
  }

  lemma TaskStays(s: System, t: System, x: Task)
    requires TaskOk(s, x) && Keeps(s, t)
    ensures TaskOk(t, x)
  {
  }

  lemma IdsInRange(s: System, x: Task)
    requires TaskOk(s, x)
    ensures x.req < s.shared.nextReq && (x.phase in {Drawn, Found, Inserted} ==> x.req != 0)
  {
  }

  /** The task keeps its id, has none, or gets the next one. */
  predicate IdFollows(s: System, i: nat, x: Task) {
    x.req == 0 || x.req == s.shared.nextReq || (i in s.tasks && x.req == s.tasks[i].req)
  }

  /** One task moves; only its own command may be sent, and the shared tables at most grow. */
  lemma OneTaskMoves(s: System, t: System, i: nat, x: Task)
    requires Correlated(s) && Keeps(s, t) && t.tasks == s.tasks[i := x] && t.links == s.links
    requires IdFollows(s, i, x) && TaskOk(t, x) && (x.phase in {Drawn, Found, Inserted} ==> x.req !in t.sent)
    requires forall r <- t.sent :: r in s.sent || r == x.req
    requires forall r <- t.shared.entries :: EntryOk(t, r)
    ensures Correlated(t)
  {
    hide TaskOk, EntryOk;
    IdsInRange(t, x);
    forall j | j in s.tasks
      ensures s.tasks[j].req < s.shared.nextReq
      ensures s.tasks[j].phase in {Drawn, Found, Inserted} ==> s.tasks[j].req != 0
      ensures TaskOk(t, s.tasks[j])
    {
      IdsInRange(s, s.tasks[j]);
      TaskStays(s, t, s.tasks[j]);
    }
  }

  /** No task moves. */
  lemma NoTaskMoves(s: System, t: System)
    requires Correlated(s) && Keeps(s, t) && t.tasks == s.tasks && t.sent == s.sent
    requires t.shared.nextReq == s.shared.nextReq
    requires forall r <- t.shared.entries :: EntryOk(t, r)
    requires forall l <- t.links :: t.links[l].Holding? ==> t.links[l].msg in t.received
    ensures Correlated(t)
  {
    hide TaskOk, EntryOk;
    forall j | j in t.tasks
      ensures TaskOk(t, t.tasks[j])
    {
      TaskStays(s, t, s.tasks[j]);
    }
  }

  /** A section on the fabric and the accountant moves no request but its own. */
  predicate SameTables(s: Shared, t: Shared) {
    t.entries == s.entries && t.nextReq == s.nextReq && t.pending == s.pending
  }

  lemma EntriesStay(s: System, t: System)
    requires t.shared.entries == s.shared.entries && s.received <= t.received
    requires forall r <- s.shared.entries :: EntryOk(s, r)
    ensures forall r <- t.shared.entries :: EntryOk(t, r)
  {
    assert forall r <- t.shared.entries :: EntryOk(s, r) ==> EntryOk(t, r);
  }

  /** A section of request `i`: it moves that request, under its id, and no table of requests. */
  ghost predicate Moves(s: System, t: System, i: nat) {
    && SameTables(s.shared, t.shared) && t.sent == s.sent && t.received == s.received && t.links == s.links
    && i in s.tasks && i in t.tasks && t.tasks == s.tasks[i := t.tasks[i]]
    && t.tasks[i].req == s.tasks[i].req && t.tasks[i].phase in {Checked, Begun, Recorded, Finished}
    && TaskOk(t, t.tasks[i])
  }

  lemma CheckMoves(s: System, i: nat)
    requires At(s, i, Start) && (s.tasks[i].cmd.Load? || s.tasks[i].cmd.Activate?) && TaskOk(s, s.tasks[i])
    ensures Moves(s, DoCheck(s, i), i)
  {
    hide CheckFence;
  }

  lemma CreateMoves(s: System, i: nat, inst: Uuid)
    requires At(s, i, Checked) && s.tasks[i].cmd.Load? && TaskOk(s, s.tasks[i])
    ensures Moves(s, DoCreate(s, i, inst), i)
  {
    hide CreateInstance;
  }

  lemma BeginMoves(s: System, i: nat)
    requires At(s, i, Start) && !s.tasks[i].cmd.Load? && !s.tasks[i].cmd.Activate? && TaskOk(s, s.tasks[i])
    ensures Moves(s, DoBegin(s, i), i)
  {
    hide Invalidate, Evict, Capacity.Release, Forwarded;
  }

  lemma SameCommand(x: Task, y: Task)
    requires x.cmd == y.cmd && x.worker == y.worker && x.req == y.req && x.inst == y.inst
    ensures Forwarded(x) == Forwarded(y)
  {
  }

  /** A good end to a request that needs a reply follows a good acknowledgement. */
  predicate Concludes(x: Task, y: Task) {
    && y.cmd == x.cmd && y.worker == x.worker && y.req == x.req && y.inst == x.inst && y.ack == x.ack
    && x.phase in {Answered, Recorded} && y.phase in {Recorded, Finished}
    && (y.phase == Recorded ==> y.cmd.Load?)
    && (y.phase == Recorded || (y.ok && NeedsReply(y.cmd)) ==> x.ack.ok)
  }

  lemma ConclusionIsOk(s: System, x: Task, y: Task)
    requires TaskOk(s, x) && Concludes(x, y)
    ensures TaskOk(s, y)
  {
    SameCommand(x, y);
  }

  lemma CommitConcludes(s: System, i: nat)
    requires At(s, i, Answered)
    ensures var t := DoCommit(s, i);
      && SameTables(s.shared, t.shared) && t.sent == s.sent && t.received == s.received && t.links == s.links
      && i in t.tasks && t.tasks == s.tasks[i := t.tasks[i]] && Concludes(s.tasks[i], t.tasks[i])
  {
    hide BindAuthority, MarkLoaded, MarkReady, Capacity.Reserve, Forwarded;
  }

  lemma CommitMoves(s: System, i: nat)
    requires At(s, i, Answered) && TaskOk(s, s.tasks[i])
    ensures Moves(s, DoCommit(s, i), i)
  {
    hide DoCommit, Forwarded;
    CommitConcludes(s, i);
    ConclusionIsOk(s, s.tasks[i], DoCommit(s, i).tasks[i]);
  }

  lemma RecordMoves(s: System, i: nat)
    requires At(s, i, Recorded) && TaskOk(s, s.tasks[i])
    ensures Moves(s, DoRecord(s, i), i)
  {
    hide MarkReady;
    assert Forwarded(DoRecord(s, i).tasks[i]) == Forwarded(s.tasks[i]);
  }

  lemma SectionsMove(s: System, e: Event)
    requires Correlated(s) && Enabled(s, e)
    requires e.Check? || e.Create? || e.Begin? || e.Commit? || e.Record?
    ensures Moves(s, Do(s, e), e.i)
  {
    hide DoCheck, DoCreate, DoBegin, DoCommit, DoRecord, TaskOk, EntryOk, DoSend, DoReceive, DoPost, DoNewTask, DoDraw,
         DoLookup, DoInsert, DoTake, DoErase, DoAbort, Moves, OneSection, Answers;
    assert TaskOk(s, s.tasks[e.i]);
    match e {
      case Check(i) => CheckMoves(s, i);
      case Create(i, inst) => CreateMoves(s, i, inst);
      case Begin(i) => BeginMoves(s, i);
      case Commit(i) => CommitMoves(s, i);
      case Record(i) => RecordMoves(s, i);
    }
  }

  lemma SectionsKeepCorrelation(s: System, e: Event)
    requires Correlated(s) && Enabled(s, e)
    requires e.Check? || e.Create? || e.Begin? || e.Commit? || e.Record?
    ensures Correlated(Do(s, e))
  {
    hide Enabled, Do, TaskOk, EntryOk;
    SectionsMove(s, e);
    EntriesStay(s, Do(s, e));
    OneTaskMoves(s, Do(s, e), e.i, Do(s, e).tasks[e.i]);
  }

  lemma WorkerSectionsKeepCorrelation(s: System, e: Event)
    requires Correlated(s) && Enabled(s, e)
    requires e.Direct? || e.Attach? || e.Detach? || e.NewSlot? || e.LoseSlot? || e.Vanish? || e.Handle?
    ensures Correlated(Do(s, e))
  {
    hide Join, OnWorkerDown, FabricRuns.Apply, OneSection, Answers, TaskOk, EntryOk, DoCheck, DoCreate, DoBegin,
         DoCommit, DoRecord, DoSend, DoReceive, DoPost, DoNewTask, DoDraw, DoLookup, DoInsert, DoTake, DoErase, DoAbort;
    var t := Do(s, e);
    EntriesStay(s, t);
    NoTaskMoves(s, t);
  }

  lemma ReceiveKeepsCorrelation(s: System, l: nat, msg: Message)
    requires Correlated(s) && l in s.links
    ensures Correlated(DoReceive(s, l, msg))
  {
    hide TaskOk, EntryOk;
    var t := DoReceive(s, l, msg);
    EntriesStay(s, t);
    NoTaskMoves(s, t);
  }

  lemma PostKeepsCorrelation(s: System, l: nat)
    requires Correlated(s) && l in s.links && s.links[l].Holding?
    ensures Correlated(DoPost(s, l))
  {
    hide TaskOk;
    var t := DoPost(s, l);
    assert forall r <- t.shared.entries :: r in s.shared.entries ==> EntryOk(s, r);
    NoTaskMoves(s, t);
  }

  lemma AbortKeepsCorrelation(s: System, l: nat)
    requires Correlated(s)
    ensures Correlated(DoAbort(s, l))
  {
    hide TaskOk;
    var t := DoAbort(s, l);
    assert forall r <- t.shared.entries :: EntryOk(s, r) ==> EntryOk(t, r);
    NoTaskMoves(s, t);
  }

  lemma NewTaskKeepsCorrelation(s: System, i: nat, cmd: Command, worker: Bytes)
    requires Correlated(s) && i !in s.tasks
    ensures Correlated(DoNewTask(s, i, cmd, worker))
  {
    hide EntryOk;
    var t := DoNewTask(s, i, cmd, worker);
    EntriesStay(s, t);
    OneTaskMoves(s, t, i, t.tasks[i]);
  }

  lemma DrawKeepsCorrelation(s: System, i: nat)
    requires Correlated(s) && At(s, i, Begun) && s.shared.nextReq < U64_MAX
    ensures Correlated(DoDraw(s, i))
  {
    hide EntryOk;
    var t := DoDraw(s, i);
    EntriesStay(s, t);
    OneTaskMoves(s, t, i, t.tasks[i]);
  }

  lemma LookupKeepsCorrelation(s: System, i: nat)
    requires Correlated(s) && At(s, i, Drawn)
    ensures Correlated(DoLookup(s, i))
  {
    hide EntryOk, Forwarded, Reachable;
    var t := DoLookup(s, i);
    assert TaskOk(s, s.tasks[i]);
    EntriesStay(s, t);
    OneTaskMoves(s, t, i, t.tasks[i]);
  }

  lemma InsertKeepsCorrelation(s: System, i: nat)
    requires Correlated(s) && At(s, i, Found)
    ensures Correlated(DoInsert(s, i))
  {
    hide Forwarded;
    var t := DoInsert(s, i);
    assert TaskOk(s, s.tasks[i]);
    assert forall r <- t.shared.entries :: r in s.shared.entries ==> EntryOk(s, r);
    OneTaskMoves(s, t, i, t.tasks[i]);
  }

  lemma TakeKeepsCorrelation(s: System, i: nat)
    requires Correlated(s) && At(s, i, Waiting)
    requires s.tasks[i].req in s.shared.entries && s.shared.entries[s.tasks[i].req].done
    ensures Correlated(DoTake(s, i))
  {
    hide Forwarded;
    var t := DoTake(s, i);
    assert TaskOk(s, s.tasks[i]) && EntryOk(s, s.tasks[i].req);
    SameCommand(s.tasks[i], t.tasks[i]);
    EntriesStay(s, t);
    OneTaskMoves(s, t, i, t.tasks[i]);
  }

  lemma EraseKeepsCorrelation(s: System, i: nat)
    requires Correlated(s) && At(s, i, Woken)
    ensures Correlated(DoErase(s, i))
  {
    hide Forwarded, EntryOk;
    var t := DoErase(s, i);
    assert TaskOk(s, s.tasks[i]);
    SameCommand(s.tasks[i], t.tasks[i]);
    EntriesStay(s, t);
    OneTaskMoves(s, t, i, t.tasks[i]);
  }

  lemma SendKeepsCorrelation(s: System, i: nat, delivered: bool)
    requires Correlated(s) && At(s, i, Inserted)
    ensures Correlated(DoSend(s, i, delivered))
  {
    hide Forwarded, EntryOk;
    var t := DoSend(s, i, delivered);
    assert TaskOk(s, s.tasks[i]);
    SameCommand(s.tasks[i], t.tasks[i]);
    EntriesStay(s, t);
    OneTaskMoves(s, t, i, t.tasks[i]);
  }

  lemma StepKeepsCorrelation(s: System, e: Event)
    requires Correlated(s)
    ensures Correlated(Step(s, e))
  {
    hide Correlated, DoCheck, DoCreate, DoBegin, DoCommit, DoRecord, DoSend, DoReceive, DoPost, DoNewTask, DoDraw,
         DoLookup, DoInsert, DoTake, DoErase, DoAbort, Forwarded, OneSection, Answers;
    if Enabled(s, e) {
      match e {
        case NewTask(i, cmd, worker) => NewTaskKeepsCorrelation(s, i, cmd, worker);
        case DrawId(i) => DrawKeepsCorrelation(s, i);
        case Send(i, delivered) => SendKeepsCorrelation(s, i, delivered);
        case Receive(l, msg) => ReceiveKeepsCorrelation(s, l, msg);
        case PostHeld(l) => PostKeepsCorrelation(s, l);
        case AbortPending(l) => AbortKeepsCorrelation(s, l);
        case Lookup(i) => LookupKeepsCorrelation(s, i);
        case InsertEntry(i) => InsertKeepsCorrelation(s, i);
        case Take(i) => TakeKeepsCorrelation(s, i);
        case EraseEntry(i) => EraseKeepsCorrelation(s, i);
        case Check(_) => SectionsKeepCorrelation(s, e);
        case Create(_, _) => SectionsKeepCorrelation(s, e);
        case Begin(_) => SectionsKeepCorrelation(s, e);
        case Commit(_) => SectionsKeepCorrelation(s, e);
        case Record(_) => SectionsKeepCorrelation(s, e);
        case _ => WorkerSectionsKeepCorrelation(s, e);
      }
    }
  }

  lemma {:induction false} RunKeepsCorrelation(s: System, es: seq<Event>)
    requires Init(s)
    ensures Correlated(After(s, es))
  {
    hide Step;
    if es != [] {
      RunKeepsCorrelation(s, es[..|es| - 1]);
      StepKeepsCorrelation(After(s, es[..|es| - 1]), es[|es| - 1]);
    }
  }

  // ---- where accepted replies come from ----

  /** Event `k` read the message from a worker connection while its request was pending. */
  predicate AcceptedAt(s: System, es: seq<Event>, k: nat, m: Message) {
    && Happens(s, es, k) && es[k].Receive? && es[k].msg == m
    && m.reqId != 0 && m.reqId in After(s, es[..k]).shared.pending
  }

  predicate HandledAt(s: System, es: seq<Event>, k: nat, m: Message) {
    Happens(s, es, k) && es[k].Handle? && es[k].reply == m
  }

  lemma StepReceives(s: System, e: Event, m: Message)
    requires m in Step(s, e).received && m !in s.received
    ensures Enabled(s, e) && e.Receive? && e.msg == m && Finds(s.shared, m)
  {
    hide DoCheck, DoCreate, DoBegin, DoCommit, DoRecord, DoSend, DoPost, DoNewTask, DoDraw, DoLookup, DoInsert, DoTake,
         DoErase, DoAbort, OneSection, Answers, Put;
    TaskEventsKeepHistory(s, e);
  }

  /** Only `Receive`, `Handle` and `Send` add to what has been received, replied and sent. */
  lemma TaskEventsKeepHistory(s: System, e: Event)
    ensures !e.Receive? ==> Step(s, e).received == s.received
    ensures !e.Handle? ==> Step(s, e).replies == s.replies
    ensures !e.Send? ==> Step(s, e).sent == s.sent
  {
    hide CheckFence, CreateSection, BeginSection, BeginResult, ReplySection, ReplyResult, Forwarded, Reachable,
         FabricRuns.Apply, OneSection, Answers, Join, OnWorkerDown, AbortAll;
  }

  lemma {:induction false} AcceptedWhilePending(s: System, es: seq<Event>, m: Message)
    requires s.received == {} && m in After(s, es).received
    ensures exists k: nat :: AcceptedAt(s, es, k, m)
  {
    hide Step, Enabled;
    var n := |es| - 1;
    if es != [] {
      if m in After(s, es[..n]).received {
        AcceptedWhilePending(s, es[..n], m);
        var k: nat :| AcceptedAt(s, es[..n], k, m);
        assert es[..n][..k] == es[..k];
        assert AcceptedAt(s, es, k, m);
      } else {
        StepReceives(After(s, es[..n]), es[n], m);
        assert AcceptedAt(s, es, n, m);
      }
    }
  }

  /**
   A load, activation, deactivation or migration ends well only on a reply read from a worker
   connection that carries the request's own id, was marked ok, and was accepted while that request
   was pending; and the request had been sent to a worker as exactly its own command. A load or activation
   had passed a check under which its fence was current.
   */
  lemma GoodResultsAreReplies(s: System, es: seq<Event>, i: nat)
    requires Init(s) && At(After(s, es), i, Finished)
    requires After(s, es).tasks[i].ok && NeedsReply(After(s, es).tasks[i].cmd)
    ensures var t := After(s, es).tasks[i];
      && t.ack.ok && t.ack.reqId == t.req != 0
      && t.req in After(s, es).sent && After(s, es).sent[t.req] == Forwarded(t)
      && (exists k: nat :: AcceptedAt(s, es, k, t.ack))
      && (IsChecked(t.cmd) ==> exists k: nat :: CheckedAt(s, es, k, i, t.cmd.fence))
  {
    hide After, Forwarded, AcceptedAt, CheckedAt;
    RunKeepsCorrelation(s, es);
    var t := After(s, es).tasks[i];
    assert TaskOk(After(s, es), t);
    AcceptedWhilePending(s, es, t.ack);
    var k: nat :| AcceptedAt(s, es, k, t.ack);
    AcceptedIdsAreSet(s, es, k, t.ack);
    if IsChecked(t.cmd) {
      NothingIsPastAtFirst(s);
      PassedWasChecked(s, es, i);
    }
  }

  lemma AcceptedIdsAreSet(s: System, es: seq<Event>, k: nat, m: Message)
    requires AcceptedAt(s, es, k, m)
    ensures m.reqId != 0
  {
  }

  /** No two requests are ever given the same id. */
  lemma RequestIdsAreDistinct(s: System, es: seq<Event>, i: nat, j: nat)
    requires Init(s) && i in After(s, es).tasks && j in After(s, es).tasks && i != j
    ensures var t, u := After(s, es).tasks[i], After(s, es).tasks[j];
      t.req == u.req ==> t.req == 0
  {
    hide After;
    RunKeepsCorrelation(s, es);
  }

  // ---- activation ----

  lemma OnlySectionsFinish(s: System, e: Event, i: nat)
    requires !At(s, i, Finished) && At(Step(s, e), i, Finished)
    ensures Enabled(s, e) && (e == Check(i) || e == Commit(i) || e == Record(i) || (e.Create? && e.i == i))
  {
    hide CheckFence, CreateSection, BeginSection, BeginResult, ReplySection, ReplyResult, Forwarded, Reachable,
         FabricRuns.Apply, OneSection, Answers, Join, OnWorkerDown, AbortAll;
  }

  lemma ActivationEndsInItsSection(s: System, e: Event, i: nat)
    requires Correlated(s) && !At(s, i, Finished)
    requires At(Step(s, e), i, Finished) && Step(s, e).tasks[i].ok && Step(s, e).tasks[i].cmd.Activate?
    ensures e == Commit(i) && At(s, i, Answered) && s.tasks[i].cmd == Step(s, e).tasks[i].cmd
    ensures Step(s, e) == DoCommit(s, i) && ReplyResult(s.shared, s.tasks[i])
  {
    hide CheckFence, CreateSection, ReplySection, ReplyResult, EntryOk, Evidence, DoBegin, DoSend, DoReceive, DoPost,
         DoNewTask, DoDraw, DoLookup, DoInsert, DoTake, DoErase, DoAbort, OneSection, Answers;
    OnlySectionsFinish(s, e, i);
    assert TaskOk(s, s.tasks[i]);
  }

  /** The fence was current in the section that bound it, which left it the exclusive fence, with authority. */
  predicate BoundAt(s: System, es: seq<Event>, k: nat, i: nat, f: AuthorityFence) {
    && Happens(s, es, k) && es[k] == Commit(i)
    && CheckFence(After(s, es[..k]).shared.fabric, f) == Authorized
    && var fabric := Step(After(s, es[..k]), es[k]).shared.fabric;
    && fabric.activeFence == Some(f)
    && Authoritative(fabric, f.adapter) && fabric.authority[f.adapter].fence == f
  }

  lemma BindingGrants(s: FabricState, f: AuthorityFence)
    requires BindAuthority(s, f.adapter, f).1 == Ok(Authorized)
    ensures CheckFence(s, f) == Authorized
    ensures var t := BindAuthority(s, f.adapter, f).0;
      t.activeFence == Some(f) && Authoritative(t, f.adapter) && t.authority[f.adapter].fence == f
  {
    hide CheckFence;
  }

  lemma {:induction false} GoodActivationsWereCurrent(s: System, es: seq<Event>, i: nat)
    requires Init(s) && At(After(s, es), i, Finished)
    requires After(s, es).tasks[i].ok && After(s, es).tasks[i].cmd.Activate?
    ensures exists k: nat :: BoundAt(s, es, k, i, After(s, es).tasks[i].cmd.fence)
  {
    hide Step, Enabled, CheckFence, BindAuthority, Init, BoundAt;
    var n := |es| - 1;
    if es == [] {
      NoTasksAtFirst(s);
      assert false;
    } else {
      var t, f := After(s, es[..n]), After(s, es).tasks[i].cmd.fence;
      if At(t, i, Finished) {
        FinishedStays(t, es[n], i);
        GoodActivationsWereCurrent(s, es[..n], i);
        var k: nat :| BoundAt(s, es[..n], k, i, f);
        BoundBefore(s, es, n, k, i, f);
      } else {
        RunKeepsCorrelation(s, es[..n]);
        ActivationEndsInItsSection(t, es[n], i);
        BoundNow(s, es, n, i, f);
      }
    }
  }

  lemma BoundBefore(s: System, es: seq<Event>, n: nat, k: nat, i: nat, f: AuthorityFence)
    requires n <= |es| && BoundAt(s, es[..n], k, i, f)
    ensures BoundAt(s, es, k, i, f)
  {
    hide Step, Enabled, CheckFence;
    assert es[..n][..k] == es[..k];
  }

  lemma BoundNow(s: System, es: seq<Event>, n: nat, i: nat, f: AuthorityFence)
    requires n < |es| && es[n] == Commit(i) && At(After(s, es[..n]), i, Answered)
    requires var t := After(s, es[..n]); t.tasks[i].cmd == Activate(f) && ReplyResult(t.shared, t.tasks[i])
    ensures BoundAt(s, es, n, i, f)
  {
    hide After, CheckFence, BindAuthority;
    var t := After(s, es[..n]);
    BindingGrants(t.shared.fabric, f);
    CommitSteps(t, i);
  }

  lemma CommitSteps(s: System, i: nat)
    requires At(s, i, Answered)
    ensures Enabled(s, Commit(i)) && Step(s, Commit(i)) == DoCommit(s, i)
  {
  }

  lemma NoTasksAtFirst(s: System)
    requires Init(s)
    ensures s.tasks == map[] && s.received == {}
  {
  }

  // ---- honest workers ----

  /** Workers post only replies they made to commands they were sent; anything else carries no id. */
  predicate Honest(s: System, e: Event) {
    e.Receive? ==> e.msg.reqId == 0 || e.msg in s.replies
  }

  predicate HonestRun(s: System, es: seq<Event>) {
    forall k :: 0 <= k < |es| ==> Honest(After(s, es[..k]), es[k])
  }

  /** Replies answer commands that were sent, and only such replies have been accepted. */
  ghost predicate Faithful(s: System) {
    && (forall r <- s.sent :: s.sent[r].reqId == r)
    && (forall m <- s.replies :: m.reqId in s.sent && Answers(m, s.sent[m.reqId]))
    && s.received <= s.replies
  }

  lemma SendAddsItsCommand(s: System, i: nat, delivered: bool)
    requires Correlated(s) && At(s, i, Inserted)
    ensures var t := DoSend(s, i, delivered);
      && (forall r <- s.sent :: r in t.sent && t.sent[r] == s.sent[r])
      && (forall r <- t.sent :: r in s.sent || t.sent[r].reqId == r)
      && t.received == s.received && t.replies == s.replies
  {
    hide TaskOk, EntryOk;
  }

  lemma StepKeepsFaith(s: System, e: Event)
    requires Correlated(s) && Faithful(s) && Honest(s, e)
    ensures Faithful(Step(s, e))
    ensures forall r <- s.sent :: r in Step(s, e).sent && Step(s, e).sent[r] == s.sent[r]
  {
    hide Correlated, DoCheck, DoCreate, DoBegin, DoCommit, DoRecord, DoSend, DoPost, DoNewTask, DoDraw, DoLookup,
         DoInsert,
         DoTake, DoErase, DoAbort, OneSection, Answers, Put, Forwarded;
    TaskEventsKeepHistory(s, e);
    if e.Send? && Enabled(s, e) {
      SendAddsItsCommand(s, e.i, e.delivered);
    } else if e.Handle? && Enabled(s, e) {
      AnswersCarryTheId(e.reply, s.sent[e.req]);
    }
  }

  lemma AnswersCarryTheId(reply: Message, command: Message)
    requires Answers(reply, command)
    ensures reply.reqId == command.reqId
  {
  }

  lemma {:induction false} HonestRunsAreFaithful(s: System, es: seq<Event>)
    requires Init(s) && HonestRun(s, es)
    ensures Faithful(After(s, es)) && Correlated(After(s, es))
  {
    hide Step, Honest, Correlated;
    RunKeepsCorrelation(s, es);
    if es != [] {
      var n := |es| - 1;
      assert forall k :: 0 <= k < n ==> es[..n][..k] == es[..k];
      HonestRunsAreFaithful(s, es[..n]);
      StepKeepsFaith(After(s, es[..n]), es[n]);
    }
  }

  lemma StepReplies(s: System, e: Event, m: Message)
    requires m in Step(s, e).replies && m !in s.replies
    ensures Enabled(s, e) && e.Handle? && e.reply == m && Step(s, e).sent == s.sent
  {
    hide DoCheck, DoCreate, DoBegin, DoCommit, DoRecord, DoSend, DoReceive, DoPost, DoNewTask, DoDraw, DoLookup,
         DoInsert,
         DoTake, DoErase, DoAbort, OneSection, Answers, Put;
    TaskEventsKeepHistory(s, e);
  }

  /** A worker handled exactly the command that is in the sent table under the reply's id. */
  predicate MadeAt(s: System, es: seq<Event>, k: nat, m: Message) {
    && HandledAt(s, es, k, m) && es[k].req == m.reqId
    && m.reqId in After(s, es[..k]).sent
    && m.reqId in After(s, es).sent && After(s, es[..k]).sent[m.reqId] == After(s, es).sent[m.reqId]
  }

  lemma {:induction false} RepliesWereMade(s: System, es: seq<Event>, m: Message)
    requires Init(s) && HonestRun(s, es) && m in After(s, es).replies
    ensures exists k: nat :: MadeAt(s, es, k, m)
  {
    hide Step, Enabled, Honest, Correlated, Answers;
    var n := |es| - 1;
    if es != [] {
      assert forall k :: 0 <= k < n ==> es[..n][..k] == es[..k];
      var t := After(s, es[..n]);
      HonestRunsAreFaithful(s, es[..n]);
      StepKeepsFaith(t, es[n]);
      if m in t.replies {
        RepliesWereMade(s, es[..n], m);
        var k: nat :| MadeAt(s, es[..n], k, m);
        assert MadeAt(s, es, k, m);
      } else {
        StepReplies(t, es[n], m);
        HandledIdsAgree(t, es[n]);
        assert MadeAt(s, es, n, m);
      }
    }
  }

  lemma HandledIdsAgree(s: System, e: Event)
    requires Faithful(s) && Enabled(s, e) && e.Handle?
    ensures e.req == e.reply.reqId && e.req in s.sent
  {
  }

  /**
   With honest workers a good result means more: some worker handled the very command that was
   forwarded for this request, and the acknowledgement is that worker's answer to it. A good load
   therefore records one byte, since no load command states a size.
   */
  lemma GoodResultsWereHandled(s: System, es: seq<Event>, i: nat)
    requires Init(s) && HonestRun(s, es) && At(After(s, es), i, Finished)
    requires After(s, es).tasks[i].ok && NeedsReply(After(s, es).tasks[i].cmd)
    ensures var t := After(s, es).tasks[i];
      && AnswerOf(t.ack, Forwarded(t)) && (t.cmd.Load? ==> t.ack.a == 1)
      && exists k: nat :: MadeAt(s, es, k, t.ack) && After(s, es[..k]).sent[t.req] == Forwarded(t)
  {
    hide After, AcceptedAt, HonestRun;
    HonestRunsAreFaithful(s, es);
    GoodResultsAreReplies(s, es, i);
    var t := After(s, es).tasks[i];
    assert TaskOk(After(s, es), t);
    RepliesWereMade(s, es, t.ack);
  }
}
