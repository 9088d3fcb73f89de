/** The check a load or activation has to pass before anything is done for it (src/coordinator.cpp). */
module Checks {
  import opened Basics
  import opened Records
  import opened Authorities
  import opened Fabrics
  import opened Coordinators
  import Workers
  import opened CoordinatorRuns
  import FabricRuns

  /** Event `k` of the run took place. */
  predicate Happens(s: System, es: seq<Event>, k: nat) {
    k < |es| && Enabled(After(s, es[..k]), es[k])
  }

  predicate IsChecked(cmd: Command) { cmd.Load? || cmd.Activate? }

  /** Event `k` checked the request, and its fence was current. */
  predicate CheckedAt(s: System, es: seq<Event>, k: nat, i: nat, f: AuthorityFence) {
    Happens(s, es, k) && es[k] == Check(i) && CheckFence(After(s, es[..k]).shared.fabric, f) == Authorized
  }

  /** The request is past its start, and was not refused there: a refused one never has an id. */
  predicate Past(t: Task) { t.phase != Start && !(t.phase == Finished && t.req == 0) }

  predicate IsPast(s: System, i: nat) { i in s.tasks && IsChecked(s.tasks[i].cmd) && Past(s.tasks[i]) }

  lemma FinishedStays(s: System, e: Event, i: nat)
    requires At(s, i, Finished)
    ensures At(Step(s, e), i, Finished) && Step(s, e).tasks[i] == s.tasks[i]
  {
    hide CheckFence, CreateSection, BeginSection, BeginResult, ReplySection, ReplyResult, Forwarded, Reachable,
         FabricRuns.Apply, OneSection, Answers, FabricRuns.Join, OnWorkerDown, AbortAll;
  }

  /** The same request further on: it is given an id and an instance once, if at all, and never starts again. */
  predicate Follows(x: Task, y: Task) {
    && y.cmd == x.cmd && y.worker == x.worker && (y.req != x.req ==> x.phase == Begun)
    && (y.inst != x.inst ==> x.phase == Checked) && (y.phase == Start ==> y == x)
    && (y.phase == Checked ==> x.phase in {Start, Checked})
    && (y.ok != x.ok ==> x.phase in {Start, Checked, Answered, Recorded})
    && (x.phase == Begun && y != x ==> y.phase == Drawn)
  }

  lemma FirstSectionsFollow(s: System, e: Event, i: nat)
    requires i in s.tasks && (e.Check? || e.Create? || e.Begin?)
    ensures i in Step(s, e).tasks && Follows(s.tasks[i], Step(s, e).tasks[i])
  {
    hide CheckFence, CreateSection, BeginSection, BeginResult, DoSend, DoReceive, DoPost, DoCommit, DoRecord,
         DoNewTask, DoDraw, DoLookup, DoInsert, DoTake, DoErase, DoAbort, OneSection, Answers;
  }

  lemma LastSectionsFollow(s: System, e: Event, i: nat)
    requires i in s.tasks && (e.Commit? || e.Record?)
    ensures i in Step(s, e).tasks && Follows(s.tasks[i], Step(s, e).tasks[i])
  {
    hide ReplySection, ReplyResult, MarkReady, DoSend, DoReceive, DoPost, DoCheck, DoCreate, DoBegin,
         DoNewTask, DoDraw, DoLookup, DoInsert, DoTake, DoErase, DoAbort, OneSection, Answers;
  }

  lemma ForwardingFollows(s: System, e: Event, i: nat)
    requires i in s.tasks && (e.DrawId? || e.Lookup? || e.InsertEntry? || e.Send? || e.Take? || e.EraseEntry?)
    ensures i in Step(s, e).tasks && Follows(s.tasks[i], Step(s, e).tasks[i])
  {
    hide Forwarded, Reachable, DoCheck, DoCreate, DoBegin, DoCommit, DoRecord, DoReceive, DoPost, DoNewTask, DoAbort,
         OneSection, Answers;
  }

  lemma OthersFollow(s: System, e: Event, i: nat)
    requires i in s.tasks && !e.Check? && !e.Create? && !e.Begin? && !e.Commit? && !e.Record?
    requires !e.DrawId? && !e.Lookup? && !e.InsertEntry? && !e.Send? && !e.Take? && !e.EraseEntry?
    ensures i in Step(s, e).tasks && Step(s, e).tasks[i] == s.tasks[i]
  {
    hide DoCheck, DoCreate, DoBegin, DoCommit, DoRecord, DoSend, DoDraw, DoLookup, DoInsert, DoTake, DoErase,
         OneSection, Answers, FabricRuns.Apply, FabricRuns.Join, OnWorkerDown, AbortAll;
  }

  /** A request keeps its command and its worker, its id and its instance. */
  lemma CommandStays(s: System, e: Event, i: nat)
    requires i in s.tasks
    ensures i in Step(s, e).tasks && Follows(s.tasks[i], Step(s, e).tasks[i])
  {
    hide Step, Enabled;
    if e.Check? || e.Create? || e.Begin? {
      FirstSectionsFollow(s, e, i);
    } else if e.Commit? || e.Record? {
      LastSectionsFollow(s, e, i);
    } else if e.DrawId? || e.Lookup? || e.InsertEntry? || e.Send? || e.Take? || e.EraseEntry? {
      ForwardingFollows(s, e, i);
    } else {
      OthersFollow(s, e, i);
    }
  }

  predicate IsRequestEvent(e: Event) {
    e.NewTask? || e.Check? || e.Create? || e.Begin? || e.DrawId? || e.Lookup? || e.InsertEntry? || e.Send? || e.Take?
    || e.EraseEntry? || e.Commit? || e.Record?
  }

  /** Only a request's own events move it. */
  lemma OnlyOwnEventsMove(s: System, e: Event, i: nat)
    requires i in s.tasks && !(IsRequestEvent(e) && e.i == i)
    ensures i in Step(s, e).tasks && Step(s, e).tasks[i] == s.tasks[i]
  {
    hide CheckFence, CreateSection, BeginSection, BeginResult, ReplySection, ReplyResult, Forwarded, Reachable,
         FabricRuns.Apply, OneSection, Answers, FabricRuns.Join, OnWorkerDown, AbortAll;
  }

  lemma NewTasksStart(s: System, e: Event, i: nat)
    requires i !in s.tasks && i in Step(s, e).tasks
    ensures e.NewTask? && Step(s, e).tasks[i] == Task(e.cmd, e.worker, Start, 0, NIL, Workers.Blank(0x50), false)
  {
    hide CheckFence, CreateSection, BeginSection, BeginResult, ReplySection, ReplyResult, Forwarded, Reachable,
         FabricRuns.Apply, OneSection, Answers, FabricRuns.Join, OnWorkerDown, AbortAll;
  }

  /** A request that has not started has no id. */
  predicate StartsBare(s: System, i: nat) { At(s, i, Start) ==> s.tasks[i].req == 0 }

  lemma StartsStayBare(s: System, e: Event, i: nat)
    requires StartsBare(s, i)
    ensures StartsBare(Step(s, e), i)
  {
    hide Step;
    if i in s.tasks {
      CommandStays(s, e, i);
    } else if i in Step(s, e).tasks {
      NewTasksStart(s, e, i);
    }
  }

  /** The check refuses a fence that is not current: the request ends not ok, and nothing else changes. */
  lemma CheckRefusesExactly(s: System, i: nat)
    requires At(s, i, Start) && IsChecked(s.tasks[i].cmd) && s.tasks[i].req == 0
    ensures var t := Step(s, Check(i));
      if CheckFence(s.shared.fabric, s.tasks[i].cmd.fence) == Authorized then
        IsPast(t, i) && t == s.(tasks := s.tasks[i := s.tasks[i].(phase := t.tasks[i].phase)])
      else
        !IsPast(t, i) && t == s.(tasks := s.tasks[i := s.tasks[i].(phase := Finished, ok := false)])
  {
    hide CheckFence;
  }

  lemma OnlyChecksLeaveStart(s: System, e: Event, i: nat)
    requires At(s, i, Start) && IsChecked(s.tasks[i].cmd) && !At(Step(s, e), i, Start)
    ensures e == Check(i) && Enabled(s, e)
  {
    hide CheckFence, CreateSection, BeginSection, BeginResult, ReplySection, ReplyResult, Forwarded, Reachable,
         FabricRuns.Apply, OneSection, Answers, FabricRuns.Join, OnWorkerDown, AbortAll;
  }

  lemma OnlyChecksPass(s: System, e: Event, i: nat)
    requires StartsBare(s, i) && !IsPast(s, i) && IsPast(Step(s, e), i)
    ensures e == Check(i) && Enabled(s, e) && i in s.tasks && IsChecked(s.tasks[i].cmd)
    ensures CheckFence(s.shared.fabric, s.tasks[i].cmd.fence) == Authorized
    ensures Step(s, e).tasks[i].cmd == s.tasks[i].cmd
  {
    hide Step, Enabled, CheckFence;
    if i in s.tasks {
      CommandStays(s, e, i);
      if At(s, i, Finished) {
        FinishedStays(s, e, i);
      } else {
        OnlyChecksLeaveStart(s, e, i);
        CheckRefusesExactly(s, i);
      }
    } else {
      NewTasksStart(s, e, i);
    }
  }

  /** Whatever has been done for a load or activation was done after a check under which its fence was current. */
  lemma {:induction false} PassedWasChecked(s: System, es: seq<Event>, i: nat)
    requires !IsPast(s, i) && StartsBare(s, i)
    ensures StartsBare(After(s, es), i)
    ensures IsPast(After(s, es), i) ==> exists k: nat :: CheckedAt(s, es, k, i, After(s, es).tasks[i].cmd.fence)
  {
    hide Step, Enabled, CheckFence, StartsBare;
    if es != [] {
      var n := |es| - 1;
      var t := After(s, es[..n]);
      PassedWasChecked(s, es[..n], i);
      StartsStayBare(t, es[n], i);
      if IsPast(t, i) {
        var f := t.tasks[i].cmd.fence;
        CommandStays(t, es[n], i);
        var k: nat :| CheckedAt(s, es[..n], k, i, f);
        assert es[..n][..k] == es[..k];
        assert CheckedAt(s, es, k, i, f);
      } else if IsPast(After(s, es), i) {
        OnlyChecksPass(t, es[n], i);
        assert CheckedAt(s, es, n, i, t.tasks[i].cmd.fence);
      }
    }
  }

  lemma NothingIsPastAtFirst(s: System)
    requires Init(s)
    ensures forall i :: !IsPast(s, i) && StartsBare(s, i)
  {
  }
}
