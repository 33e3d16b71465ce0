/**
 * The main invariant theorem: in every interleaving of calls, every committed state
 * satisfies the invariants, every step writes rows legally, and any two states are
 * related as earlier and later.
 */
module Reachable {
  import opened Prelude
  import opened Tables
  import opened Machine
  import opened Invariants
  import opened Preservation
  import opened Submissions
  import opened Dispatches

  /** One more call, whatever it read and whenever it read it, is a legal step to a sound state. */
  lemma ExecKeeps(h: History, c: Call)
    requires HistoryInv(h)
    ensures GoodStep(Last(h), Exec(h, c))
  {
    LastIsSound(h);
    NothingHappens(Last(h));
    if Try(h, c).Some? {
      TryKeeps(h, c);
    }
  }

  lemma TryKeeps(h: History, c: Call)
    requires HistoryInv(h) && Try(h, c).Some?
    ensures GoodStep(Last(h), Try(h, c).value)
  {
    hide HistoryInv, GoodStep, TrySubmit, TryApprove, TryDispatch, TryFinish, TryRecord, TryResolve, TryAcknowledge,
         TryTransition, TryMaintain, TryCreateCluster, TryCreatePlan, ClaimTx;
    match c
    case CreateSite(_, _) => CreateSiteKeeps(h, c);
    case TransitionSite(_, _, _, _) => TransitionSiteKeeps(h, c);
    case CreateCluster(_, _, _) => CreateClusterKeeps(h, c);
    case DegradeCluster(_, _) => MaintainKeeps(h, c);
    case RecoverCluster(_, _) => MaintainKeeps(h, c);
    case CreatePlan(_, _, _, _) => CreatePlanKeeps(h, c);
    case SubmitPlan(_, _, _, _, _, _, _, _, _, _) => SubmitPlanKeeps(h, c);
    case ApprovePlan(_, _, _, _, _) => ApprovePlanKeeps(h, c);
    case DispatchPlan(_, _, _, _, _, _, _, _) => DispatchPlanKeeps(h, c);
    case ClaimJobs(owner, _, candidates, now, duration) =>
      LastIsSound(h);
      JobsClaimed(Last(h), owner, candidates, now, duration);
    case FinishJob(_, _, _, _, _) => FinishJobKeeps(h, c);
    case RecordTelemetry(_, _, _, _, _, _, _) => RecordKeeps(h, c);
    case AcknowledgeAlarm(_, _, _, _, _) => AcknowledgeKeeps(h, c);
    case ResolveAlarm(_, _, _, _, _, _, _) => ResolveKeeps(h, c);
  }

  lemma GoodStepFollows(a: Db, b: Db)
    requires Inv(a) && GoodStep(a, b)
    ensures Follows(a, b) && Follows(b, b)
  {
    Parts(a);
    Parts(b);
    hide Inv;
    StepFollows(a, b);
    StepFollows(b, b);
  }

  lemma GoodStepSound(a: Db, b: Db)
    requires GoodStep(a, b)
    ensures Inv(b)
  {
  }

  lemma HistoryGrows(h: History, b: Db, next: History)
    requires HistoryInv(h) && GoodStep(Last(h), b) && next == h + [b]
    ensures HistoryInv(next)
  {
    hide *;
    LastIsSound(h);
    GoodStepFollows(Last(h), b);
    GoodStepSound(Last(h), b);
    forall i: nat | i < |h| ensures Inv(h[i]) && Follows(h[i], b) {
      HistoryAt(h, i);
      FollowsIsTransitive(h[i], Last(h), b);
    }
    HistoryOf(h, b, next);
  }

  lemma HistoryOf(h: History, b: Db, next: History)
    requires (forall i: nat :: i < |h| ==> Inv(h[i]) && Follows(h[i], b)) && Inv(b) && Follows(b, b) && next == h + [b]
    ensures HistoryInv(next)
  {
    hide Inv, Follows;
    assert Last(next) == b;
  }

  lemma EmptyIsSound()
    ensures HistoryInv([EMPTY])
  {
    hide Follows, Inv;
    EmptyTablesAreSound();
  }

  lemma EmptyTablesAreSound()
    ensures Inv(EMPTY) && Follows(EMPTY, EMPTY)
  {
    assert forall p :: p in EMPTY.plans ==> false;
  }

  // ----- Histories -----

  lemma StepBy(h: History, k: nat) returns (c: Call)
    requires IsHistory(h) && 0 < k < |h|
    ensures h[k] == Exec(h[..k], c)
  {
    hide Exec;
    assert IsStep(h, k);
    c :| Leads(h[..k], c, h[k]);
  }

  lemma HistoryPrefix(h: History, n: nat)
    requires IsHistory(h) && 0 < n <= |h|
    ensures IsHistory(h[..n])
  {
    hide Exec;
    var a: History := h[..n];
    forall k | 0 < k < n ensures IsStep(a, k) {
      assert a[..k] == h[..k];
      var c := StepBy(h, k);
      assert Leads(a[..k], c, a[k]);
    }
  }

  /** Every history keeps every invariant in every state. */
  lemma {:induction false} HistoryIsSound(h: History)
    requires IsHistory(h)
    ensures HistoryInv(h)
  {
    var n := |h| - 1;
    if n == 0 {
      assert h == [EMPTY];
      EmptyIsSound();
    } else {
      hide HistoryInv, Exec;
      HistoryPrefix(h, n);
      hide IsHistory;
      HistoryIsSound(h[..n]);
      HistorySoundNext(h, n);
    }
  }

  lemma HistorySoundNext(h: History, n: nat)
    requires IsHistory(h) && 0 < n == |h| - 1 && HistoryInv(h[..n])
    ensures HistoryInv(h)
  {
    hide HistoryInv, Exec, IsHistory, GoodStep;
    var c := StepBy(h, n);
    ExecKeeps(h[..n], c);
    assert h == h[..n] + [h[n]];
    HistoryGrows(h[..n], h[n], h);
  }

  /** The states of a run, call after call, are a history, and every history is one of a run. */
  lemma {:induction false} RunIsHistory(calls: seq<Call>)
    ensures IsHistory(Run(calls))
  {
    if calls != [] {
      var n := |calls| - 1;
      RunIsHistory(calls[..n]);
      hide Exec;
      ExtendIsHistory(Run(calls[..n]), calls[n]);
    }
  }

  lemma ExtendIsHistory(h: History, c: Call)
    requires IsHistory(h)
    ensures IsHistory(Extend(h, c))
  {
    hide Exec;
    var a: History := h + [Exec(h, c)];
    forall k | 0 < k < |a| ensures IsStep(a, k) {
      assert a[..k] == h[..k];
      if k < |h| {
        var d := StepBy(h, k);
        assert Leads(a[..k], d, a[k]);
      } else {
        assert h[..k] == h;
        assert Leads(a[..k], c, a[k]);
      }
    }
  }

  lemma {:induction false} HistoryIsRun(h: History) returns (calls: seq<Call>)
    requires IsHistory(h)
    ensures Run(calls) == h
  {
    var n := |h| - 1;
    if n == 0 {
      calls := [];
    } else {
      hide Exec;
      HistoryPrefix(h, n);
      var before := HistoryIsRun(h[..n]);
      var c := StepBy(h, n);
      calls := before + [c];
      RunAppends(before, c);
      assert h == h[..n] + [h[n]];
    }
  }

  lemma RunAppends(calls: seq<Call>, c: Call)
    ensures Run(calls + [c]) == Run(calls) + [Exec(Run(calls), c)]
  {
    hide Exec;
    assert (calls + [c])[..|calls|] == calls;
  }

  /** Every interleaving keeps every invariant in every state. */
  lemma RunIsSound(calls: seq<Call>)
    ensures HistoryInv(Run(calls))
  {
    hide Run, IsHistory, HistoryInv;
    RunIsHistory(calls);
    HistoryIsSound(Run(calls));
  }

  lemma StateIsSound(h: History, k: nat)
    requires IsHistory(h) && k < |h|
    ensures Inv(h[k])
  {
    hide IsHistory, HistoryInv, Inv;
    HistoryIsSound(h);
    HistoryAt(h, k);
  }

  /** Each step of a history is one call on the states before it, legal row by row, to a sound state. */
  lemma StepAt(h: History, k: nat)
    requires IsHistory(h) && k + 1 < |h|
    ensures HistoryInv(h[..k + 1]) && Last(h[..k + 1]) == h[k]
    ensures GoodStep(h[k], h[k + 1])
  {
    hide IsHistory, HistoryInv, GoodStep, Exec;
    HistoryPrefix(h, k + 1);
    HistoryIsSound(h[..k + 1]);
    var c := StepBy(h, k + 1);
    ExecKeeps(h[..k + 1], c);
  }

  /** Any two states of a history are related as earlier and later. */
  lemma FollowsAt(h: History, i: nat, k: nat)
    requires IsHistory(h) && i <= k < |h|
    ensures Follows(h[i], h[k])
  {
    hide Follows, Inv, IsHistory, HistoryInv;
    HistoryPrefix(h, k + 1);
    HistoryIsSound(h[..k + 1]);
    assert h[..k + 1][i] == h[i];
    HistoryAt(h[..k + 1], i);
  }
}
