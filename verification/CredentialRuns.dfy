/**
 That installs can run (`src/credentials.rs`): each one whose lock is free, and a round to its end; and how many at
 once.
 */
module CredentialRuns {
  import opened Wrappers
  import opened Credentials

  /** Some steps lead from `s` to `t`. */
  ghost predicate Leads(s: System, t: System) {
    exists steps :: After(s, steps, |steps|) == t
  }

  lemma {:induction false} AfterPrefix(s: System, steps: seq<Step>, step: Step, n: nat)
    requires n <= |steps|
    ensures After(s, steps + [step], n) == After(s, steps, n)
  {
    hide Do;
    if n > 0 {
      AfterPrefix(s, steps, step, n - 1);
    }
  }

  lemma LeadsOn(s: System, t: System, step: Step)
    requires Leads(s, t)
    ensures Leads(s, Do(t, step))
  {
    hide Do;
    var steps :| After(s, steps, |steps|) == t;
    AfterPrefix(s, steps, step, |steps|);
    assert After(s, steps + [step], |steps + [step]|) == Do(t, step);
  }

  lemma LeadsToItself(s: System)
    ensures Leads(s, s)
  {
    var none: seq<Step> := [];
    assert After(s, none, |none|) == s;
  }

  // ----- One install -----

  /** Reads all made at the store's latest version. */
  function Now(s: System, n: nat): (seen: seq<nat>)
    requires s.history != []
    ensures |seen| == n && Known(seen, |s.history|)
  {
    seq(n, _ => |s.history| - 1)
  }

  /** The install as it was, holding its lock and with `n` reads made. */
  function Reading(s: System, i: nat, pod: nat, n: nat): System
    requires i < |s.installs| && s.history != []
    ensures Reading(s, i, pod, n).history == s.history
  {
    s.(installs := s.installs[i := s.installs[i].(phase := Holding, pod := Some(pod), seen := Now(s, n))])
  }

  lemma {:induction false} ReadsRun(start: System, s: System, i: nat, pod: nat, n: nat)
    requires i < |s.installs| && s.history != [] && n <= 7 && Leads(start, Reading(s, i, pod, 0))
    ensures Leads(start, Reading(s, i, pod, n))
  {
    hide Leads;
    if n > 0 {
      ReadsRun(start, s, i, pod, n - 1);
      LeadsOn(start, Reading(s, i, pod, n - 1), Read(i));
      assert Now(s, n) == Now(s, n - 1) + [|s.history| - 1];
      assert Do(Reading(s, i, pod, n - 1), Read(i)) == Reading(s, i, pod, n);
    }
  }

  /** The pod a waiting install is to write: its own, or a reconcile's conversation's newest live one. */
  predicate WillWrite(s: System, i: nat, pod: nat) {
    && i < |s.installs| && s.installs[i].phase.Waiting? && s.installs[i].seen == []
    && pod in s.pods && s.pods[pod].live
    && match s.installs[i].kind
       case Ordinary => s.installs[i].pod == Some(pod)
       case Reconcile(_) =>
         && s.pods[pod].conversation == s.installs[i].conversation
         && forall p | p in s.pods && s.pods[p].live && s.pods[p].conversation == s.installs[i].conversation :: p <= pod
  }

  /** The install has written all its files, as the store stands. */
  function Installed(s: System, i: nat, pod: nat): System
    requires WillWrite(s, i, pod) && s.history != []
  {
    var x := s.installs[i];
    var files := FilesFor(s.history, x.kind, x.conversation, Now(s, 7));
    System(s.history, s.pods[pod := s.pods[pod].(files := files)],
           s.installs[i := Install(Some(pod), x.conversation, x.kind, Ended(true), Now(s, 7))],
           s.rounds, s.log + [Write(i, pod, Now(s, 7), files, true)])
  }

  /** An install that waits for a free lock can take it, read, and write the whole of its pod's files. */
  lemma InstallsCanRun(start: System, s: System, i: nat, pod: nat)
    requires Leads(start, s) && s.history != [] && WillWrite(s, i, pod)
    requires forall j | 0 <= j < |s.installs| && s.installs[j].phase.Holding? ::
               s.installs[j].conversation != s.installs[i].conversation
    ensures Leads(start, Installed(s, i, pod))
  {
    hide Leads;
    hide FilesFor;
    hide IsMix;
    LeadsOn(start, s, Acquire(i, pod));
    AcquireRuns(s, i, pod);
    ReadsRun(start, s, i, pod, 7);
    LeadsOn(start, Reading(s, i, pod, 7), WriteAll(i));
    WriteRuns(s, i, pod);
  }

  lemma AcquireRuns(s: System, i: nat, pod: nat)
    requires s.history != [] && WillWrite(s, i, pod) && LockFree(s, s.installs[i].conversation)
    ensures Do(s, Acquire(i, pod)) == Reading(s, i, pod, 0)
  {
    hide LockFree;
    assert Now(s, 0) == [];
  }

  lemma WriteRuns(s: System, i: nat, pod: nat)
    requires s.history != [] && WillWrite(s, i, pod)
    ensures Do(Reading(s, i, pod, 7), WriteAll(i)) == Installed(s, i, pod)
  {
    hide FilesFor;
    hide IsMix;
    var t := Reading(s, i, pod, 7);
    assert IsWriting(t, i);
    assert FilesOf(t, i) == FilesFor(s.history, s.installs[i].kind, s.installs[i].conversation, Now(s, 7));
    assert Do(t, WriteAll(i)).installs == Installed(s, i, pod).installs;
  }

  // ----- A round -----

  /** No install holds a lock. */
  predicate NoneHolds(s: System) {
    forall i | 0 <= i < |s.installs| :: !s.installs[i].phase.Holding?
  }

  /** The round at `round` is over `pods`, the first `k` of them written well and the rest not begun. */
  predicate IsAt(s: System, round: nat, pods: seq<nat>, k: nat) {
    && round < |s.rounds| && k <= |pods| && NoneHolds(s)
    && s.rounds[round].pods == pods && |s.rounds[round].started| == k && s.rounds[round].inFlight == pods[k..]
    && s.rounds[round].failed == [] && s.rounds[round].answer.None?
    && forall p | p in pods :: IsLive(s, p)
  }

  lemma {:induction false} WithoutNone(pods: seq<nat>, pod: nat)
    requires pod !in pods
    ensures Without(pods, pod) == pods
  {
    if pods != [] {
      WithoutNone(pods[1..], pod);
      assert [pods[0]] + pods[1..] == pods;
    }
  }

  lemma WithoutFirst(pods: seq<nat>, k: nat)
    requires k < |pods| && Distinct(pods)
    ensures Without(pods[k..], pods[k]) == pods[k + 1..]
  {
    assert pods[k..][1..] == pods[k + 1..];
    WithoutNone(pods[k + 1..], pods[k]);
  }

  /** The round's next install can begin, run and end well. */
  lemma NextCanRun(start: System, s: System, round: nat, pods: seq<nat>, k: nat) returns (t: System)
    requires Leads(start, s) && s.history != [] && IsAt(s, round, pods, k) && k < |pods| && Distinct(pods)
    ensures Leads(start, t) && t.history == s.history && IsAt(t, round, pods, k + 1) && |t.rounds| == |s.rounds|
  {
    hide Leads;
    hide FilesFor;
    hide IsMix;
    hide Without;
    hide Distinct;
    var i := |s.installs|;
    var begun := Begun(start, s, round, pods, k);
    InstallsCanRun(start, begun, i, pods[k]);
    var done := Installed(begun, i, pods[k]);
    LeadsOn(start, done, FinishOne(round, k));
    WithoutFirst(pods, k);
    assert pods[k] in pods[k..];
    assert CanFinish(done, round, k);
    t := Do(done, FinishOne(round, k));
  }

  lemma Begun(start: System, s: System, round: nat, pods: seq<nat>, k: nat) returns (t: System)
    requires Leads(start, s) && s.history != [] && IsAt(s, round, pods, k) && k < |pods|
    ensures Leads(start, t) && t.history == s.history && t.pods == s.pods
    ensures |t.rounds| == |s.rounds|
            && t.rounds[round] == s.rounds[round].(started := s.rounds[round].started + [|s.installs|])
    ensures |t.installs| == |s.installs| + 1 && NoneHolds(t) && WillWrite(t, |s.installs|, pods[k])
  {
    hide Leads;
    LeadsOn(start, s, StartNext(round));
    t := Do(s, StartNext(round));
  }

  lemma {:induction false} RoundRuns(start: System, s: System, round: nat, pods: seq<nat>, k: nat) returns (t: System)
    requires Leads(start, s) && s.history != [] && IsAt(s, round, pods, k) && Distinct(pods)
    ensures Leads(start, t) && t.history == s.history && IsAt(t, round, pods, |pods|) && |t.rounds| == |s.rounds|
    decreases |pods| - k
  {
    hide Leads;
    hide IsAt;
    t := s;
    if k < |pods| {
      t := NextCanRun(start, s, round, pods, k);
      t := RoundRuns(start, t, round, pods, k + 1);
    } else {
      assert k == |pods| by { AtMostAll(s, round, pods, k); }
    }
  }

  lemma AtMostAll(s: System, round: nat, pods: seq<nat>, k: nat)
    requires IsAt(s, round, pods, k)
    ensures k <= |pods|
  {
  }

  /** Installs under way can all end, so that no lock is held. */
  lemma {:induction false} AllCanEnd(start: System, s: System, n: nat) returns (t: System)
    requires Leads(start, s) && n <= |s.installs| && forall i | 0 <= i < n :: !s.installs[i].phase.Holding?
    ensures Leads(start, t) && NoneHolds(t) && t.history == s.history && t.pods == s.pods && t.rounds == s.rounds
    decreases |s.installs| - n
  {
    hide Leads;
    t := s;
    if n < |s.installs| {
      LeadsOn(start, s, Fail(n));
      t := AllCanEnd(start, Do(s, Fail(n)), n + 1);
    }
  }

  /**
   Whatever is under way, steps remain after which a round over every live pod has answered with none of them. By
   `AnswerTellsTheRest` each was then written in full.
   */
  lemma RoundsCanEndWell(s: System, pods: seq<nat>) returns (steps: seq<Step>)
    requires s.history != [] && Distinct(pods) && forall p :: p in pods <==> IsLive(s, p)
    ensures var t := After(s, steps, |steps|);
            && t.history == s.history && |t.rounds| == |s.rounds| + 1
            && t.rounds[|s.rounds|].pods == pods && t.rounds[|s.rounds|].answer == Some([])
  {
    hide Do;
    LeadsToItself(s);
    var t := AllCanEnd(s, s, 0);
    LeadsOn(s, t, ListPods(pods));
    ListedIsAt(t, pods);
    t := RoundRuns(s, Do(t, ListPods(pods)), |s.rounds|, pods, 0);
    LeadsOn(s, t, Answer(|s.rounds|));
    AnsweredWell(t, |s.rounds|, pods);
    steps :| After(s, steps, |steps|) == Do(t, Answer(|s.rounds|));
  }

  lemma ListedIsAt(s: System, pods: seq<nat>)
    requires s.history != [] && NoneHolds(s) && Distinct(pods) && forall p :: p in pods <==> IsLive(s, p)
    ensures var t := Do(s, ListPods(pods));
            IsAt(t, |s.rounds|, pods, 0) && t.history == s.history && |t.rounds| == |s.rounds| + 1
  {
    hide Distinct;
    assert forall p | p in s.pods && s.pods[p].live :: IsLive(s, p);
    assert pods[0..] == pods;
  }

  lemma AnsweredWell(s: System, round: nat, pods: seq<nat>)
    requires IsAt(s, round, pods, |pods|)
    ensures var t := Do(s, Answer(round));
            && t.history == s.history && |t.rounds| == |s.rounds|
            && t.rounds[round].pods == pods && t.rounds[round].answer == Some([])
  {
    var none: seq<nat> := [];
    assert pods[|pods|..] == none && none + none == none;
  }

  // ----- How many at once -----

  /** How many of the first `n` pods' installs have not ended. */
  function Unended(pods: seq<nat>, inFlight: seq<nat>, n: nat): nat
    requires n <= |pods|
  {
    if n == 0 then 0 else Unended(pods, inFlight, n - 1) + if pods[n - 1] in inFlight then 1 else 0
  }

  predicate Fits(r: Round) {
    && |r.started| <= |r.pods| && Distinct(r.pods) && Distinct(r.inFlight)
    && Unended(r.pods, r.inFlight, |r.started|) <= UnderWay(r) <= 8
  }

  predicate AllFit(s: System) {
    forall i | 0 <= i < |s.rounds| :: Fits(s.rounds[i])
  }

  lemma {:induction false} WithoutOnce(pods: seq<nat>, pod: nat)
    requires Distinct(pods) && pod in pods
    ensures |Without(pods, pod)| == |pods| - 1 && Distinct(Without(pods, pod))
  {
    if pods[0] == pod {
      WithoutNone(pods[1..], pod);
      assert Without(pods, pod) == pods[1..];
    } else {
      var rest := Without(pods[1..], pod);
      WithoutOnce(pods[1..], pod);
      WithoutIs(pods[1..], pod, pods[0]);
      assert Without(pods, pod) == [pods[0]] + rest;
      assert pods[0] !in rest;
    }
  }

  lemma {:induction false} OneEnds(pods: seq<nat>, inFlight: seq<nat>, k: nat, n: nat)
    requires n <= |pods| && k < |pods| && Distinct(pods) && pods[k] in inFlight
    ensures Unended(pods, Without(inFlight, pods[k]), n)
            == Unended(pods, inFlight, n) - if k < n then 1 else 0
  {
    if n > 0 {
      OneEnds(pods, inFlight, k, n - 1);
      WithoutIs(inFlight, pods[k], pods[n - 1]);
    }
  }

  lemma FinishFits(s: System, round: nat, k: nat)
    requires AllFit(s) && CanFinish(s, round, k)
    ensures Fits(Do(s, FinishOne(round, k)).rounds[round])
  {
    hide Distinct;
    var r := s.rounds[round];
    assert Fits(r);
    WithoutOnce(r.inFlight, r.pods[k]);
    OneEnds(r.pods, r.inFlight, k, |r.started|);
  }

  lemma StepFits(s: System, step: Step)
    requires AllFit(s)
    ensures AllFit(Do(s, step))
  {
    hide FilesFor;
    hide IsMix;
    hide IsWriting;
    hide LockFree;
    hide CanFinish;
    hide Distinct;
    hide Without;
    hide NewInstall;
    hide HasPod;
    hide IsNewest;
    hide Fits;
    match step
    case ListPods(pods) =>
      if Distinct(pods) && s.history != [] {
        ListedFits(pods, |s.history| - 1);
      }
    case StartNext(round) =>
      if round < |s.rounds| && |s.rounds[round].started| < |s.rounds[round].pods|
          && UnderWay(s.rounds[round]) < INSTALLS_AT_ONCE {
        StartFits(s.rounds[round], |s.installs|);
      }
    case FinishOne(round, k) =>
      if CanFinish(s, round, k) {
        FinishFits(s, round, k);
        OthersStay(s, round, k);
      }
    case Answer(round) =>
      if round < |s.rounds| {
        AnswerFits(s.rounds[round]);
      }
    case _ =>
  }

  lemma OthersStay(s: System, round: nat, k: nat)
    requires CanFinish(s, round, k)
    ensures var t := Do(s, FinishOne(round, k));
            |t.rounds| == |s.rounds| && forall i | 0 <= i < |s.rounds| && i != round :: t.rounds[i] == s.rounds[i]
  {
    hide Without;
  }

  lemma ListedFits(pods: seq<nat>, since: nat)
    requires Distinct(pods)
    ensures Fits(Round(pods, since, [], pods, [], None))
  {
  }

  lemma StartFits(r: Round, install: nat)
    requires Fits(r) && |r.started| < |r.pods| && UnderWay(r) < INSTALLS_AT_ONCE
    ensures Fits(r.(started := r.started + [install]))
  {
  }

  lemma AnswerFits(r: Round)
    requires Fits(r)
    ensures Fits(r.(answer := Some(r.inFlight + r.failed)))
  {
  }

  /** In every run, no more than eight of a round's installs that have begun have not ended. */
  lemma {:induction false} EightAtMost(start: System, steps: seq<Step>, n: nat, round: nat)
    requires n <= |steps| && start.rounds == [] && round < |After(start, steps, n).rounds|
    ensures var r := After(start, steps, n).rounds[round];
            && |r.started| <= |r.pods| && Unended(r.pods, r.inFlight, |r.started|) <= 8
  {
    EveryRunFits(start, steps, n);
  }

  lemma {:induction false} EveryRunFits(start: System, steps: seq<Step>, n: nat)
    requires n <= |steps| && start.rounds == []
    ensures AllFit(After(start, steps, n))
  {
    hide Do;
    if n > 0 {
      EveryRunFits(start, steps, n - 1);
      StepFits(After(start, steps, n - 1), steps[n - 1]);
    }
  }
}
