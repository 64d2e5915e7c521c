/** A bound on the length of every session nobody interrupts, and how such a session ends. */
module SessionEnds {
  import opened Paths
  import opened Planner
  import opened Commit
  import opened PendingCommitModel
  import opened Reconciliation
  import opened Convergence
  import opened Obstruction
  import opened Session
  import opened SessionSafety
  import opened SessionProgress

  /** Steps an operation still needs: sending, requesting, serving, receiving, staging. */
  function Rank(st: Snapshot, id: nat): nat {
    var t := st.destination;
    if id >= t.emitted then 7
    else if id >= Taken(t) then 6
    else if id in t.jobs then
      (match t.jobs[id].transfer case Requested => 4 case Served => 2 case Received(_) => 1)
      + (if id in st.temporaries then 0 else 1)
    else 0
  }

  function Work(st: Snapshot, n: nat): nat {
    if n == 0 then 0 else Rank(st, n - 1) + Work(st, n - 1)
  }

  lemma {:induction false} WorkSame(st: Snapshot, st': Snapshot, n: nat)
    requires forall id: nat :: id < n ==> Rank(st', id) == Rank(st, id)
    ensures Work(st', n) == Work(st, n)
  {
    if n > 0 { WorkSame(st, st', n - 1); }
  }

  lemma {:induction false} WorkDrops(st: Snapshot, st': Snapshot, n: nat, id: nat)
    requires id < n && forall other: nat :: other < n && other != id ==> Rank(st', other) == Rank(st, other)
    ensures Work(st', n) - Rank(st', id) == Work(st, n) - Rank(st, id)
  {
    if id == n - 1 { WorkSame(st, st', n - 1); } else { WorkDrops(st, st', n - 1, id); }
  }

  function PlanningRank(t: Destination): nat {
    match t.planning case Unstarted => 6 case Merging => 4 case Merged => 2 case Announced => 0
  }

  function StatusRank(a: SourceStatus, t: DestinationStatus): nat {
    (match t case Working => 6 case Committed => 4 case Acknowledged => 2 case _ => 0)
    + (match a case Serving => 3 case Draining => 2 case Closed => 1 case _ => 0)
  }

  /** What is left of the scans, the streams and the merge. */
  function IndexLeft(w: World, st: Snapshot): int {
    var a, t := st.source, st.destination;
    3 * |Items(w.s)| - a.scanned - 2 * a.sent + |st.index| + (|Items(w.d)| - t.listed)
    + 2 * (|w.s| - t.merge.i) + 2 * (|w.d| - t.merge.j)
    + (if t.merge.left then 0 else 1) + (if t.merge.right then 0 else 1)
  }

  /** What is left of the streams, the scans and the protocol. */
  function Bookkeeping(w: World, st: Snapshot): int {
    var a, t := st.source, st.destination;
    IndexLeft(w, st) + PlanningRank(t) + |st.control| + StatusRank(a.status, t.status)
    + (if t.requested then 0 else 1) + |a.jobs|
  }

  function Measure(w: World, st: Snapshot): int {
    Bookkeeping(w, st) + Work(st, |PlanOf(w)|)
  }

  lemma SourceWork(w: World, st: Snapshot, step: Step)
    requires Safe(w, st) && Uninterrupted(st) && SourceStep(w, st, step).Some? && Productive(step)
    ensures Measure(w, SourceStep(w, st, step).value) < Measure(w, st)
  {
    hide ControlOk, PlanOk, Conserved, Applied, Run, Planned, Measure;
    if step.AcceptTransfer? {
      AcceptDescends(w, st, step.id);
    } else {
      SourceSameWork(w, st, step);
      SameWorkDescends(w, st, SourceStep(w, st, step).value);
    }
  }

  predicate SameRanks(st: Snapshot, st': Snapshot) {
    var t, t' := st.destination, st'.destination;
    && t'.emitted == t.emitted && t'.queue == t.queue && t'.jobs == t.jobs && st'.temporaries == st.temporaries
  }

  lemma RankSame(st: Snapshot, st': Snapshot, id: nat)
    requires SameRanks(st, st')
    ensures Rank(st', id) == Rank(st, id)
  {
  }

  lemma SourceSameWork(w: World, st: Snapshot, step: Step)
    requires SourceStep(w, st, step).Some? && Productive(step) && !step.AcceptTransfer?
    ensures SameRanks(st, SourceStep(w, st, step).value)
    ensures Bookkeeping(w, SourceStep(w, st, step).value) < Bookkeeping(w, st)
  {
    hide OnSignal, PlanningRank, Items, InFlight, Planned;
    if step.ReadControl? { SignalDescends(st.source, st.control[0], st.destination.status); }
  }

  lemma SignalDescends(a: Source, signal: Signal, t: DestinationStatus)
    requires a.status.Serving?
    ensures
      var a' := OnSignal(a, signal);
      && a'.sent == a.sent && a'.scanned == a.scanned && a'.jobs == a.jobs
      && StatusRank(a'.status, t) <= StatusRank(a.status, t)
  {
  }

  lemma AcceptDescends(w: World, st: Snapshot, id: nat)
    requires Conserved(w, st) && SourceStep(w, st, AcceptTransfer(id)).Some?
    ensures Measure(w, SourceStep(w, st, AcceptTransfer(id)).value) < Measure(w, st)
  {
    hide Planned, Work, StagedAs, StagedOk;
    assert JobOk(w, st, id);
    WorkDrops(st, SourceStep(w, st, AcceptTransfer(id)).value, |PlanOf(w)|, id);
  }

  /** The steps that move one operation on, and which one. */
  function Moved(st: Snapshot, step: Step): Option<nat> {
    match step
    case Emit => Some(st.destination.emitted)
    case StageDirectly => Some(if Taken(st.destination) < 0 then 0 else Taken(st.destination))
    case RequestFile => Some(if Taken(st.destination) < 0 then 0 else Taken(st.destination))
    case CreateTemporary(id) => Some(id)
    case ReceiveFile(id) => Some(id)
    case JoinTransfer(id) => Some(id)
    case _ => None
  }

  lemma StagingSameWork(w: World, st: Snapshot, step: Step)
    requires StagingStep(w, st, step).Some? && Moved(st, step).None?
    ensures SameRanks(st, StagingStep(w, st, step).value)
    ensures Bookkeeping(w, StagingStep(w, st, step).value) < Bookkeeping(w, st)
  {
    hide OpsHere, Ended, Takes, Items;
    if step.Advance? { Progress(LeftHead(st.destination), RightHead(w, st.destination)); }
  }

  lemma EmitDescends(w: World, st: Snapshot)
    requires IndexOk(w, st) && PlanOk(w, st.destination) && Conserved(w, st) && StagingStep(w, st, Emit).Some?
    ensures Measure(w, StagingStep(w, st, Emit).value) < Measure(w, st)
  {
    hide Planned, Work, OpsHere, StagedAs;
    EmitsPlanned(w, st);
    WorkDrops(st, StagingStep(w, st, Emit).value, |PlanOf(w)|, st.destination.emitted);
  }

  lemma StageDirectlyDescends(w: World, st: Snapshot)
    requires Good(w) && Conserved(w, st) && StagingStep(w, st, StageDirectly).Some?
    ensures Measure(w, StagingStep(w, st, StageDirectly).value) < Measure(w, st)
  {
    hide Planned, Work, Good, OpsHere, StagedAs, JobOk, StagedOk;
    HeadOfQueue(w, st);
    WorkDrops(st, StagingStep(w, st, StageDirectly).value, |PlanOf(w)|, Taken(st.destination));
  }

  lemma RequestDescends(w: World, st: Snapshot)
    requires Good(w) && Conserved(w, st) && StagingStep(w, st, RequestFile).Some?
    ensures Measure(w, StagingStep(w, st, RequestFile).value) < Measure(w, st)
  {
    hide Planned, Work, Good, OpsHere, StagedAs, JobOk, StagedOk;
    HeadOfQueue(w, st);
    WorkDrops(st, StagingStep(w, st, RequestFile).value, |PlanOf(w)|, Taken(st.destination));
  }

  lemma CreateDescends(w: World, st: Snapshot, id: nat)
    requires JobOk(w, st, id) && StagingStep(w, st, CreateTemporary(id)).Some?
    ensures Measure(w, StagingStep(w, st, CreateTemporary(id)).value) < Measure(w, st)
  {
    hide Planned, Work, StagedAs;
    WorkDrops(st, StagingStep(w, st, CreateTemporary(id)).value, |PlanOf(w)|, id);
  }

  lemma ReceiveDescends(w: World, st: Snapshot, id: nat)
    requires JobOk(w, st, id) && StagingStep(w, st, ReceiveFile(id)).Some?
    requires StagingStep(w, st, ReceiveFile(id)).value.destination.status.Working?
    ensures Measure(w, StagingStep(w, st, ReceiveFile(id)).value) < Measure(w, st)
  {
    hide Planned, Work, StagedAs, TransferredFile;
    WorkDrops(st, StagingStep(w, st, ReceiveFile(id)).value, |PlanOf(w)|, id);
  }

  lemma JoinDescends(w: World, st: Snapshot, id: nat)
    requires JobOk(w, st, id) && StagingStep(w, st, JoinTransfer(id)).Some?
    requires StagingStep(w, st, JoinTransfer(id)).value.destination.status.Working?
    ensures Measure(w, StagingStep(w, st, JoinTransfer(id)).value) < Measure(w, st)
  {
    hide Planned, Work, StagedAs;
    WorkDrops(st, StagingStep(w, st, JoinTransfer(id)).value, |PlanOf(w)|, id);
  }

  /** The operation a step is about is in a transfer. */
  lemma StepJob(w: World, st: Snapshot, step: Step)
    requires Conserved(w, st) && StagingStep(w, st, step).Some?
    requires step.CreateTemporary? || step.ReceiveFile? || step.JoinTransfer?
    ensures JobOk(w, st, step.id)
  {
    hide JobOk, StagedOk, TransferredFile, Planned;
  }

  lemma SameWorkDescends(w: World, st: Snapshot, st': Snapshot)
    requires SameRanks(st, st') && Bookkeeping(w, st') < Bookkeeping(w, st)
    ensures Measure(w, st') < Measure(w, st)
  {
    hide Planned, Bookkeeping, Rank;
    forall id: nat ensures Rank(st', id) == Rank(st, id) { RankSame(st, st', id); }
    WorkSame(st, st', |PlanOf(w)|);
  }

  lemma StagingDescends(w: World, st: Snapshot, step: Step)
    requires Good(w) && Safe(w, st) && StagingStep(w, st, step).Some?
    ensures Measure(w, StagingStep(w, st, step).value) < Measure(w, st)
  {
    hide StagingStep, Conserved, JobOk, IndexOk, ControlOk, PlanOk, TreeOk, Owned, Good, Planned, Measure;
    StagingConserves(w, st, step);
    if Moved(st, step).None? {
      StagingSameWork(w, st, step);
      SameWorkDescends(w, st, StagingStep(w, st, step).value);
    } else if step.Emit? {
      EmitDescends(w, st);
    } else if step.StageDirectly? {
      StageDirectlyDescends(w, st);
    } else if step.RequestFile? {
      RequestDescends(w, st);
    } else {
      StepJob(w, st, step);
      if step.CreateTemporary? { CreateDescends(w, st, step.id); }
      else if step.ReceiveFile? { ReceiveDescends(w, st, step.id); }
      else { JoinDescends(w, st, step.id); }
    }
  }

  lemma ClosingDescends(w: World, st: Snapshot, step: Step)
    requires ClosingStep(w, st, step).Some? && Productive(step)
    requires step.CommitAll? ==> st.destination.jobs == map[]
    ensures Measure(w, ClosingStep(w, st, step).value) < Measure(w, st)
  {
    hide Planned, Run, InOrder, Ended, Work;
    var st' := ClosingStep(w, st, step).value;
    WorkSame(st, st', |PlanOf(w)|);
  }

  lemma StepDescends(w: World, st: Snapshot, step: Step)
    requires Good(w) && Safe(w, st) && Uninterrupted(st) && Productive(step) && Take(w, st, step).Some?
    ensures Measure(w, Take(w, st, step).value) < Measure(w, st)
  {
    hide SourceStep, StagingStep, ControlOk, IndexOk, PlanOk, TreeOk, Good, Planned, Measure, Run, InOrder, Ended;
    if SourceStep(w, st, step).Some? {
      SourceWork(w, st, step);
    } else if StagingStep(w, st, step).Some? {
      StagingDescends(w, st, step);
    } else {
      ClosingDescends(w, st, step);
    }
  }

  lemma MeasureSign(w: World, st: Snapshot)
    requires IndexOk(w, st) && PlanOk(w, st.destination)
    ensures Measure(w, st) >= 0
  {
    hide Planned, Work, MergeDiff, OpsAt;
  }

  /** With nothing unmanaged in the way, no step a peer takes of its own accord interrupts the session. */
  lemma StaysUninterrupted(w: World, st: Snapshot, step: Step)
    requires Good(w) && Clear(w.p) && Safe(w, st) && Uninterrupted(st) && Productive(step) && Take(w, st, step).Some?
    ensures Uninterrupted(Take(w, st, step).value)
  {
    hide Good, Clear, IndexOk, PlanOk, ControlOk, Conserved, Run, InOrder, Planned, StageAll, TransferredFile, OpsHere, Ended;
    if step.CommitAll? && st.destination.requested {
      EverythingStaged(w, st);
      CommitSucceeds(w);
    }
  }

  lemma CommitSucceeds(w: World)
    requires Good(w) && Clear(w.p)
    ensures Run(w.root, StageAll(w.p, PlanOf(w))).ok
  {
    hide Planned, StageAll, Run, Clear, Synchronized, Valid, SourceIndex, DestinationIndex;
    CommitSucceedsIff(w.p, w.root, w.s, w.d);
  }

  predicate AllProductive(steps: seq<Step>) {
    forall k :: 0 <= k < |steps| ==> Productive(steps[k])
  }

  /** Every interleaving without a failure has at most this many steps. */
  lemma {:induction false} SessionBounded(w: World, steps: seq<Step>)
    requires Good(w) && Clear(w.p) && AllProductive(steps) && TakeAll(w, steps).Some?
    ensures
      var st := TakeAll(w, steps).value;
      Uninterrupted(st) && 0 <= Measure(w, st) && |steps| + Measure(w, st) <= Measure(w, Initial(w))
    decreases |steps|
  {
    hide Good, Clear, Take, Measure, ControlOk, PlanOk, TreeOk, Conserved, IndexOk;
    AlwaysSafe(w, steps);
    MeasureSign(w, TakeAll(w, steps).value);
    if steps != [] {
      var before := steps[..|steps| - 1];
      SessionBounded(w, before);
      AlwaysSafe(w, before);
      StepDescends(w, TakeAll(w, before).value, steps[|steps| - 1]);
      StaysUninterrupted(w, TakeAll(w, before).value, steps[|steps| - 1]);
    }
  }

  /**
   * Total correctness: when no peer fails and nothing unmanaged is in the way, every interleaving
   * that cannot go on has ended with both peers successful and the destination equal to the source.
   */
  lemma SessionSucceeds(w: World, steps: seq<Step>)
    requires Good(w) && Clear(w.p) && AllProductive(steps) && TakeAll(w, steps).Some?
    requires forall step :: !Enabled(w, TakeAll(w, steps).value, step)
    ensures
      var st := TakeAll(w, steps).value;
      BothReturned(st) && Synchronized(w.p, st.fs.nodes) && st.trace == Protocol && |steps| <= Measure(w, Initial(w))
  {
    hide Good, Clear, TakeAll, Enabled, Measure, Synchronized, Applied, IndexOk, PlanOk, Conserved;
    SessionBounded(w, steps);
    AlwaysSafe(w, steps);
    if !BothReturned(TakeAll(w, steps).value) {
      var step := NeverStuck(w, steps);
    }
    SourceSuccess(w, steps);
  }

  /**
   * Every interleaving without failures can be carried on to its end: it extends to one in which both
   * peers have returned successfully.
   */
  lemma {:induction false} SessionExtends(w: World, steps: seq<Step>) returns (more: seq<Step>)
    requires Good(w) && Clear(w.p) && AllProductive(steps) && TakeAll(w, steps).Some?
    ensures AllProductive(steps + more) && TakeAll(w, steps + more).Some?
    ensures
      var st := TakeAll(w, steps + more).value;
      BothReturned(st) && Synchronized(w.p, st.fs.nodes)
    decreases Measure(w, Initial(w)) - |steps|
  {
    hide Good, Clear, Measure, Synchronized, Applied, IndexOk, PlanOk, Conserved, Safe, SourceStep, StagingStep, ClosingStep;
    SessionBounded(w, steps);
    var st := TakeAll(w, steps).value;
    if BothReturned(st) {
      more := [];
      assert steps + more == steps;
      SourceSuccess(w, steps);
    } else {
      var step := NeverStuck(w, steps);
      var longer := steps + [step];
      assert longer[..|longer| - 1] == steps && longer[|longer| - 1] == step;
      SessionBounded(w, longer);
      var later := SessionExtends(w, longer);
      more := [step] + later;
      assert steps + more == longer + later;
    }
  }
}
