/** A session nobody interrupts is never stuck and comes to an end. */
module SessionProgress {
  import opened Planner
  import opened Commit
  import opened Journal
  import opened PendingCommitModel
  import opened Reconciliation
  import opened Convergence
  import opened Session
  import opened SessionSafety

  /** Everything a peer does of its own accord, unlike failing and cleaning up after a failure. */
  predicate Productive(step: Step) {
    !step.SourceFails? && !step.DestinationFails? && !step.DropTransfer? && !step.DropStaged?
  }

  predicate Uninterrupted(st: Snapshot) {
    !st.source.status.Stopped? && !st.destination.status.Failed?
  }

  predicate BothReturned(st: Snapshot) {
    st.source.status.Succeeded? && st.destination.status.Done?
  }

  ghost predicate Enabled(w: World, st: Snapshot, step: Step) {
    && Productive(step)
    && (SourceStep(w, st, step).Some? || StagingStep(w, st, step).Some? || ClosingStep(w, st, step).Some?)
  }

  lemma AnyJob(jobs: map<nat, Job>) returns (id: nat)
    requires jobs != map[]
    ensures id in jobs
  {
    id :| id in jobs;
  }

  /** A served transfer can always go on. */
  lemma ServedMoves(w: World, st: Snapshot, id: nat) returns (step: Step)
    requires st.destination.status.Working? && id in st.destination.jobs
    requires st.destination.jobs[id].transfer.Served? && st.destination.jobs[id].operation.UpsertFile?
    ensures Enabled(w, st, step)
  {
    hide TransferredFile, SourceStep, ClosingStep;
    if id in st.temporaries { return ReceiveFile(id); }
    return CreateTemporary(id);
  }

  lemma RequestedMoves(w: World, st: Snapshot, id: nat)
    requires id in st.destination.jobs && st.destination.jobs[id].transfer.Requested?
    requires st.source.status.Serving? && |st.source.jobs| < w.sourceCapacity
    ensures Enabled(w, st, AcceptTransfer(id))
  {
    hide StagingStep, ClosingStep;
  }

  lemma ServiceEnds(w: World, st: Snapshot, id: nat)
    requires id in st.source.jobs && (st.source.status.Serving? || st.source.status.Draining?)
    requires id !in st.destination.jobs || st.destination.jobs[id].transfer.Received?
    ensures Enabled(w, st, FinishService(id))
  {
    hide StagingStep, ClosingStep;
  }

  lemma TransferJoins(w: World, st: Snapshot, id: nat)
    requires st.destination.status.Working? && id in st.destination.jobs
    requires st.destination.jobs[id].transfer.Received? && JoinsNow(w, st.destination)
    ensures Enabled(w, st, JoinTransfer(id))
  {
    hide SourceStep, ClosingStep;
  }

  /** The requesting task waits for a transfer. */
  predicate JoinsNow(w: World, t: Destination) {
    if t.queue == [] then t.planning.Merged? || t.planning.Announced?
    else t.queue[0].UpsertFile? && |t.jobs| >= w.capacity
  }

  /** A transfer in progress can go on, or the source can make room for it. */
  lemma TransferMoves(w: World, st: Snapshot, id: nat) returns (step: Step)
    requires Conserved(w, st) && st.destination.status.Working? && st.source.status.Serving?
    requires id in st.destination.jobs && !st.destination.jobs[id].transfer.Received? && w.sourceCapacity > 0
    ensures Enabled(w, st, step)
  {
    hide Enabled, Planned, StagedOk, StagedAs;
    var a, t := st.source, st.destination;
    assert JobOk(w, st, id);
    if t.jobs[id].transfer.Served? {
      step := ServedMoves(w, st, id);
    } else if |a.jobs| < w.sourceCapacity {
      step := AcceptTransfer(id);
      RequestedMoves(w, st, id);
    } else {
      assert a.jobs != {} by { assert |a.jobs| > 0; }
      var busy :| busy in a.jobs;
      if busy in t.jobs && !t.jobs[busy].transfer.Received? {
        assert JobOk(w, st, busy);
        step := ServedMoves(w, st, busy);
      } else {
        step := FinishService(busy);
        ServiceEnds(w, st, busy);
      }
    }
  }

  /** While operations remain, the requesting task or one of its transfers can move. */
  lemma RequestingMoves(w: World, st: Snapshot) returns (step: Step)
    requires w.capacity > 0 && w.sourceCapacity > 0
    requires Conserved(w, st) && st.destination.status.Working? && st.source.status.Serving?
    requires
      var t := st.destination;
      t.queue != [] || (!t.requested && (t.planning.Merged? || t.planning.Announced?))
    ensures Enabled(w, st, step)
  {
    hide Conserved, Enabled;
    var t := st.destination;
    if t.queue == [] && t.jobs == map[] {
      step := RequestingEnd;
      RequestingEnds(w, st);
    } else if t.queue != [] && (!t.queue[0].UpsertFile? || |t.jobs| < w.capacity) {
      step := HeadMoves(w, st);
    } else {
      assert t.queue != [] ==> t.jobs != map[];
      step := JobMoves(w, st);
    }
  }

  lemma RequestingEnds(w: World, st: Snapshot)
    requires
      var t := st.destination;
      t.status.Working? && t.queue == [] && t.jobs == map[] && !t.requested
      && (t.planning.Merged? || t.planning.Announced?)
    ensures Enabled(w, st, RequestingEnd)
  {
    hide SourceStep, ClosingStep;
  }

  lemma HeadMoves(w: World, st: Snapshot) returns (step: Step)
    requires st.destination.status.Working? && st.destination.queue != []
    requires !st.destination.queue[0].UpsertFile? || |st.destination.jobs| < w.capacity
    ensures Enabled(w, st, step)
  {
    hide SourceStep, ClosingStep;
    if st.destination.queue[0].UpsertFile? { return RequestFile; }
    return StageDirectly;
  }

  lemma JobMoves(w: World, st: Snapshot) returns (step: Step)
    requires Conserved(w, st) && st.destination.status.Working? && st.source.status.Serving?
    requires JoinsNow(w, st.destination) && st.destination.jobs != map[] && w.sourceCapacity > 0
    ensures Enabled(w, st, step)
  {
    hide Enabled, Conserved;
    var t := st.destination;
    var id := AnyJob(t.jobs);
    if t.jobs[id].transfer.Received? {
      step := JoinTransfer(id);
      TransferJoins(w, st, id);
    } else {
      step := TransferMoves(w, st, id);
    }
  }

  /** The planner, or what it waits for, can move until the plan is announced. */
  lemma PlanningMoves(w: World, st: Snapshot) returns (step: Step)
    requires Good(w) && Safe(w, st) && st.destination.status.Working? && st.source.status.Serving?
    requires !st.destination.planning.Announced?
    ensures Enabled(w, st, step)
  {
    hide ControlOk, TreeOk, Conserved, TransferredFile, Planned, OpsHere, SourceStep, ClosingStep, SourceIndex, DestinationIndex, Valid;
    var t := st.destination;
    if t.planning.Unstarted? { return Accept; }
    if t.planning.Merged? { return AnnouncePlan; }
    if !t.merge.left {
      step := SourceMoves(w, st);
      return;
    }
    if !t.merge.right {
      if t.merge.j < t.listed { return TakeDestination; }
      return ScanDestination;
    }
    if LeftHead(t).None? && RightHead(w, t).None? { return MergeEnd; }
    HeadsAre(w, st);
    if t.merge.here == |OpsHere(w, t)| { return Advance; }
    if |t.queue| < w.capacity { return Emit; }
    step := RequestingMoves(w, st);
  }

  /** A planner waiting for the source's next item gets it, or the way there is free. */
  lemma SourceMoves(w: World, st: Snapshot) returns (step: Step)
    requires w.capacity > 0 && w.sourceCapacity > 0 && w.window > 0
    requires IndexOk(w, st) && PlanOk(w, st.destination)
    requires st.destination.status.Working? && st.source.status.Serving?
    requires st.destination.planning.Merging? && !st.destination.merge.left
    ensures Enabled(w, st, step)
  {
    hide Planned, OpsHere, ClosingStep, MergeDiff, OpsAt, TransferredFile;
    var a, t := st.source, st.destination;
    if t.merge.i < |t.remote| { return TakeSource; }
    RemoteIs(w, st);
    EndedItems(w.s, |t.remote|);
    if st.index != [] { return ReadIndex; }
    assert t.remote + st.index == t.remote;
    if a.sent < a.scanned { return SendItem; }
    return ScanSource;
  }

  /** After the commit, the acknowledgment goes through and both peers close. */
  lemma ClosingMoves(w: World, st: Snapshot) returns (step: Step)
    requires Safe(w, st) && Uninterrupted(st) && !st.destination.status.Working? && !BothReturned(st)
    ensures Enabled(w, st, step)
  {
    hide Conserved, StagingStep, Planned, Run, StageAll, Ended, Applied, InFlight, IndexOk, PlanOk, RunEvents, InOrder;
    var a, t := st.source, st.destination;
    if t.status.Committed? { return Acknowledge; }
    if a.status.Serving? { return ReadControl; }
    if a.status.Draining? {
      if a.jobs == {} { return CloseControl; }
      var id :| id in a.jobs;
      return FinishService(id);
    }
    if t.status.Acknowledged? { return DestinationReturn; }
    IndexAllSent(w, st);
    return SourceReturn;
  }

  lemma IndexAllSent(w: World, st: Snapshot)
    requires IndexOk(w, st) && PlanOk(w, st.destination) && st.destination.planning.Announced?
    ensures st.source.sent == |Items(w.s)| && Ended(st.destination.remote) && st.destination.listed == |Items(w.d)|
  {
    hide Planned, MergeDiff, OpsAt;
    RemoteIs(w, st);
    EndedItems(w.s, |st.destination.remote|);
    assert |st.destination.remote + st.index| == st.source.sent;
  }

  /** While the destination works, the source serves. */
  lemma WorkingServes(w: World, st: Snapshot)
    requires Safe(w, st) && Uninterrupted(st) && st.destination.status.Working?
    ensures st.source.status.Serving?
  {
    hide Conserved, IndexOk, PlanOk, TreeOk;
  }

  /** No reachable, uninterrupted session is stuck before both peers have returned successfully. */
  lemma NeverStuck(w: World, steps: seq<Step>) returns (step: Step)
    requires Good(w) && TakeAll(w, steps).Some?
    requires Uninterrupted(TakeAll(w, steps).value) && !BothReturned(TakeAll(w, steps).value)
    ensures Enabled(w, TakeAll(w, steps).value, step)
  {
    hide TakeAll, Enabled, ControlOk, IndexOk, PlanOk, TreeOk, Conserved, Valid, SourceIndex, DestinationIndex;
    AlwaysSafe(w, steps);
    var st := TakeAll(w, steps).value;
    if !st.destination.status.Working? {
      step := ClosingMoves(w, st);
      return;
    }
    WorkingServes(w, st);
    if !st.destination.planning.Announced? {
      step := PlanningMoves(w, st);
    } else if !st.destination.requested {
      step := RequestingMoves(w, st);
    } else {
      step := CommitAll;
      CommitGoes(w, st);
    }
  }

  lemma CommitGoes(w: World, st: Snapshot)
    requires IndexOk(w, st) && PlanOk(w, st.destination) && st.destination.status.Working?
    requires st.destination.planning.Announced? && st.destination.requested
    ensures Enabled(w, st, CommitAll)
  {
    hide Run, InOrder, StagingStep, Planned, MergeDiff, OpsAt, Ended, RunEvents;
    IndexAllSent(w, st);
  }
}
