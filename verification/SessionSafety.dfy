/** What every interleaving of a session keeps. */
module SessionSafety {
  import opened Paths
  import opened Records
  import opened Planner
  import opened PlanDiff
  import opened Tree
  import opened Commit
  import opened Journal
  import opened Complete
  import opened PendingCommitModel
  import opened Reconciliation
  import opened Convergence
  import opened Obstruction
  import opened Basis
  import opened Session

  const Protocol: seq<Signal> := [StartAccepted, PlanEnd, CompleteAck]

  function PlanOf(w: World): seq<Operation> {
    Planned(w.s, w.d)
  }

  /** Signals the source has read. */
  function ReadSignals(st: Snapshot): int {
    |st.trace| - |st.control|
  }

  /** The protocol, signal by signal. */
  function NthSignal(k: int): Signal {
    if k <= 0 then StartAccepted else if k == 1 then PlanEnd else CompleteAck
  }

  /** What is in flight is the part of the protocol sent but not read. */
  predicate InFlight(trace: seq<Signal>, control: seq<Signal>) {
    && |control| <= |trace| <= |Protocol|
    && (forall k :: 0 <= k < |trace| ==> trace[k] == NthSignal(k))
    && (forall k :: 0 <= k < |control| ==> control[k] == NthSignal(|trace| - |control| + k))
  }

  /** The destination follows the protocol, and the source has read a prefix of what was sent. */
  predicate ControlOk(st: Snapshot) {
    var a, t, read := st.source, st.destination, ReadSignals(st);
    && InFlight(st.trace, st.control)
    && (a.accepted <==> read >= 1) && (a.planned <==> read >= 2)
    && (a.status.Serving? ==> read < 3)
    && (a.status.Draining? || a.status.Closed? || a.status.Succeeded? ==> read == 3)
    && !a.status.Rejecting?
    && (t.planning.Unstarted? ==> |st.trace| == 0)
    && (t.planning.Merging? || t.planning.Merged? ==> |st.trace| == 1)
    && (t.planning.Announced? ==> |st.trace| >= 2)
    && (t.status.Working? || t.status.Committed? ==> |st.trace| < 3)
    && (t.status.Committed? || t.status.Acknowledged? || t.status.Done? ==> t.planning.Announced?)
    && (t.status.Acknowledged? || t.status.Done? ==> |st.trace| == 3)
    && (t.status.Done? ==> a.status.Closed? || a.status.Succeeded? || a.status.Stopped?)
  }

  /** Both indexes are streamed in order, and every channel holds no more than it may. */
  predicate IndexOk(w: World, st: Snapshot) {
    var a, t := st.source, st.destination;
    && a.sent <= a.scanned <= |Items(w.s)| && a.scanned <= a.sent + w.sourceCapacity
    && t.remote + st.index == Items(w.s)[..a.sent] && |st.index| <= w.window
    && LeftRead(t.merge) <= |t.remote| <= LeftRead(t.merge) + w.capacity
    && RightRead(t.merge) <= t.listed <= |Items(w.d)| && t.listed <= RightRead(t.merge) + w.capacity
    && (a.status.Succeeded? ==> a.sent == |Items(w.s)|)
  }

  /** Where the planner's position is numbered from. */
  function Base(t: Destination): int {
    t.emitted - t.merge.here
  }

  /** What the planner still has to send is what the merge still has to yield. */
  predicate PlanOk(w: World, t: Destination) {
    var m := t.merge;
    && m.i <= |w.s| && m.j <= |w.d| && 0 <= Base(t) && t.emitted <= |PlanOf(w)|
    && PlanOf(w)[Base(t)..] == MergeDiff(w.s, w.d, m.i, m.j, Base(t))
    && m.here <= |OpsAt(Head(w.s, m.i), Head(w.d, m.j), Base(t))|
    && (t.planning.Unstarted? ==> t.emitted == 0)
    && (t.planning.Merged? || t.planning.Announced? ==>
          t.emitted == |PlanOf(w)| && m.i == |w.s| && m.j == |w.d| && m.left && m.right)
  }

  /** Operations taken off the queue. */
  function Taken(t: Destination): int {
    t.emitted - |t.queue|
  }

  predicate JobOk(w: World, st: Snapshot, id: nat) {
    var t := st.destination;
    && id in t.jobs && id < Taken(t) <= |PlanOf(w)|
    && t.jobs[id].operation == PlanOf(w)[id] && PlanOf(w)[id].UpsertFile?
    && (t.jobs[id].transfer.Received? ==>
          StagedAs(w.p, PlanOf(w)[id]).file == Some(t.jobs[id].transfer.file) && id in st.temporaries)
  }

  predicate StagedOk(w: World, st: Snapshot, id: nat) {
    var t := st.destination;
    && id in t.staged && id !in t.jobs && id < Taken(t) <= |PlanOf(w)|
    && t.staged[id] == StagedAs(w.p, PlanOf(w)[id])
    && (PlanOf(w)[id].UpsertFile? ==> id in st.temporaries)
  }

  /** The queue is the next part of the plan, and the bounds hold. */
  predicate QueueOk(w: World, t: Destination) {
    && 0 <= Taken(t) && t.emitted <= |PlanOf(w)| && t.queue == PlanOf(w)[Taken(t)..t.emitted]
    && |t.queue| <= w.capacity && |t.jobs| <= w.capacity
    && (t.requested ==> Taken(t) == |PlanOf(w)| && t.jobs == map[])
  }

  /** No operation taken off the queue is lost. */
  predicate NoneLost(t: Destination) {
    forall id: nat :: id < Taken(t) ==> id in t.jobs || id in t.staged
  }

  /** The source serves only transfers that were requested and accepted. */
  predicate ServicesOk(st: Snapshot) {
    var t := st.destination;
    forall id :: id in st.source.jobs ==> id < Taken(t) && (id in t.jobs ==> !t.jobs[id].transfer.Requested?)
  }

  /** Every operation sent is in exactly one place: queued, in a transfer, or staged. */
  predicate Conserved(w: World, st: Snapshot) {
    && QueueOk(w, st.destination)
    && (forall id :: id in st.destination.jobs ==> JobOk(w, st, id))
    && (forall id :: id in st.destination.staged ==> StagedOk(w, st, id))
    && NoneLost(st.destination) && ServicesOk(st)
  }

  /** The commit has succeeded and nothing has failed since. */
  predicate AfterCommit(status: DestinationStatus) {
    status.Committed? || status.Acknowledged? || status.Done?
  }

  /** Every temporary belongs to a transfer or to a staged file, and none is left after a commit. */
  predicate Owned(st: Snapshot) {
    var t := st.destination;
    && (forall id :: id in st.temporaries ==> id in t.jobs || (id in t.staged && t.staged[id].operation.UpsertFile?))
    && (AfterCommit(t.status) ==> st.temporaries == {})
  }

  ghost predicate Applied(w: World, fs: Fs) {
    var done := Run(w.root, StageAll(w.p, PlanOf(w)));
    done.ok && fs == done.value.fs
  }

  /** The live tree is untouched before the barrier; afterwards it is what the planned run makes of it. */
  ghost predicate TreeOk(w: World, st: Snapshot) {
    var t := st.destination;
    && (t.status.Working? ==> st.fs == w.root)
    && (t.status.Committed? || t.status.Acknowledged? || t.status.Done? || |st.trace| == 3 ==> Applied(w, st.fs))
    && (t.status.Committed? || t.status.Acknowledged? || t.status.Done? ==> t.jobs == map[])
    && (t.status.Failed? ==> st.fs == w.root || st.fs == Run(w.root, StageAll(w.p, PlanOf(w))).value.fs)
  }

  ghost predicate Safe(w: World, st: Snapshot) {
    && ControlOk(st) && IndexOk(w, st) && PlanOk(w, st.destination)
    && (st.destination.status.Working? ==> Conserved(w, st))
    && Owned(st) && TreeOk(w, st)
    && |st.source.jobs| <= w.sourceCapacity && !st.destination.status.Broken?
  }

  /** Only the whole index is announced to be over. */
  lemma {:induction false} EndedItems(s: seq<Record>, k: nat)
    requires k <= |s| + 1
    ensures Ended(Items(s)[..k]) <==> k == |s| + 1
    decreases |s|
  {
    var items := Items(s)[..k];
    if k > 0 && s != [] {
      assert items[1..] == Items(s[1..])[..k - 1];
      EndedItems(s[1..], k - 1);
    }
  }

  /** What has arrived is the beginning of the source's index. */
  lemma RemoteIs(w: World, st: Snapshot)
    requires IndexOk(w, st)
    ensures |st.destination.remote| <= |Items(w.s)| && st.destination.remote == Items(w.s)[..|st.destination.remote|]
  {
    var t := st.destination;
    assert t.remote == (t.remote + st.index)[..|t.remote|];
  }

  /** The lookaheads in hand are the heads of the two indexes. */
  lemma HeadsAre(w: World, st: Snapshot)
    requires IndexOk(w, st) && PlanOk(w, st.destination) && st.destination.merge.left
    ensures LeftHead(st.destination) == Head(w.s, st.destination.merge.i)
    ensures OpsHere(w, st.destination)
         == OpsAt(Head(w.s, st.destination.merge.i), Head(w.d, st.destination.merge.j), Base(st.destination))
  {
    hide Planned;
    RemoteIs(w, st);
  }

  /** What the merge yields from a position is that position's operations and then the rest. */
  lemma MergeTurn(s: seq<Record>, d: seq<Record>, i: nat, j: nat, id: nat)
    requires i <= |s| && j <= |d| && (i < |s| || j < |d|)
    ensures
      var l, r := Takes(Head(s, i), Head(d, j)), Takes(Head(d, j), Head(s, i));
      var ops := OpsAt(Head(s, i), Head(d, j), id);
      && Next(i, l) <= |s| && Next(j, r) <= |d|
      && MergeDiff(s, d, i, j, id) == ops + MergeDiff(s, d, Next(i, l), Next(j, r), id + |ops|)
  {
    Progress(Head(s, i), Head(d, j));
  }

  /** The planner only ever sends the next operation of the one plan. */
  lemma EmitsPlanned(w: World, st: Snapshot)
    requires IndexOk(w, st) && PlanOk(w, st.destination) && StagingStep(w, st, Emit).Some?
    ensures
      var t := st.destination;
      t.emitted < |PlanOf(w)| && OpsHere(w, t)[t.merge.here] == PlanOf(w)[t.emitted]
  {
    hide Planned, MergeDiff, OpsAt;
    var t := st.destination;
    var m := t.merge;
    HeadsAre(w, st);
    NothingAtEnd(Base(t));
    MergeTurn(w.s, w.d, m.i, m.j, Base(t));
    assert PlanOf(w)[Base(t)..][m.here] == PlanOf(w)[t.emitted];
  }

  lemma NothingAtEnd(id: nat)
    ensures OpsAt(None, None, id) == []
  {
  }

  lemma InitialPlan(w: World)
    requires Good(w)
    ensures IndexOk(w, Initial(w)) && PlanOk(w, Initial(w).destination)
  {
    hide Good, MergeDiff, OpsAt, Items;
    assert [] + [] == Items(w.s)[..0];
    assert PlanOf(w)[0..] == PlanOf(w);
  }

  lemma InitiallySafe(w: World)
    requires Good(w)
    ensures Safe(w, Initial(w))
  {
    hide Run, IndexOk, PlanOk, Planned, StageAll, JobOk, StagedOk, Applied;
    InitialPlan(w);
    assert PlanOf(w)[0..0] == [];
  }

  /** Reading the next signal never surprises the source. */
  lemma SignalExpected(w: World, st: Snapshot)
    requires ControlOk(st) && SourceStep(w, st, ReadControl).Some?
    ensures ControlOk(SourceStep(w, st, ReadControl).value)
  {
    assert st.control[0] == NthSignal(ReadSignals(st));
  }

  lemma SourceQuiet(w: World, st: Snapshot, step: Step)
    requires ControlOk(st) && SourceStep(w, st, step).Some? && !step.ReadControl?
    ensures ControlOk(SourceStep(w, st, step).value)
  {
    hide InFlight, OnSignal;
  }

  lemma SourceKeepsControl(w: World, st: Snapshot, step: Step)
    requires ControlOk(st) && SourceStep(w, st, step).Some?
    ensures ControlOk(SourceStep(w, st, step).value)
  {
    hide SourceStep, ControlOk;
    if step.ReadControl? { SignalExpected(w, st); } else { SourceQuiet(w, st, step); }
  }

  lemma SignalSent(st: Snapshot, signal: Signal)
    requires InFlight(st.trace, st.control) && |st.trace| < 3 && signal == NthSignal(|st.trace|)
    ensures
      var sent := SendControl(st, signal);
      InFlight(sent.trace, sent.control) && ReadSignals(sent) == ReadSignals(st)
  {
  }

  /** What the control invariant is about, unchanged. */
  predicate SameTalk(st: Snapshot, st': Snapshot) {
    && st'.control == st.control && st'.trace == st.trace
    && st'.source.accepted == st.source.accepted && st'.source.planned == st.source.planned
    && st'.source.status == st.source.status
  }

  lemma SameTalkKeeps(st: Snapshot, st': Snapshot)
    requires ControlOk(st) && SameTalk(st, st')
    requires
      var t, t' := st.destination, st'.destination;
      && (t'.planning == t.planning || (t.planning.Merging? && t'.planning.Merged?))
      && (t'.status == t.status || t'.status.Failed? || t'.status.Broken?
          || (t.status.Working? && t.planning.Announced? && t'.status.Committed?)
          || (t.status.Acknowledged? && t'.status.Done? && (st.source.status.Closed? || st.source.status.Succeeded?)))
    ensures ControlOk(st')
  {
    hide InFlight;
  }

  lemma StagingQuiet(w: World, st: Snapshot, step: Step)
    requires ControlOk(st) && StagingStep(w, st, step).Some? && !step.Accept? && !step.AnnouncePlan?
    ensures ControlOk(StagingStep(w, st, step).value)
  {
    hide TransferredFile, OpsHere, Ended, ControlOk;
    SameTalkKeeps(st, StagingStep(w, st, step).value);
  }

  lemma AcceptTalks(w: World, st: Snapshot)
    requires ControlOk(st) && StagingStep(w, st, Accept).Some?
    ensures ControlOk(StagingStep(w, st, Accept).value)
  {
    hide TransferredFile, OpsHere, Ended, InFlight;
    SignalSent(st, StartAccepted);
  }

  lemma AnnounceTalks(w: World, st: Snapshot)
    requires ControlOk(st) && StagingStep(w, st, AnnouncePlan).Some?
    ensures ControlOk(StagingStep(w, st, AnnouncePlan).value)
  {
    hide TransferredFile, OpsHere, Ended, InFlight;
    SignalSent(st, PlanEnd);
  }

  lemma AcknowledgeTalks(w: World, st: Snapshot)
    requires ControlOk(st) && ClosingStep(w, st, Acknowledge).Some? && |st.trace| == 2
    ensures ControlOk(ClosingStep(w, st, Acknowledge).value)
  {
    hide Run, InOrder, Ended, InFlight;
    SignalSent(st, CompleteAck);
  }

  lemma StagingKeepsControl(w: World, st: Snapshot, step: Step)
    requires ControlOk(st) && StagingStep(w, st, step).Some?
    ensures ControlOk(StagingStep(w, st, step).value)
  {
    hide StagingStep, ControlOk;
    if step.Accept? {
      AcceptTalks(w, st);
    } else if step.AnnouncePlan? {
      AnnounceTalks(w, st);
    } else {
      StagingQuiet(w, st, step);
    }
  }

  lemma ClosingQuiet(w: World, st: Snapshot, step: Step)
    requires ControlOk(st) && ClosingStep(w, st, step).Some? && !step.Acknowledge?
    ensures ControlOk(ClosingStep(w, st, step).value)
  {
    hide Run, InOrder, Ended, ControlOk;
    SameTalkKeeps(st, ClosingStep(w, st, step).value);
  }

  lemma AboutToAcknowledge(w: World, st: Snapshot)
    requires ControlOk(st) && ClosingStep(w, st, Acknowledge).Some?
    ensures |st.trace| == 2
  {
    hide InFlight;
  }

  lemma ClosingKeepsControl(w: World, st: Snapshot, step: Step)
    requires ControlOk(st) && ClosingStep(w, st, step).Some?
    ensures ControlOk(ClosingStep(w, st, step).value)
  {
    hide ClosingStep, ControlOk;
    if step.Acknowledge? {
      AboutToAcknowledge(w, st);
      AcknowledgeTalks(w, st);
    } else {
      ClosingQuiet(w, st, step);
    }
  }

  lemma SourceKeepsIndex(w: World, st: Snapshot, step: Step)
    requires IndexOk(w, st) && SourceStep(w, st, step).Some?
    ensures IndexOk(w, SourceStep(w, st, step).value)
  {
  }

  lemma StagingKeepsIndex(w: World, st: Snapshot, step: Step)
    requires IndexOk(w, st) && StagingStep(w, st, step).Some?
    ensures IndexOk(w, StagingStep(w, st, step).value)
  {
    hide TransferredFile, OpsHere, Ended;
  }

  lemma ClosingKeepsIndex(w: World, st: Snapshot, step: Step)
    requires IndexOk(w, st) && ClosingStep(w, st, step).Some?
    ensures IndexOk(w, ClosingStep(w, st, step).value)
  {
    hide Run, InOrder, Ended, Items;
  }

  lemma SourceKeepsPlan(w: World, st: Snapshot, step: Step)
    requires PlanOk(w, st.destination) && SourceStep(w, st, step).Some?
    ensures PlanOk(w, SourceStep(w, st, step).value.destination)
  {
    hide OnSignal, Planned, Ended;
  }

  lemma EmitKeepsPlan(w: World, st: Snapshot)
    requires IndexOk(w, st) && PlanOk(w, st.destination) && StagingStep(w, st, Emit).Some?
    ensures PlanOk(w, StagingStep(w, st, Emit).value.destination)
  {
    hide Planned, MergeDiff, OpsAt, Items, OpsHere;
    EmitsPlanned(w, st);
    HeadsAre(w, st);
  }

  lemma AdvanceKeepsPlan(w: World, st: Snapshot)
    requires IndexOk(w, st) && PlanOk(w, st.destination) && StagingStep(w, st, Advance).Some?
    ensures PlanOk(w, StagingStep(w, st, Advance).value.destination)
  {
    hide Planned, MergeDiff, OpsAt, Items, Takes, OpsHere;
    var t := st.destination;
    HeadsAre(w, st);
    MergeTurn(w.s, w.d, t.merge.i, t.merge.j, Base(t));
    var ops := OpsHere(w, t);
    assert PlanOf(w)[t.emitted..] == PlanOf(w)[Base(t)..][|ops|..];
  }

  lemma MergeEndKeepsPlan(w: World, st: Snapshot)
    requires IndexOk(w, st) && PlanOk(w, st.destination) && StagingStep(w, st, MergeEnd).Some?
    ensures PlanOk(w, StagingStep(w, st, MergeEnd).value.destination)
  {
    hide Planned, Items, OpsFor, OpsHere;
    var t := st.destination;
    HeadsAre(w, st);
    NothingAtEnd(Base(t));
    assert |PlanOf(w)[Base(t)..]| == 0;
  }

  lemma QuietKeepsPlan(w: World, st: Snapshot, step: Step)
    requires PlanOk(w, st.destination) && StagingStep(w, st, step).Some?
    requires !step.Emit? && !step.Advance? && !step.MergeEnd?
    ensures PlanOk(w, StagingStep(w, st, step).value.destination)
  {
    hide Planned, Items, OpsAt, OpsHere, MergeDiff, Ended, TransferredFile, StagedAs;
  }

  lemma StagingKeepsPlan(w: World, st: Snapshot, step: Step)
    requires IndexOk(w, st) && PlanOk(w, st.destination) && StagingStep(w, st, step).Some?
    ensures PlanOk(w, StagingStep(w, st, step).value.destination)
  {
    hide StagingStep, PlanOk, IndexOk;
    if step.Emit? { EmitKeepsPlan(w, st); }
    else if step.Advance? { AdvanceKeepsPlan(w, st); }
    else if step.MergeEnd? { MergeEndKeepsPlan(w, st); }
    else { QuietKeepsPlan(w, st, step); }
  }

  lemma ClosingKeepsPlan(w: World, st: Snapshot, step: Step)
    requires PlanOk(w, st.destination) && ClosingStep(w, st, step).Some?
    ensures PlanOk(w, ClosingStep(w, st, step).value.destination)
  {
    hide Run, InOrder, Planned, Ended;
  }

  lemma PlannedId(w: World, id: nat)
    requires Good(w) && id < |PlanOf(w)|
    ensures PlanOf(w)[id].id == id
  {
    PlanNumbered(w.s, w.d, 0, 0, 0);
  }

  /** The operation at the head of the queue. */
  lemma HeadOfQueue(w: World, st: Snapshot)
    requires Good(w) && Conserved(w, st) && st.destination.queue != []
    ensures
      var t := st.destination;
      && Taken(t) < |PlanOf(w)| && t.queue[0] == PlanOf(w)[Taken(t)] && t.queue[0].id == Taken(t)
      && t.queue[1..] == PlanOf(w)[Taken(t) + 1..t.emitted]
      && t.queue[0].id !in t.jobs && t.queue[0].id !in t.staged && !t.requested
  {
    hide Planned, Good;
    var t := st.destination;
    PlannedId(w, Taken(t));
  }

  /** Every place but the queue, before and after a step that leaves them alone. */
  predicate SameWork(before: Snapshot, after: Snapshot) {
    var t, t' := before.destination, after.destination;
    && t'.queue == t.queue && t'.emitted == t.emitted && t'.jobs == t.jobs && t'.staged == t.staged
    && t'.requested == t.requested && after.temporaries == before.temporaries
    && after.source.jobs <= before.source.jobs
  }

  lemma EmitKeeps(w: World, st: Snapshot)
    requires IndexOk(w, st) && PlanOk(w, st.destination) && Conserved(w, st) && StagingStep(w, st, Emit).Some?
    ensures Conserved(w, StagingStep(w, st, Emit).value)
  {
    hide OpsHere, Planned, Ended, TransferredFile, StagedAs, Items, IndexOk, PlanOk, MergeDiff, OpsAt;
    EmitsPlanned(w, st);
    var st' := StagingStep(w, st, Emit).value;
    var t, t' := st.destination, st'.destination;
    assert t'.queue == PlanOf(w)[Taken(t)..t.emitted] + [PlanOf(w)[t.emitted]];
    forall id | id in t'.jobs ensures JobOk(w, st', id) { assert JobOk(w, st, id); }
    forall id | id in t'.staged ensures StagedOk(w, st', id) { assert StagedOk(w, st, id); }
  }

  lemma StageDirectlyKeeps(w: World, st: Snapshot)
    requires Good(w) && Conserved(w, st) && StagingStep(w, st, StageDirectly).Some?
    ensures
      var st' := StagingStep(w, st, StageDirectly).value;
      Conserved(w, st') && (Owned(st) ==> Owned(st')) && st'.destination.status == st.destination.status
  {
    hide Planned, Good, OpsHere, Ended, TransferredFile;
    HeadOfQueue(w, st);
    var st' := StagingStep(w, st, StageDirectly).value;
    var t, t' := st.destination, st'.destination;
    forall id | id in t'.jobs ensures JobOk(w, st', id) { assert JobOk(w, st, id); }
    forall id | id in t'.staged ensures StagedOk(w, st', id) { assert id in t.staged ==> StagedOk(w, st, id); }
  }

  function HeadRequested(st: Snapshot): Snapshot
    requires st.destination.queue != []
  {
    var t := st.destination;
    st.(destination := t.(queue := t.queue[1..], jobs := t.jobs[t.queue[0].id := Job(t.queue[0], Requested)]))
  }

  lemma HeadPlaced(w: World, st: Snapshot, st': Snapshot)
    requires Good(w) && Conserved(w, st) && st.destination.queue != [] && st.destination.queue[0].UpsertFile?
    requires |st.destination.jobs| < w.capacity && st' == HeadRequested(st)
    ensures forall id :: id in st'.destination.jobs ==> JobOk(w, st', id)
    ensures forall id :: id in st'.destination.staged ==> StagedOk(w, st', id)
  {
    hide Planned, Good, StagedAs;
    HeadOfQueue(w, st);
    var t, t' := st.destination, st'.destination;
    forall id | id in t'.jobs ensures JobOk(w, st', id) { assert id in t.jobs ==> JobOk(w, st, id); }
    forall id | id in t'.staged ensures StagedOk(w, st', id) { assert StagedOk(w, st, id); }
  }

  lemma HeadQueue(w: World, st: Snapshot, st': Snapshot)
    requires Good(w) && Conserved(w, st) && st.destination.queue != [] && st.destination.queue[0].UpsertFile?
    requires |st.destination.jobs| < w.capacity && st' == HeadRequested(st)
    ensures QueueOk(w, st'.destination)
  {
    hide Planned, Good, JobOk, StagedOk, NoneLost, ServicesOk;
    HeadOfQueue(w, st);
  }

  lemma HeadKept(w: World, st: Snapshot, st': Snapshot)
    requires Good(w) && Conserved(w, st) && st.destination.queue != [] && st.destination.queue[0].UpsertFile?
    requires |st.destination.jobs| < w.capacity && st' == HeadRequested(st)
    ensures NoneLost(st'.destination) && ServicesOk(st')
  {
    hide Planned, Good, JobOk, StagedOk, QueueOk;
    HeadOfQueue(w, st);
  }

  lemma RequestFileKeeps(w: World, st: Snapshot)
    requires Good(w) && Conserved(w, st) && StagingStep(w, st, RequestFile).Some?
    ensures Conserved(w, StagingStep(w, st, RequestFile).value)
  {
    hide Good, QueueOk, JobOk, StagedOk, NoneLost, ServicesOk, OpsHere, Ended, TransferredFile;
    var st' := StagingStep(w, st, RequestFile).value;
    HeadQueue(w, st, st');
    HeadPlaced(w, st, st');
    HeadKept(w, st, st');
  }

  /** The bytes a transfer stages are the source's bytes at the path. */
  lemma ContentIsSource(w: World, st: Snapshot, id: nat)
    requires Good(w) && JobOk(w, st, id) && st.fs == w.root
    ensures TransferredFile(w, st.fs.nodes, PlanOf(w)[id]) == StagedAs(w.p, PlanOf(w)[id]).file
    ensures TransferredFile(w, st.fs.nodes, PlanOf(w)[id]).Some?
  {
    hide Planned, RegularAt, Valid, SourceIndex, DestinationIndex;
    BasisExists(w.p, w.s, w.d, PlanOf(w)[id]);
  }

  lemma ReceiveFileKeeps(w: World, st: Snapshot, id: nat)
    requires Good(w) && Conserved(w, st) && st.fs == w.root && StagingStep(w, st, ReceiveFile(id)).Some?
    ensures
      var st' := StagingStep(w, st, ReceiveFile(id)).value;
      Conserved(w, st') && st'.destination.status == st.destination.status
      && st'.destination.jobs.Keys == st.destination.jobs.Keys
  {
    hide Planned, Good, TransferredFile, OpsHere, Ended, StagedAs, QueueOk;
    assert JobOk(w, st, id);
    ContentIsSource(w, st, id);
    var st' := StagingStep(w, st, ReceiveFile(id)).value;
    var t, t' := st.destination, st'.destination;
    assert t'.jobs.Keys == t.jobs.Keys;
    SameQueue(w, t, t');
    forall other | other in t'.jobs ensures JobOk(w, st', other) { assert JobOk(w, st, other); }
    forall other | other in t'.staged ensures StagedOk(w, st', other) { assert StagedOk(w, st, other); }
  }

  /** A finished transfer becomes a staged change. */
  lemma JoinTransferIs(w: World, st: Snapshot, id: nat)
    requires Good(w) && Conserved(w, st) && StagingStep(w, st, JoinTransfer(id)).Some?
    ensures JobOk(w, st, id) && st.destination.jobs[id].transfer.Received?
    ensures
      var t := st.destination;
      StagingStep(w, st, JoinTransfer(id)).value
      == st.(destination := t.(jobs := t.jobs - {id}, staged := t.staged[id := StagedAs(w.p, PlanOf(w)[id])]))
  {
    hide Planned, Good, OpsHere, Ended, TransferredFile, QueueOk, NoneLost, ServicesOk;
    assert JobOk(w, st, id);
    assert id in st.destination.staged ==> StagedOk(w, st, id);
    PlannedId(w, id);
  }

  lemma JoinedQueue(w: World, t: Destination, t': Destination, id: nat)
    requires QueueOk(w, t) && id in t.jobs && t'.jobs.Keys == t.jobs.Keys - {id}
    requires t'.emitted == t.emitted && t'.queue == t.queue && t'.requested == t.requested
    ensures QueueOk(w, t')
  {
    hide Planned;
    assert |t'.jobs| == |t'.jobs.Keys| && |t.jobs| == |t.jobs.Keys|;
  }

  lemma JoinedKeeps(w: World, st: Snapshot, st': Snapshot, id: nat)
    requires Conserved(w, st) && JobOk(w, st, id) && st.destination.jobs[id].transfer.Received?
    requires
      var t := st.destination;
      st' == st.(destination := t.(jobs := t.jobs - {id}, staged := t.staged[id := StagedAs(w.p, PlanOf(w)[id])]))
    ensures Conserved(w, st') && (Owned(st) ==> Owned(st'))
  {
    hide Planned, QueueOk;
    var t, t' := st.destination, st'.destination;
    assert t'.jobs.Keys == t.jobs.Keys - {id};
    JoinedQueue(w, t, t', id);
    forall other | other in t'.jobs ensures JobOk(w, st', other) { assert JobOk(w, st, other); }
    forall other | other in t'.staged ensures StagedOk(w, st', other) {
      assert other in t.staged ==> StagedOk(w, st, other);
    }
  }

  lemma JoinTransferKeeps(w: World, st: Snapshot, id: nat)
    requires Good(w) && Conserved(w, st) && StagingStep(w, st, JoinTransfer(id)).Some?
    ensures
      var st' := StagingStep(w, st, JoinTransfer(id)).value;
      Conserved(w, st') && (Owned(st) ==> Owned(st')) && st'.destination.status == st.destination.status
  {
    JoinTransferIs(w, st, id);
    hide Planned, Good, StagingStep, Conserved, Owned;
    JoinedKeeps(w, st, StagingStep(w, st, JoinTransfer(id)).value, id);
  }

  lemma AcceptTransferKeeps(w: World, st: Snapshot, id: nat)
    requires Conserved(w, st) && SourceStep(w, st, AcceptTransfer(id)).Some?
    ensures Conserved(w, SourceStep(w, st, AcceptTransfer(id)).value)
  {
    hide Planned, StagedAs, QueueOk;
    var st' := SourceStep(w, st, AcceptTransfer(id)).value;
    var t, t' := st.destination, st'.destination;
    assert t'.jobs.Keys == t.jobs.Keys;
    SameQueue(w, t, t');
    forall other | other in t'.jobs ensures JobOk(w, st', other) { assert JobOk(w, st, other); }
    forall other | other in t'.staged ensures StagedOk(w, st', other) { assert StagedOk(w, st, other); }
  }

  lemma SameQueue(w: World, t: Destination, t': Destination)
    requires QueueOk(w, t) && t'.emitted == t.emitted && t'.queue == t.queue && t'.jobs.Keys == t.jobs.Keys
    requires t'.requested == t.requested
    ensures QueueOk(w, t')
  {
    hide Planned;
    assert |t'.jobs| == |t'.jobs.Keys|;
    assert |t.jobs| == |t.jobs.Keys|;
  }

  lemma CreateTemporaryKeeps(w: World, st: Snapshot, id: nat)
    requires Conserved(w, st) && StagingStep(w, st, CreateTemporary(id)).Some?
    ensures Conserved(w, StagingStep(w, st, CreateTemporary(id)).value)
  {
    hide Planned, OpsHere, Ended, TransferredFile, StagedAs;
    var st' := StagingStep(w, st, CreateTemporary(id)).value;
    var t := st.destination;
    forall other | other in t.jobs ensures JobOk(w, st', other) { assert JobOk(w, st, other); }
    forall other | other in t.staged ensures StagedOk(w, st', other) { assert StagedOk(w, st, other); }
  }

  lemma SameWorkKeeps(w: World, st: Snapshot, st': Snapshot)
    requires Conserved(w, st) && SameWork(st, st')
    ensures Conserved(w, st')
  {
    hide Planned;
    var t := st.destination;
    forall id | id in t.jobs ensures JobOk(w, st', id) { assert JobOk(w, st, id); }
    forall id | id in t.staged ensures StagedOk(w, st', id) { assert StagedOk(w, st, id); }
  }

  lemma RequestingEndKeeps(w: World, st: Snapshot)
    requires PlanOk(w, st.destination) && Conserved(w, st) && StagingStep(w, st, RequestingEnd).Some?
    ensures Conserved(w, StagingStep(w, st, RequestingEnd).value)
  {
    hide Planned;
    var st' := StagingStep(w, st, RequestingEnd).value;
    var t := st.destination;
    forall id | id in t.staged ensures StagedOk(w, st', id) { assert StagedOk(w, st, id); }
  }

  /** Conservation through every step the working destination takes. */
  lemma StagingConserves(w: World, st: Snapshot, step: Step)
    requires Good(w) && Safe(w, st) && StagingStep(w, st, step).Some?
    ensures
      var st' := StagingStep(w, st, step).value;
      && Conserved(w, st') && Owned(st') && st'.destination.status.Working? && st'.source == st.source
      && st'.fs == st.fs && st.destination.status.Working?
  {
    hide Good, ControlOk, IndexOk, PlanOk, Conserved, Applied, Run, OpsHere, Ended, TransferredFile, Planned;
    var st' := StagingStep(w, st, step).value;
    match step {
      case Emit => EmitKeeps(w, st);
      case StageDirectly => StageDirectlyKeeps(w, st);
      case RequestFile => RequestFileKeeps(w, st);
      case ReceiveFile(id) => ReceiveFileKeeps(w, st, id);
      case JoinTransfer(id) => JoinTransferKeeps(w, st, id);
      case CreateTemporary(id) => CreateTemporaryKeeps(w, st, id);
      case RequestingEnd => RequestingEndKeeps(w, st);
      case _ => SameWorkKeeps(w, st, st');
    }
  }

  /** Once requesting has ended, the collected changes are the staged plan, whatever order they came in. */
  lemma EverythingStaged(w: World, st: Snapshot)
    requires Good(w) && Conserved(w, st) && st.destination.requested
    ensures InOrder(st.destination.staged) == StageAll(w.p, PlanOf(w))
  {
    hide Planned, Good;
    var t := st.destination;
    var entries := StageAll(w.p, PlanOf(w));
    forall k | 0 <= k < |entries| ensures entries[k].operation.id == k { PlannedId(w, k); }
    assert Counting(entries, 0);
    InOrderCollected(entries, 0);
    forall id: nat ensures id in t.staged <==> id in Collected(entries) {
      CollectedHas(entries, id);
      if id in t.staged { assert StagedOk(w, st, id) && entries[id] in entries; }
    }
    forall id | id in t.staged ensures t.staged[id] == Collected(entries)[id] {
      CollectedHas(entries, id);
      assert StagedOk(w, st, id) && entries[id] in entries;
    }
    assert t.staged == Collected(entries);
  }

  lemma SourceKeepsTree(w: World, st: Snapshot, step: Step)
    requires TreeOk(w, st) && SourceStep(w, st, step).Some?
    ensures TreeOk(w, SourceStep(w, st, step).value)
  {
    hide Run, Applied, Planned, StageAll, OnSignal;
  }

  lemma StagingKeepsTree(w: World, st: Snapshot, st': Snapshot)
    requires TreeOk(w, st) && st'.fs == st.fs && ControlOk(st')
    requires st.destination.status.Working? && st'.destination.status.Working?
    ensures TreeOk(w, st')
  {
    hide Applied, InFlight;
  }

  lemma CommitKeepsTree(w: World, st: Snapshot)
    requires Good(w) && Conserved(w, st) && TreeOk(w, st) && ControlOk(st) && ClosingStep(w, st, CommitAll).Some?
    ensures TreeOk(w, ClosingStep(w, st, CommitAll).value)
  {
    hide Good, JobOk, StagedOk, InFlight, Ended, Run, InOrder, Planned, StageAll;
    EverythingStaged(w, st);
  }

  lemma ClosingKeepsTree(w: World, st: Snapshot, step: Step)
    requires ControlOk(st) && TreeOk(w, st) && ClosingStep(w, st, step).Some? && !step.CommitAll?
    ensures TreeOk(w, ClosingStep(w, st, step).value)
  {
    hide InFlight, Ended, Run, Planned, StageAll;
  }

  lemma SourceConserves(w: World, st: Snapshot, step: Step)
    requires Safe(w, st) && SourceStep(w, st, step).Some?
    ensures
      var st' := SourceStep(w, st, step).value;
      && (st'.destination.status.Working? ==> Conserved(w, st')) && Owned(st')
      && st'.destination.status == st.destination.status && |st'.source.jobs| <= w.sourceCapacity
  {
    hide ControlOk, IndexOk, PlanOk, Conserved, TreeOk, Planned, OnSignal;
    var st' := SourceStep(w, st, step).value;
    if step.ReadControl? { SignalKeepsJobs(st.source, st.control[0]); }
    if st.destination.status.Working? {
      if step.AcceptTransfer? { AcceptTransferKeeps(w, st, step.id); }
      else { SameWorkKeeps(w, st, st'); }
    }
  }

  lemma SignalKeepsJobs(a: Source, signal: Signal)
    ensures OnSignal(a, signal).jobs == a.jobs
  {
  }

  /** A successful commit renames every staged file into place. */
  lemma AllInstalled(w: World, st: Snapshot, id: nat)
    requires Good(w) && Conserved(w, st) && st.destination.requested
    requires id in st.destination.staged && st.destination.staged[id].operation.UpsertFile?
    requires Run(st.fs, InOrder(st.destination.staged)).ok
    ensures id in InstalledIds(JournalOf(st.fs, InOrder(st.destination.staged)), st.destination.staged)
  {
    hide Good, Planned, RunEvents, Run, QueueOk, NoneLost, ServicesOk;
    var entries := InOrder(st.destination.staged);
    EverythingStaged(w, st);
    assert StagedOk(w, st, id);
    var entry := StageAll(w.p, PlanOf(w))[id];
    assert entry == st.destination.staged[id] && entry in entries;
    EverythingDone(st.fs, entries, entry);
    var e :| e in JournalOf(st.fs, entries) && e.path == entry.operation.At() && e.Installed?;
    assert e == Journal.Installed(entry.operation.At());
  }

  lemma CommitOwns(w: World, st: Snapshot)
    requires Good(w) && Conserved(w, st) && Owned(st) && ClosingStep(w, st, CommitAll).Some?
    ensures Owned(ClosingStep(w, st, CommitAll).value)
  {
    hide Good, Conserved, Run, InOrder, RunEvents, InstalledIds, Ended;
    NoJobs(w, st);
    var t := st.destination;
    if Run(st.fs, InOrder(t.staged)).ok {
      forall id | id in st.temporaries ensures id in InstalledIds(JournalOf(st.fs, InOrder(t.staged)), t.staged) {
        AllInstalled(w, st, id);
      }
    }
  }

  lemma NoJobs(w: World, st: Snapshot)
    requires Conserved(w, st) && st.destination.requested
    ensures st.destination.jobs == map[]
  {
  }

  lemma ClosingOwns(w: World, st: Snapshot, step: Step)
    requires Owned(st) && ClosingStep(w, st, step).Some? && !step.CommitAll?
    ensures Owned(ClosingStep(w, st, step).value)
  {
    hide Run, InOrder, Ended, RunEvents;
  }

  lemma ClosingConserves(w: World, st: Snapshot, step: Step)
    requires Good(w) && Safe(w, st) && ClosingStep(w, st, step).Some?
    ensures
      var st' := ClosingStep(w, st, step).value;
      && !st'.destination.status.Working? && Owned(st') && !st'.destination.status.Broken?
      && st'.source == st.source
  {
    hide Good, ControlOk, IndexOk, PlanOk, Conserved, TreeOk, Owned, Planned, Run, InOrder, Ended, InstalledIds;
    CommittingNow(w, st, step);
    if step.CommitAll? { CommitOwns(w, st); } else { ClosingOwns(w, st, step); }
  }

  lemma CommittingNow(w: World, st: Snapshot, step: Step)
    requires Safe(w, st) && ClosingStep(w, st, step).Some?
    ensures step.CommitAll? ==> Conserved(w, st)
  {
    hide ControlOk, IndexOk, PlanOk, Conserved, TreeOk, Owned, Run, InOrder, Ended;
  }

  lemma StepKeeps(w: World, st: Snapshot, step: Step)
    requires Good(w) && Safe(w, st) && Take(w, st, step).Some?
    ensures Safe(w, Take(w, st, step).value)
  {
    hide SourceStep, StagingStep, ClosingStep, ControlOk, IndexOk, PlanOk, Conserved, TreeOk, Owned, Good;
    if SourceStep(w, st, step).Some? {
      SourceKeepsControl(w, st, step);
      SourceKeepsIndex(w, st, step);
      SourceKeepsPlan(w, st, step);
      SourceConserves(w, st, step);
      SourceKeepsTree(w, st, step);
    } else if StagingStep(w, st, step).Some? {
      StagingKeepsControl(w, st, step);
      StagingKeepsIndex(w, st, step);
      StagingKeepsPlan(w, st, step);
      StagingConserves(w, st, step);
      StagingKeepsTree(w, st, StagingStep(w, st, step).value);
    } else {
      ClosingKeepsControl(w, st, step);
      ClosingKeepsIndex(w, st, step);
      ClosingKeepsPlan(w, st, step);
      ClosingConserves(w, st, step);
      CommittingNow(w, st, step);
      if step.CommitAll? { CommitKeepsTree(w, st); } else { ClosingKeepsTree(w, st, step); }
    }
  }

  /** Every interleaving, of any length, leads only to safe states. */
  lemma {:induction false} AlwaysSafe(w: World, steps: seq<Step>)
    requires Good(w) && TakeAll(w, steps).Some?
    ensures Safe(w, TakeAll(w, steps).value)
    decreases |steps|
  {
    hide Safe, Take, Good;
    if steps == [] {
      InitiallySafe(w);
    } else {
      var before := steps[..|steps| - 1];
      AlwaysSafe(w, before);
      StepKeeps(w, TakeAll(w, before).value, steps[|steps| - 1]);
    }
  }

  /** In every session, what the planner sends next is the next operation of the one plan. */
  lemma EmitsThePlan(w: World, steps: seq<Step>)
    requires Good(w) && TakeAll(w, steps).Some? && Take(w, TakeAll(w, steps).value, Emit).Some?
    ensures
      var t := TakeAll(w, steps).value.destination;
      var t' := Take(w, TakeAll(w, steps).value, Emit).value.destination;
      && t.emitted < |PlanOf(w)| && t'.emitted == t.emitted + 1
      && t'.queue == t.queue + [PlanOf(w)[t.emitted]]
  {
    hide TakeAll, Good, OpsHere, Planned, ControlOk, IndexOk, PlanOk, Conserved, Owned, TreeOk, InFlight, OnSignal;
    AlwaysSafe(w, steps);
    EmitsPlanned(w, TakeAll(w, steps).value);
  }

  /** The destination's control trace is a prefix of the protocol, and the source never rejects it. */
  lemma ControlSafety(w: World, steps: seq<Step>)
    requires Good(w) && TakeAll(w, steps).Some?
    ensures
      var st := TakeAll(w, steps).value;
      && st.trace <= [StartAccepted, PlanEnd, CompleteAck] && !st.source.status.Rejecting?
      && !st.destination.status.Broken?
  {
    hide TakeAll, Good;
    AlwaysSafe(w, steps);
  }

  /** When the source reports success, the destination has installed the whole plan and equals the source. */
  lemma SourceSuccess(w: World, steps: seq<Step>)
    requires Good(w) && TakeAll(w, steps).Some? && TakeAll(w, steps).value.source.status.Succeeded?
    ensures
      var st := TakeAll(w, steps).value;
      Applied(w, st.fs) && Clear(w.p) && Synchronized(w.p, st.fs.nodes)
  {
    hide TakeAll, Run, Planned, StageAll, Clear, Synchronized, Valid, SourceIndex, DestinationIndex;
    AlwaysSafe(w, steps);
    CommitSucceedsIff(w.p, w.root, w.s, w.d);
  }

  lemma AckMeansInstalled(w: World, st: Snapshot)
    requires ControlOk(st) && TreeOk(w, st) && (st.destination.status.Done? || CompleteAck in st.trace)
    ensures Applied(w, st.fs)
  {
    hide Applied, Run, StageAll, Planned;
    if CompleteAck in st.trace {
      var k :| 0 <= k < |st.trace| && st.trace[k] == CompleteAck;
      assert st.trace[k] == NthSignal(k);
    }
  }

  /** The same for the destination's own success, and for the moment it acknowledges. */
  lemma DestinationSuccess(w: World, steps: seq<Step>)
    requires Good(w) && TakeAll(w, steps).Some?
    requires TakeAll(w, steps).value.destination.status.Done? || CompleteAck in TakeAll(w, steps).value.trace
    ensures
      var st := TakeAll(w, steps).value;
      Applied(w, st.fs) && Clear(w.p) && Synchronized(w.p, st.fs.nodes)
  {
    hide TakeAll, Run, Planned, StageAll, Clear, Synchronized, Valid, SourceIndex, DestinationIndex;
    hide ControlOk, IndexOk, PlanOk, Conserved, TreeOk;
    AlwaysSafe(w, steps);
    AckMeansInstalled(w, TakeAll(w, steps).value);
    CommitSucceedsIff(w.p, w.root, w.s, w.d);
  }

  /** Only the commit touches the live tree. */
  lemma OnlyCommitWrites(w: World, st: Snapshot, step: Step)
    requires Take(w, st, step).Some? && Take(w, st, step).value.fs != st.fs
    ensures step.CommitAll? && st.destination.status.Working? && BarrierPassed(w, st.destination)
  {
    hide Run, InOrder, TransferredFile, OpsHere, Ended, OnSignal;
  }

  /** The staging barrier: until all four tasks have ended the live tree has its initial value. */
  lemma StagingBarrier(w: World, steps: seq<Step>, step: Step)
    requires Good(w) && TakeAll(w, steps).Some? && Take(w, TakeAll(w, steps).value, step).Some?
    ensures
      var st, st' := TakeAll(w, steps).value, Take(w, TakeAll(w, steps).value, step).value;
      && (st.destination.status.Working? ==> st.fs == w.root)
      && (st'.fs != st.fs ==>
            BarrierPassed(w, st.destination) && InOrder(st.destination.staged) == StageAll(w.p, PlanOf(w)))
  {
    hide TakeAll, Take, Run, InOrder, Good, Planned, StageAll, ControlOk, IndexOk, PlanOk, Conserved, Ended;
    AlwaysSafe(w, steps);
    var st := TakeAll(w, steps).value;
    if Take(w, st, step).value.fs != st.fs {
      OnlyCommitWrites(w, st, step);
      EverythingStaged(w, st);
    }
  }

  /**
   * No temporary outlives its owner: after a successful commit none is left, and after a failure, of
   * the commit too, none is left once the transfers and the changes still staged are dropped.
   */
  lemma NothingLeftBehind(w: World, steps: seq<Step>)
    requires Good(w) && TakeAll(w, steps).Some?
    ensures
      var st := TakeAll(w, steps).value;
      && st.temporaries <= st.destination.jobs.Keys + st.destination.staged.Keys
      && (st.destination.jobs == map[] && st.destination.staged == map[] ==> st.temporaries == {})
      && (AfterCommit(st.destination.status) ==> st.temporaries == {})
  {
    hide TakeAll, Good;
    AlwaysSafe(w, steps);
  }

  /** What one operation is doing while the destination works. */
  predicate InOnePlace(st: Snapshot, id: nat, op: Operation) {
    var t := st.destination;
    || (op in t.queue && id !in t.jobs && id !in t.staged)
    || (op !in t.queue && id in t.jobs && t.jobs[id].operation == op && id !in t.staged)
    || (op !in t.queue && id !in t.jobs && id in t.staged && t.staged[id].operation == op)
  }

  lemma OnePlace(w: World, st: Snapshot, id: nat)
    requires Good(w) && Conserved(w, st) && id < st.destination.emitted
    ensures id < |PlanOf(w)| && InOnePlace(st, id, PlanOf(w)[id])
  {
    hide Good, Planned;
    var t := st.destination;
    var op := PlanOf(w)[id];
    PlannedId(w, id);
    if id >= Taken(t) {
      assert t.queue[id - Taken(t)] == op;
    } else if op in t.queue {
      var k :| 0 <= k < |t.queue| && t.queue[k] == op;
      PlannedId(w, Taken(t) + k);
    }
  }

  /** Every operation sent is in exactly one place, and the bounds of both peers hold. */
  lemma Conservation(w: World, steps: seq<Step>, id: nat)
    requires Good(w) && TakeAll(w, steps).Some? && TakeAll(w, steps).value.destination.status.Working?
    requires id < TakeAll(w, steps).value.destination.emitted
    ensures
      var st := TakeAll(w, steps).value;
      && id < |PlanOf(w)| && InOnePlace(st, id, PlanOf(w)[id])
      && |st.destination.jobs| <= w.capacity && |st.destination.queue| <= w.capacity
      && |st.source.jobs| <= w.sourceCapacity
  {
    hide TakeAll, Good, Planned, ControlOk, IndexOk, PlanOk, TreeOk, JobOk, StagedOk, InOnePlace;
    AlwaysSafe(w, steps);
    OnePlace(w, TakeAll(w, steps).value, id);
  }
}
