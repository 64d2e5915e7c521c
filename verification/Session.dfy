/**
 * One session as an interleaving of the two peers. Each peer's tasks take steps in any order;
 * streams are first in, first out; every channel is bounded; either peer may fail at any time.
 */
module Session {
  import opened Paths
  import opened Records
  import opened Planner
  import opened Tree
  import opened Commit
  import opened Journal
  import opened PendingCommitModel
  import opened Reconciliation
  import opened Convergence
  import opened Basis

  /** What does not change during a session, and the three librsync operations. */
  datatype World = World(
    p: Problem, s: seq<Record>, d: seq<Record>, root: Fs,
    capacity: nat, sourceCapacity: nat, window: nat,
    signature: seq<byte> -> seq<byte>,
    delta: (seq<byte>, seq<byte>) -> seq<byte>,
    patch: (seq<byte>, seq<byte>) -> seq<byte>)

  /** Stable, scanned trees; channels hold something; patching with a delta gives the delta's source. */
  ghost predicate Good(w: World) {
    && Valid(w.p) && SourceIndex(w.p, w.s) && DestinationIndex(w.p, w.d) && w.root.nodes == w.p.init
    && w.capacity > 0 && w.sourceCapacity > 0 && w.window > 0
    && forall basis, file :: w.patch(basis, w.delta(file, w.signature(basis))) == file
  }

  /** What the destination says on the control stream. */
  datatype Signal = StartAccepted | PlanEnd | CompleteAck

  datatype SourceStatus = Serving | Draining | Closed | Succeeded | Stopped | Rejecting

  /** The source: index items scanned and sent, the control machine, and the transfers it serves. */
  datatype Source = Source(
    scanned: nat, sent: nat, accepted: bool, planned: bool, jobs: set<nat>, status: SourceStatus)

  datatype Transfer = Requested | Served | Received(file: Staged)

  datatype Job = Job(operation: Operation, transfer: Transfer)

  /** The planner: records consumed of each index, lookaheads in hand, operations sent at this position. */
  datatype Merge = Merge(i: nat, j: nat, left: bool, right: bool, here: nat)

  datatype Planning = Unstarted | Merging | Merged | Announced

  datatype DestinationStatus = Working | Committed | Acknowledged | Done | Failed | Broken

  /** The destination's four tasks, its collected changes, and how far the session is. */
  datatype Destination = Destination(
    remote: seq<Item>, listed: nat, merge: Merge,
    planning: Planning, emitted: nat, queue: seq<Operation>,
    jobs: map<nat, Job>, staged: Changes, requested: bool,
    status: DestinationStatus)

  datatype Snapshot = Snapshot(
    source: Source, destination: Destination,
    control: seq<Signal>, trace: seq<Signal>, index: seq<Item>,
    fs: Fs, temporaries: set<nat>)

  datatype Step =
    // source
    | ScanSource
    | SendItem
    | ReadControl
    | AcceptTransfer(id: nat)
    | FinishService(id: nat)
    | CloseControl
    | SourceReturn
    | SourceFails
    // destination
    | ReadIndex
    | ScanDestination
    | Accept
    | TakeSource
    | TakeDestination
    | Emit
    | Advance
    | MergeEnd
    | AnnouncePlan
    | StageDirectly
    | RequestFile
    | CreateTemporary(id: nat)
    | ReceiveFile(id: nat)
    | JoinTransfer(id: nat)
    | RequestingEnd
    | CommitAll
    | Acknowledge
    | DestinationReturn
    | DestinationFails
    | DropTransfer(id: nat)
    | DropStaged

  function Initial(w: World): Snapshot {
    Snapshot(
      Source(0, 0, false, false, {}, Serving),
      Destination([], 0, Merge(0, 0, false, false, 0), Unstarted, 0, [], map[], map[], false, Working),
      [], [], [], w.root, {})
  }

  /** An index as it is streamed. */
  function Items(s: seq<Record>): seq<Item> {
    AsItems(s) + [End]
  }

  /** Items the planner has taken from each index channel. */
  function LeftRead(m: Merge): nat {
    m.i + (if m.left then 1 else 0)
  }

  function RightRead(m: Merge): nat {
    m.j + (if m.right then 1 else 0)
  }

  /** The lookaheads, once they are in hand. */
  function LeftHead(t: Destination): Option<Record> {
    if t.merge.i < |t.remote| && t.remote[t.merge.i].Listed? then Some(t.remote[t.merge.i].record) else None
  }

  function RightHead(w: World, t: Destination): Option<Record> {
    Head(w.d, t.merge.j)
  }

  /** What the planner sends at its position. */
  function OpsHere(w: World, t: Destination): seq<Operation> {
    OpsAt(LeftHead(t), RightHead(w, t), if t.merge.here <= t.emitted then t.emitted - t.merge.here else 0)
  }

  /** The staged bytes of a finished transfer, or nothing when a file it needs is missing. */
  ghost function TransferredFile(w: World, live: Nodes, op: Operation): Option<Staged>
    requires op.UpsertFile?
  {
    var file := RegularAt(w.p.source, op.At());
    var basis := RegularAt(live, op.At());
    if !file.Found? then None
    else if !op.update then Some(file.content)
    else if !basis.Found? then None
    else Some(w.patch(basis.content, w.delta(file.content, w.signature(basis.content))))
  }

  /** `PendingCommit::stage`, which refuses a mismatch and a second change with the same id. */
  function StageInto(t: Destination, entry: Entry): Destination {
    if (entry.operation.UpsertFile? <==> entry.file.Some?) && entry.operation.id !in t.staged then
      t.(staged := t.staged[entry.operation.id := entry])
    else
      t.(status := Broken)
  }

  function SendControl(st: Snapshot, signal: Signal): Snapshot {
    st.(control := st.control + [signal], trace := st.trace + [signal])
  }

  /** The control machine of the source. */
  function OnSignal(a: Source, signal: Signal): Source {
    if signal.StartAccepted? && !a.accepted then a.(accepted := true)
    else if signal.PlanEnd? && a.accepted && !a.planned then a.(planned := true)
    else if signal.CompleteAck? && a.planned then a.(status := Draining)
    else a.(status := Rejecting)
  }

  function SourceStep(w: World, st: Snapshot, step: Step): Option<Snapshot> {
    var a, t := st.source, st.destination;
    match step
    case ScanSource =>
      if a.status.Serving? && a.scanned < |Items(w.s)| && a.scanned < a.sent + w.sourceCapacity then
        Some(st.(source := a.(scanned := a.scanned + 1)))
      else None
    case SendItem =>
      if a.status.Serving? && a.sent < a.scanned && a.sent < |Items(w.s)| && |st.index| < w.window then
        Some(st.(source := a.(sent := a.sent + 1), index := st.index + [Items(w.s)[a.sent]]))
      else None
    case ReadControl =>
      if a.status.Serving? && st.control != [] then
        Some(st.(source := OnSignal(a, st.control[0]), control := st.control[1..]))
      else None
    case AcceptTransfer(id) =>
      if a.status.Serving? && |a.jobs| < w.sourceCapacity && id in t.jobs && t.jobs[id].transfer.Requested? then
        Some(st.(source := a.(jobs := a.jobs + {id}),
                 destination := t.(jobs := t.jobs[id := t.jobs[id].(transfer := Served)])))
      else None
    case FinishService(id) =>
      if (a.status.Serving? || a.status.Draining?) && id in a.jobs
         && (id !in t.jobs || t.jobs[id].transfer.Received?) then
        Some(st.(source := a.(jobs := a.jobs - {id})))
      else None
    case CloseControl =>
      if a.status.Draining? && a.jobs == {} then Some(st.(source := a.(status := Closed))) else None
    case SourceReturn =>
      if a.status.Closed? && a.sent == |Items(w.s)| then Some(st.(source := a.(status := Succeeded))) else None
    case SourceFails =>
      if a.status.Succeeded? then None else Some(st.(source := a.(status := Stopped)))
    case _ => None
  }

  /** The four staging tasks of the destination. */
  ghost function StagingStep(w: World, st: Snapshot, step: Step): Option<Snapshot> {
    var t := st.destination;
    if !t.status.Working? then None else
    match step
    case ReadIndex =>
      if st.index != [] && !Ended(t.remote) && |t.remote| < LeftRead(t.merge) + w.capacity then
        Some(st.(index := st.index[1..], destination := t.(remote := t.remote + [st.index[0]])))
      else None
    case ScanDestination =>
      if t.listed < |Items(w.d)| && t.listed < RightRead(t.merge) + w.capacity then
        Some(st.(destination := t.(listed := t.listed + 1)))
      else None
    case Accept =>
      if t.planning.Unstarted? then
        Some(SendControl(st.(destination := t.(planning := Merging)), StartAccepted))
      else None
    case TakeSource =>
      if t.planning.Merging? && !t.merge.left && t.merge.i < |t.remote| then
        Some(st.(destination := t.(merge := t.merge.(left := true))))
      else None
    case TakeDestination =>
      if t.planning.Merging? && t.merge.left && !t.merge.right && t.merge.j < t.listed then
        Some(st.(destination := t.(merge := t.merge.(right := true))))
      else None
    case Emit =>
      if t.planning.Merging? && t.merge.left && t.merge.right
         && t.merge.here < |OpsHere(w, t)| && |t.queue| < w.capacity then
        Some(st.(destination := t.(emitted := t.emitted + 1, queue := t.queue + [OpsHere(w, t)[t.merge.here]],
                                   merge := t.merge.(here := t.merge.here + 1))))
      else None
    case Advance =>
      if t.planning.Merging? && t.merge.left && t.merge.right && t.merge.here == |OpsHere(w, t)|
         && (LeftHead(t).Some? || RightHead(w, t).Some?) then
        var l, r := Takes(LeftHead(t), RightHead(w, t)), Takes(RightHead(w, t), LeftHead(t));
        Some(st.(destination := t.(merge := Merge(Next(t.merge.i, l), Next(t.merge.j, r), !l, !r, 0))))
      else None
    case MergeEnd =>
      if t.planning.Merging? && t.merge.left && t.merge.right
         && LeftHead(t).None? && RightHead(w, t).None? then
        Some(st.(destination := t.(planning := Merged)))
      else None
    case AnnouncePlan =>
      if t.planning.Merged? then
        Some(SendControl(st.(destination := t.(planning := Announced)), PlanEnd))
      else None
    case StageDirectly =>
      if t.queue != [] && !t.queue[0].UpsertFile? then
        Some(st.(destination := StageInto(t.(queue := t.queue[1..]), Entry(t.queue[0], None))))
      else None
    case RequestFile =>
      if t.queue != [] && t.queue[0].UpsertFile? && |t.jobs| < w.capacity then
        Some(st.(destination := t.(queue := t.queue[1..],
                                   jobs := t.jobs[t.queue[0].id := Job(t.queue[0], Requested)])))
      else None
    case CreateTemporary(id) =>
      if id in t.jobs && !t.jobs[id].transfer.Received? && id !in st.temporaries then
        Some(st.(temporaries := st.temporaries + {id}))
      else None
    case ReceiveFile(id) =>
      if id in t.jobs && t.jobs[id].transfer.Served? && t.jobs[id].operation.UpsertFile? && id in st.temporaries then
        var content := TransferredFile(w, st.fs.nodes, t.jobs[id].operation);
        if content.None? then Some(st.(destination := t.(status := Broken)))
        else
          var job := t.jobs[id].(transfer := Received(content.value));
          Some(st.(destination := t.(jobs := t.jobs[id := job])))
      else None
    case JoinTransfer(id) =>
      // joined to make room for the next file, or once the operations have run out
      if id in t.jobs && t.jobs[id].transfer.Received?
         && (if t.queue == [] then t.planning.Merged? || t.planning.Announced?
             else t.queue[0].UpsertFile? && |t.jobs| >= w.capacity) then
        Some(st.(destination := StageInto(t.(jobs := t.jobs - {id}),
                                          Entry(t.jobs[id].operation, Some(t.jobs[id].transfer.file)))))
      else None
    case RequestingEnd =>
      if (t.planning.Merged? || t.planning.Announced?) && t.queue == [] && t.jobs == map[] && !t.requested then
        Some(st.(destination := t.(requested := true)))
      else None
    case _ => None
  }

  /** All four tasks returned successfully. */
  predicate BarrierPassed(w: World, t: Destination) {
    Ended(t.remote) && t.listed == |Items(w.d)| && t.planning.Announced? && t.requested
  }

  /** Staged changes whose file this journal says was renamed into place. */
  ghost function InstalledIds(events: seq<Event>, staged: Changes): set<nat> {
    set id | id in staged && staged[id].operation.UpsertFile? && Installed(staged[id].operation.At()) in events
  }

  /** What only the commit and the end of the session do. */
  ghost function ClosingStep(w: World, st: Snapshot, step: Step): Option<Snapshot> {
    var a, t := st.source, st.destination;
    match step
    case CommitAll =>
      if t.status.Working? && BarrierPassed(w, t) then
        // installed files have left the staging directory; the rest is still there
        var entries := InOrder(t.staged);
        var done := Run(st.fs, entries);
        var gone := InstalledIds(JournalOf(st.fs, entries), t.staged);
        Some(st.(fs := done.value.fs, temporaries := st.temporaries - gone,
                 destination := t.(staged := t.staged - gone, status := if done.ok then Committed else Failed)))
      else None
    case Acknowledge =>
      if t.status.Committed? then
        Some(SendControl(st.(destination := t.(status := Acknowledged)), CompleteAck))
      else None
    case DestinationReturn =>
      if t.status.Acknowledged? && (a.status.Closed? || a.status.Succeeded?) then
        Some(st.(destination := t.(status := Done)))
      else None
    case DestinationFails =>
      if t.status.Done? || t.status.Broken? then None else Some(st.(destination := t.(status := Failed)))
    case DropTransfer(id) =>
      if (t.status.Failed? || t.status.Broken?) && id in t.jobs then
        Some(st.(destination := t.(jobs := t.jobs - {id}), temporaries := st.temporaries - {id}))
      else None
    case DropStaged =>
      if t.status.Failed? || t.status.Broken? then
        Some(st.(destination := t.(staged := map[]), temporaries := st.temporaries - t.staged.Keys))
      else None
    case _ => None
  }

  /** The state after one step, if the step can be taken. */
  ghost function Take(w: World, st: Snapshot, step: Step): Option<Snapshot> {
    var a := SourceStep(w, st, step);
    if a.Some? then a
    else
      var b := StagingStep(w, st, step);
      if b.Some? then b else ClosingStep(w, st, step)
  }

  /** The state a whole interleaving leads to, if every step of it can be taken. */
  ghost function TakeAll(w: World, steps: seq<Step>): Option<Snapshot> {
    if steps == [] then Some(Initial(w))
    else
      var before := TakeAll(w, steps[..|steps| - 1]);
      if before.None? then None else Take(w, before.value, steps[|steps| - 1])
  }
}
