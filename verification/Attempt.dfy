/**
 * One attempt from end to end: both scans, the index over the wire, the streamed plan, every file
 * transfer, staging in any order, and the commit, each peer under its own limits.
 */
module Attempt {
  import opened Paths
  import opened Records
  import opened Wire
  import opened Radix
  import opened Messages
  import opened Fields
  import opened Codec
  import opened Streaming
  import opened Sending
  import opened Foreign
  import opened DecoderModel
  import opened Tree
  import opened Timestamps
  import opened Planner
  import opened PlanDiff
  import opened Commit
  import opened PendingCommitModel
  import opened Reconciliation
  import opened Convergence
  import opened Obstruction
  import opened Basis
  import opened Scan
  import opened Walking
  import opened Pipeline
  import opened Exchange
  import opened Indexing

  /** The sizes fit u64 and a digest has 32 bytes, as their types demand. */
  ghost predicate Typed(w: Walk) {
    && (forall bytes :: |w.hash(bytes)| == 32)
    && (forall x :: x in w.nodes ==> Sized(w.nodes[x]))
    && |w.nodes| < 0x1000_0000_0000_0000
  }

  predicate Sized(node: Node) {
    match node
    case Dir(_, _, size) => IsU64(size)
    case File(_, _, content) => IsU64(|content|)
    case Link(target, _) => IsU64(|target|)
  }

  /** The peer scans and encodes under the same configuration. */
  predicate Configured(w: Walk, limits: Limits) {
    w.maxComponents == limits.maxComponents && w.maxPathBytes == limits.maxPath
  }

  lemma TimeIsI128(ns: int)
    requires TimeFits(ns)
    ensures IsI128(ns)
  {
  }

  /** A scanned record is one the wire can carry. */
  lemma ScannedOk(w: Walk, r: Record)
    requires Typed(w) && Managed(w, r.path) && InBounds(w, r.path) && Portable(w.nodes[r.path])
    requires r == RecordOf(w.hash, r.path, w.nodes[r.path])
    ensures RecordRepresentable(r)
  {
    var node := w.nodes[r.path];
    TimeIsI128(node.mtime);
  }

  /**
   * A walk bounds its paths as the codec does, but nothing bounds the whole record: a regular file at a
   * path of 40 bytes is scanned under limits of 100 bytes and 10 components, and its record is refused.
   */
  lemma ScannedMayNotPass(w: Walk, limits: Limits, name: Name)
    requires Typed(w) && w.configured == [] && w.maxComponents == 10 && w.maxPathBytes == 100
    requires w.nodes == map[[name] := File(0x1a4, 0, [])] && ValidName(name) && |name| == 40
    requires limits == Limits(100, 100, 10)
    ensures Configured(w, limits) && RootScannable(w) && Managed(w, [name])
    ensures !Sendable(IndexStream, limits, IndexRecord(RecordOf(w.hash, [name], w.nodes[[name]])))
  {
    hide ValidName;
    assert [name][1..] == [];
    assert ByteCount([name]) == 40;
    assert Parent([name]) == [];
    assert |GITIGNORE| == 10 && |QUICSYNC| == 9 && |GIT| == 4;
    assert PolicyIn(w, []) == [];
    RefusedRecord(w, limits, name);
  }

  lemma RefusedRecord(w: Walk, limits: Limits, name: Name)
    requires Typed(w) && ValidName(name) && |name| == 40 && limits == Limits(100, 100, 10)
    ensures !Sendable(IndexStream, limits, IndexRecord(RecordOf(w.hash, [name], File(0x1a4, 0, []))))
  {
    hide ValidName, Payload;
    assert [name][1..] == [];
    assert ComponentsSize([name]) == 41;
    RecordTakes(RecordOf(w.hash, [name], File(0x1a4, 0, [])));
  }

  /** The session's first message. */
  predicate StartFits(a: Limits, t: Limits, rootId: seq<byte>) {
    FrameFits(a, PREFIX + FieldSize(|rootId|)) && PREFIX + FieldSize(|rootId|) <= t.maxFrame
  }

  lemma StartCrosses(a: Limits, t: Limits, rootId: seq<byte>)
    requires Utf8(rootId)
    ensures Crosses(ControlStream, a, t, StartSync(rootId)) <==> StartFits(a, t, rootId)
  {
    VarintGroups(|rootId|, rootId + []);
    CrossesIff(ControlStream, a, t, StartSync(rootId));
  }

  /** One control message from a peer to the other, in whatever pieces it arrives. */
  method Cross(m: Message, a: Limits, t: Limits, pieces: nat -> nat) returns (ok: bool)
    requires Representable(m) && CategoryOf(m) == ControlStream && LimitsOk(a) && LimitsOk(t)
    ensures ok <==> Crosses(ControlStream, a, t, m)
  {
    hide Representable, FeedUntil, Encodable, FrameOf, Holds;
    var frame := SendFrame(ControlStream, m, a);
    if frame.None? { return false; }
    var stream := new ByteStream(pieces);
    stream.Write(frame.value);
    var queue := new MessageQueue(ControlStream, t);
    ForeignFrame(ControlStream, a, t, m);
    BeforeBefore([], [], FeedUntil(ControlStream, t, Idle, frame.value));
    assert stream.unread == frame.value;
    assert queue.Coming(stream) == FeedUntil(ControlStream, t, Idle, frame.value);
    var next := queue.Next(stream);
    return next == Incoming(m);
  }

  /** A file that has to be sent. */
  predicate NeedsFile(p: Problem, x: Path) {
    x in p.source && p.source[x].File? && Changed(p, x)
  }

  /** The destination has a file of its own there to patch. */
  predicate UpdateAt(p: Problem, x: Path) {
    x in p.managed && x in p.init && p.init[x].File?
  }

  function BasisOf(p: Problem, x: Path): seq<byte> {
    if UpdateAt(p, x) then p.init[x].content else []
  }

  ghost predicate FileFits(p: Problem, x: Path, from: Peer, to: Peer, rsync: Librsync)
    requires PeerOk(from) && PeerOk(to)
  {
    x in p.source && p.source[x].File? && Transferable(x, UpdateAt(p, x), p.source[x].content, BasisOf(p, x), from, to, rsync)
  }

  /**
   * Everything the two peers have to tell each other gets across: the start, the control messages, every
   * record of the source's index, and for every file that has to be sent the request, the signature of
   * its basis if it has one, and the file or the delta.
   */
  ghost predicate EverythingFits(p: Problem, rootId: seq<byte>, from: Peer, to: Peer, rsync: Librsync)
    requires PeerOk(from) && PeerOk(to)
  {
    var a, t := from.limits, to.limits;
    && StartFits(a, t, rootId) && EmptyFits(a, t) && EmptyFits(t, a)
    && (forall x :: x in p.source ==> RecordPasses(a, t, RecordOf(p.hash, x, p.source[x])))
    && (forall x :: NeedsFile(p, x) ==> FileFits(p, x, from, to, rsync))
  }

  /** What a planned operation brings to its transfer. */
  ghost predicate Orderly(p: Problem, op: Operation, source: Nodes, live: Nodes) {
    && Stageable(p, op) && IsU64(op.id)
    && (op.UpsertFile? ==>
          && ValidPath(op.At()) && NeedsFile(p, op.At()) && op.update == UpdateAt(p, op.At())
          && RegularAt(source, op.At()) == Found(p.source[op.At()].content)
          && (op.update ==> RegularAt(live, op.At()) == Found(BasisOf(p, op.At()))))
  }

  lemma TransferComes(p: Problem, op: Operation, source: Nodes, live: Nodes, from: Peer, to: Peer, rsync: Librsync)
    requires Orderly(p, op, source, live) && op.UpsertFile? && PeerOk(from) && PeerOk(to)
    ensures TransferResult(op.At(), op.update, source, live, from, to, rsync) ==
            if FileFits(p, op.At(), from, to, rsync) then Some(p.source[op.At()].content) else None
  {
    hide Transferable, RegularAt;
  }

  /** Transfers and stages the planned changes one by one, in the order they finish. */
  method StageTransfers(p: Problem, arrivals: seq<Operation>, source: Nodes, live: Nodes, from: Peer, to: Peer,
                        rsync: Librsync, pending: PendingCommit)
    returns (ok: bool)
    requires PeerOk(from) && PeerOk(to) && Rebuilds(rsync)
    requires pending.changes == map[] && DistinctIds(StageAll(p, arrivals))
    requires forall op :: op in arrivals ==> Orderly(p, op, source, live)
    modifies pending
    ensures ok <==> forall op :: op in arrivals && op.UpsertFile? ==> FileFits(p, op.At(), from, to, rsync)
    ensures ok ==> pending.Rooted() && pending.changes == Collected(StageAll(p, arrivals))
  {
    hide FileFits, PeerOk, Rebuilds, Collected, TransferResult, ValidPath, RegularAt, UpdateAt, BasisOf, Changed;
    ghost var entries := StageAll(p, arrivals);
    NothingCollected();
    for k := 0 to |arrivals|
      invariant pending.Rooted() && pending.changes == Collected(entries[..k])
      invariant forall i :: 0 <= i < k && arrivals[i].UpsertFile? ==> FileFits(p, arrivals[i].At(), from, to, rsync)
    {
      var op := arrivals[k];
      assert Orderly(p, op, source, live);
      var file: Option<Staged> := None;
      if op.UpsertFile? {
        TransferComes(p, op, source, live, from, to, rsync);
        var acknowledged;
        file, acknowledged := TransferFile(op.id, op.At(), op.update, source, live, from, to, rsync);
        if file.None? { return false; }
      }
      assert StagedAs(p, op) == Entry(op, file) == entries[k];
      CollectedNext(entries, k);
      ok := pending.Stage(op, file);
      assert ok;
    }
    assert entries[..|arrivals|] == entries;
    return true;
  }

  lemma NothingCollected()
    ensures Collected([]) == map[]
  {
  }

  /** The next change has an id of its own and is collected under it. */
  lemma CollectedNext(entries: seq<Entry>, k: nat)
    requires DistinctIds(entries) && k < |entries|
    ensures entries[k].operation.id !in Collected(entries[..k])
    ensures Collected(entries[..k + 1]) == Collected(entries[..k])[entries[k].operation.id := entries[k]]
  {
    assert entries[..k + 1][..k] == entries[..k];
    CollectedHas(entries[..k], entries[k].operation.id);
    forall e | e in entries[..k] ensures e.operation.id != entries[k].operation.id {
      var l :| 0 <= l < k && entries[l] == e;
    }
  }

  /** A planned transfer is for a file that has to be sent, and an update where there is a basis. */
  lemma PlannedFile(p: Problem, s: seq<Record>, d: seq<Record>, op: Operation)
    requires Valid(p) && SourceIndex(p, s) && DestinationIndex(p, d)
    requires op in Planned(s, d) && op.UpsertFile?
    ensures NeedsFile(p, op.At()) && op.update == UpdateAt(p, op.At())
  {
    var first := PlannedFrom(p, s, d, op);
  }

  /** Every file that has to be sent is planned. */
  lemma FilePlanned(p: Problem, s: seq<Record>, d: seq<Record>, x: Path) returns (op: Operation)
    requires Valid(p) && SourceIndex(p, s) && DestinationIndex(p, d) && NeedsFile(p, x)
    ensures op in Planned(s, d) && op.UpsertFile? && op.At() == x
  {
    IndexLookup(p, s, d, x);
    var first := PlanIsDiff(s, d, 0, 0, 0, x);
    var ops := OpsFor(Wanted(p, x), Present(p, x), first);
    op := ops[|ops| - 1];
    AtPathMember(Planned(s, d), x, op);
  }

  /** A sorted index has no more records than its tree has entries. */
  lemma {:induction false} IndexSize(nodes: Nodes, records: seq<Record>)
    requires Sorted(records) && forall r :: r in records ==> r.path in nodes
    ensures |records| <= |nodes|
  {
    if records != [] {
      var last := records[|records| - 1];
      var front := records[..|records| - 1];
      forall r | r in front ensures r.path in nodes - {last.path} {
        var k :| 0 <= k < |front| && front[k] == r;
        Total(r.path, last.path);
      }
      IndexSize(nodes - {last.path}, front);
    }
  }

  lemma PlannedId(s: seq<Record>, d: seq<Record>, a: Nodes, b: Nodes, op: Operation)
    requires Sorted(s) && Sorted(d) && op in Planned(s, d)
    requires |s| <= |a| < 0x1000_0000_0000_0000 && |d| <= |b| < 0x1000_0000_0000_0000
    ensures IsU64(op.id)
  {
    PlanNumbered(s, d, 0, 0, 0);
    PlanBound(s, d, 0, 0, 0);
  }

  /** A planned operation has all that its transfer needs. */
  lemma PlannedOrderly(source: Walk, destination: Walk, s: seq<Record>, d: seq<Record>, op: Operation)
    requires Compatible(source, destination) && Typed(source) && Typed(destination)
    requires Index(source, s, Under([])) && Index(destination, d, Under([]))
    requires op in Planned(s, d)
    ensures Orderly(ProblemOf(source, destination), op, source.nodes, destination.nodes)
  {
    var p := ProblemOf(source, destination);
    ProblemValid(source, destination);
    ScansAreIndexes(source, destination, s, d);
    PlannedStageable(p, s, d, op);
    IndexSize(source.nodes, s);
    IndexSize(destination.nodes, d);
    PlannedId(s, d, source.nodes, destination.nodes, op);
    if op.UpsertFile? {
      var x := op.At();
      PlannedFile(p, s, d, op);
      SourceFile(source, s, x);
      if op.update { ManagedFileOpens(destination.nodes, x); }
    }
  }

  lemma SourceFile(w: Walk, s: seq<Record>, x: Path)
    requires WellFormed(w.nodes) && Index(w, s, Under([])) && Managed(w, x) && w.nodes[x].File?
    ensures ValidPath(x) && RegularAt(w.nodes, x) == Found(w.nodes[x].content)
  {
    assert x in Under([]);
    assert x in PathsOf(s);
    ManagedFileOpens(w.nodes, x);
  }

  /** Whatever the source's scan emits, the wire can carry. */
  lemma ScanCarried(source: Walk, destination: Walk, items: seq<Item>, ok: bool)
    requires Compatible(source, destination) && Typed(source)
    requires IndexPrefix(source, Delivered(items), Under([]))
    requires items == AsItems(Delivered(items)) + [if ok then End else Error]
    ensures RecordsOk(items)
  {
    hide RecordRepresentable, Typed, Managed, InBounds, Portable, Sorted;
    var records := Delivered(items);
    forall k | 0 <= k < |items| && items[k].Listed? ensures RecordRepresentable(items[k].record) {
      assert items[k].record == records[k] && records[k] in records;
      ScannedOk(source, records[k]);
    }
  }

  /** The scan's records are the source's entries, so they get across exactly when those do. */
  lemma IndexCrosses(p: Problem, s: seq<Record>, a: Limits, t: Limits)
    requires Valid(p) && SourceIndex(p, s)
    ensures IndexFits(a, t, s) <==>
            EmptyFits(a, t) && forall x :: x in p.source ==> RecordPasses(a, t, RecordOf(p.hash, x, p.source[x]))
  {
    hide RecordPasses, EmptyFits, RecordOf, Sorted, Valid;
    forall x | x in p.source ensures exists r :: r in s && r == RecordOf(p.hash, x, p.source[x]) {
      assert x in PathsFrom(s, 0);
      var k :| 0 <= k < |s| && s[k].path == x;
      assert Wanted(p, s[k].path) == Some(s[k]) && s[k] in s;
    }
    forall r | r in s ensures r.path in p.source && r == RecordOf(p.hash, r.path, p.source[r.path]) {
      var k :| 0 <= k < |s| && s[k] == r;
      assert Wanted(p, s[k].path) == Some(s[k]);
    }
  }

  /** The files of the plan fit exactly when all files that have to be sent do. */
  lemma PlannedFilesFit(p: Problem, s: seq<Record>, d: seq<Record>, arrivals: seq<Operation>, from: Peer, to: Peer,
                        rsync: Librsync)
    requires Valid(p) && SourceIndex(p, s) && DestinationIndex(p, d) && PeerOk(from) && PeerOk(to)
    requires multiset(arrivals) == multiset(Planned(s, d))
    ensures (forall op :: op in arrivals && op.UpsertFile? ==> FileFits(p, op.At(), from, to, rsync))
            <==> forall x :: NeedsFile(p, x) ==> FileFits(p, x, from, to, rsync)
  {
    hide FileFits, NeedsFile, Planned, Valid, SourceIndex, DestinationIndex, PeerOk, UpdateAt;
    forall op ensures op in arrivals <==> op in Planned(s, d) {
      assert op in multiset(arrivals) <==> op in multiset(Planned(s, d));
    }
    forall op | op in arrivals && op.UpsertFile? ensures NeedsFile(p, op.At()) { PlannedFile(p, s, d, op); }
    forall x | NeedsFile(p, x) ensures exists op :: op in arrivals && op.UpsertFile? && op.At() == x {
      var op := FilePlanned(p, s, d, x);
    }
  }

  /** Transfers, stages and commits a plan. */
  method TransferAndCommit(source: Walk, destination: Walk, root: Fs, from: Peer, to: Peer, rsync: Librsync,
                           ops: seq<Operation>, arrivals: seq<Operation>, ghost s: seq<Record>, ghost d: seq<Record>)
    returns (fs: Fs, ok: bool)
    requires Compatible(source, destination) && Typed(source) && Typed(destination)
    requires PeerOk(from) && PeerOk(to) && Rebuilds(rsync) && root.nodes == destination.nodes
    requires Index(source, s, Under([])) && Index(destination, d, Under([]))
    requires ops == Planned(s, d) && multiset(arrivals) == multiset(ops)
    ensures
      var p := ProblemOf(source, destination);
      var fits := forall x :: NeedsFile(p, x) ==> FileFits(p, x, from, to, rsync);
      && (ok <==> fits && Clear(p))
      && (ok ==> Synchronized(p, fs.nodes))
      && (!fits ==> fs == root)
  {
    hide Compatible, Typed, PeerOk, Rebuilds, Index, FileFits, NeedsFile, Planned, Managed, Orderly, Collected, InOrder;
    hide SourceIndex, DestinationIndex, Run, StageAll, Clear, Synchronized, Counting;
    var p := ProblemOf(source, destination);
    ProblemValid(source, destination);
    ScansAreIndexes(source, destination, s, d);
    forall op | op in arrivals ensures Orderly(p, op, source.nodes, destination.nodes) {
      assert op in multiset(arrivals);
      PlannedOrderly(source, destination, s, d, op);
    }
    PlannedFilesFit(p, s, d, arrivals, from, to, rsync);
    StagedCounting(p, s, d);
    StagedMultiset(p, arrivals, ops);
    CompletionOrder(StageAll(p, ops), StageAll(p, arrivals));
    var pending := new PendingCommit();
    var staged := StageTransfers(p, arrivals, source.nodes, destination.nodes, from, to, rsync, pending);
    if !staged { return root, false; }
    fs, ok := pending.CommitTo(root);
    CommitSucceedsIff(p, root, s, d);
  }

  /** The plan is complete exactly when the destination scanned and has the source's whole index. */
  method PlanBoth(remote: seq<Item>, local: seq<Item>) returns (ops: seq<Operation>, ok: bool)
    ensures ok <==> Ended(remote) && Ended(local)
    ensures ok ==> ops == Planned(Delivered(remote), Delivered(local))
  {
    ghost var s, d := Delivered(remote), Delivered(local);
    ops, ok := Plan(remote, local, 2 * (|remote| + |local|));
    if Ended(remote) && Ended(local) {
      CertainComplete(s, d, 0, 0, 0);
      PlanBound(s, d, 0, 0, 0);
      DeliveredBound(remote);
      DeliveredBound(local);
    }
  }

  /**
   * A whole attempt of two peers with limits of their own: the start, both scans, the index over the
   * wire, the streamed plan, every file transfer, staging in any order, and the commit. It succeeds
   * exactly when both scans do, everything they have to tell each other gets across, and nothing
   * unmanaged stands in the way; the destination's managed tree is then the source's. Whatever fails
   * before the commit leaves the destination as it was.
   */
  method Attempt(source: Walk, destination: Walk, root: Fs, rootId: seq<byte>, from: Peer, to: Peer, rsync: Librsync,
                 shuffle: seq<Operation> -> seq<Operation>)
    returns (fs: Fs, ok: bool)
    requires Compatible(source, destination) && Typed(source) && Typed(destination)
    requires PeerOk(from) && PeerOk(to) && Rebuilds(rsync) && Utf8(rootId)
    requires Configured(source, from.limits) && Configured(destination, to.limits)
    requires root.nodes == destination.nodes && destination.configured == []
    requires |source.configured| <= 1 && forall rules :: rules in source.configured ==> rules.scope == []
    requires forall ops :: multiset(shuffle(ops)) == multiset(ops)
    ensures
      var p := ProblemOf(source, destination);
      var reached := RootScannable(source) && RootScannable(destination) && EverythingFits(p, rootId, from, to, rsync);
      && (ok <==> reached && Clear(p))
      && (ok ==> Synchronized(p, fs.nodes))
      && (!reached ==> fs == root)
  {
    hide Compatible, Typed, Rebuilds, Index, IndexPrefix, FileFits, NeedsFile, Planned, Managed, RecordPasses, RootScannable;
    hide Encode, Representable, IndexFits, Clear, Synchronized, Delivered, Ended, RecordsOk, SourceIndex, EmptyFits, StartFits;
    var a, t := from.limits, to.limits;
    ghost var p := ProblemOf(source, destination);
    var left, leftOk := ScanRoot(source);
    var right, rightOk := ScanRoot(destination);
    ghost var s := Delivered(left);
    ScanCarried(source, destination, left, leftOk);
    if leftOk {
      ProblemValid(source, destination);
      SourceScanned(source, destination, s);
      IndexCrosses(p, s, a, t);
    }
    // source
    StartCrosses(a, t, rootId);
    Carriable(rootId);
    EmptyCrosses(ControlStream, t, a, StartAccepted);
    EmptyCrosses(ControlStream, t, a, PlanEnd);
    EmptyCrosses(ControlStream, t, a, CompleteAck);
    var sent := Cross(StartSync(rootId), a, t, to.pieces);
    if !sent { return root, false; }
    sent := Cross(StartAccepted, t, a, from.pieces);
    if !sent { return root, false; }
    var remote := ExchangeIndex(left, a, t, to.pieces);
    var ops, planned := PlanBoth(remote, right);
    if !planned { return root, false; }
    RemoteWhole(left, remote, s);
    sent := Cross(PlanEnd, t, a, from.pieces);
    fs, ok := TransferAndCommit(source, destination, root, from, to, rsync, ops, shuffle(ops), s, Delivered(right));
    if !ok { return fs, false; }
    sent := Cross(CompleteAck, t, a, from.pieces);
    return fs, sent;
  }

  lemma Carriable(rootId: seq<byte>)
    requires Utf8(rootId)
    ensures Representable(StartSync(rootId)) && Representable(StartAccepted) && Representable(PlanEnd)
    ensures Representable(CompleteAck)
  {
  }

  lemma RemoteWhole(left: seq<Item>, remote: seq<Item>, s: seq<Record>)
    requires remote == AsItems(s) + [End]
    ensures Delivered(remote) == s
  {
    DeliveredThen(s, End);
  }

  lemma SourceScanned(source: Walk, destination: Walk, s: seq<Record>)
    requires Compatible(source, destination) && Index(source, s, Under([]))
    ensures SourceIndex(ProblemOf(source, destination), s)
  {
  }
}
