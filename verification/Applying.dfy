/** Applying the planned operations of the next path. */
module Applying {
  import opened Paths
  import opened Records
  import opened Planner
  import opened Tree
  import opened Commit
  import opened Reconciliation
  import opened Steps
  import opened Closing

  lemma PushOpen(pending: seq<Directory>, d: Directory)
    ensures Open(pending + [d]) == Open(pending) + {d.path}
  {
  }

  /** `q` was settled on the spot. */
  lemma SettledNow(p: Problem, st: State, todo: set<Path>, q: Path, st': State)
    requires Valid(p) && Inv(p, st, todo) && Least(q, todo)
    requires st.pending == [] || AtOrAbove(Top(st.pending).path, q)
    requires st'.pending == st.pending && st'.previous == Some(q)
    requires Local(st.fs.nodes, st'.fs.nodes, q) && Settled(p, st'.fs.nodes, q) && !Deferred(p, q)
    ensures Inv(p, st', todo - {q})
  {
    var open := Open(st.pending);
    forall y ensures NodeOk(p, st'.fs.nodes, open, todo - {q}, y) {
      assert NodeOk(p, st.fs.nodes, open, todo, y);
      if y != q {
        Elsewhere(p, st.fs.nodes, st'.fs.nodes, open, todo, q, y);
      } else if q in open {
        OpenMember(st.pending, q);
      }
    }
  }

  /** `q` became the innermost open directory. */
  lemma OpenedNow(p: Problem, st: State, todo: set<Path>, q: Path, st': State)
    requires Valid(p) && Inv(p, st, todo) && Least(q, todo)
    requires st.pending == [] || AtOrAbove(Top(st.pending).path, q)
    requires st'.pending == st.pending + [Directory(q, Expected(p, q))] && st'.previous == Some(q)
    requires Local(st.fs.nodes, st'.fs.nodes, q) && IsDir(st'.fs.nodes, q) && Deferred(p, q)
    ensures Inv(p, st', todo - {q})
  {
    var open, open' := Open(st.pending), Open(st'.pending);
    PushOpen(st.pending, Directory(q, Expected(p, q)));
    forall y ensures NodeOk(p, st'.fs.nodes, open', todo - {q}, y) {
      assert NodeOk(p, st.fs.nodes, open, todo, y);
      if y != q {
        Elsewhere(p, st.fs.nodes, st'.fs.nodes, open, todo, q, y);
      }
    }
    forall i | 0 <= i < |st.pending| ensures Ancestor(st.pending[i].path, q) {
      if i < |st.pending| - 1 && Top(st.pending).path != q {
        AncestorTransitive(st.pending[i].path, Top(st.pending).path, q);
      }
    }
    assert FinalOk(p, open', todo - {q});
  }

  lemma NotOpen(p: Problem, st: State, todo: set<Path>, q: Path)
    requires Inv(p, st, todo) && q in todo
    ensures q !in Open(st.pending)
    ensures st.pending != [] ==> Top(st.pending).path != q
  {
  }

  /** Installing the source's entry where nothing, or an entry of the same kind, stands. */
  lemma UpsertLands(p: Problem, st: State, q: Path, id: nat, update: bool)
    requires Valid(p) && q in p.source && Resolves(st.fs.nodes, q)
    requires q in st.fs.nodes ==> st.fs.nodes[q].Dir? == p.source[q].Dir?
    requires st.pending != [] ==> Top(st.pending).path != q
    ensures
      var done := Execute(st, StagedAs(p, Upsert(Wanted(p, q).value, id, update)));
      && done.ok && done.value.previous == st.previous && Local(st.fs.nodes, done.value.fs.nodes, q)
      && (if p.source[q].Dir? then
            && IsDir(done.value.fs.nodes, q)
            && done.value.pending == st.pending + [Directory(q, [SetMetadata(Wanted(p, q).value.metadata)])]
          else
            && q in done.value.fs.nodes && done.value.fs.nodes[q] == p.source[q]
            && done.value.pending == st.pending)
  {
    var node, record := p.source[q], Wanted(p, q).value;
    match node {
      case Dir(_, _, _) => MakeDirectoryLands(st.fs, q, record.metadata.mode);
      case File(_, _, _) => InstallLands(st.fs, q, node, record);
      case Link(_, _) => SymlinkLands(st.fs, q, node, record);
    }
  }

  lemma ApplyOne(st: State, e: Entry)
    ensures ApplyAll(st, [e]) == Apply(st, e)
  {
  }

  lemma ApplyTwo(st: State, e: Entry, f: Entry)
    ensures
      var done := Apply(st, e);
      ApplyAll(st, [e, f]) == (if done.ok then Apply(done.value, f) else done)
  {
    assert [e, f][1..] == [f];
    ApplyOne(Apply(st, e).value, f);
  }

  /** The first operation at the next path: the stack is settled, then it executes. */
  lemma ApplyFirst(p: Problem, st: State, todo: set<Path>, q: Path, e: Entry)
    requires Valid(p) && Clear(p) && Inv(p, st, todo) && Least(q, todo)
    requires e.operation.At() == q && (e.operation.UpsertFile? <==> e.file.Some?)
    ensures Apply(st, e) == Execute(CloseFor(st, q).value.(previous := Some(q)), e)
  {
    if st.previous.Some? { Total(q, st.previous.value); }
    CloseSucceeds(p, st, todo, q);
  }

  /** A second operation at the same path finds the stack already settled. */
  lemma ApplyAgain(st: State, q: Path, e: Entry)
    requires st.previous == Some(q) && (st.pending == [] || AtOrAbove(Top(st.pending).path, q))
    requires e.operation.At() == q && (e.operation.UpsertFile? <==> e.file.Some?)
    ensures Apply(st, e) == Execute(st, e)
  {
    Total(q, q);
    assert st.(previous := Some(q)) == st;
  }

  /** The state in which the operations at `q` execute. */
  ghost function Ready(st: State, q: Path): State {
    CloseFor(st, q).value.(previous := Some(q))
  }

  lemma ReadyFacts(p: Problem, st: State, todo: set<Path>, q: Path)
    requires Valid(p) && Clear(p) && Inv(p, st, todo) && Least(q, todo)
    ensures
      var closed := CloseFor(st, q).value;
      && Inv(p, closed, todo)
      && (closed.pending == [] || AtOrAbove(Top(closed.pending).path, q))
      && (closed.pending != [] ==> Top(closed.pending).path != q)
      && Resolves(closed.fs.nodes, q) && Alike(closed.fs.nodes, p.init, q)
  {
    CloseSucceeds(p, st, todo, q);
    var closed := CloseFor(st, q).value;
    NotOpen(p, closed, todo, q);
    forall r | r in todo ensures !Less(r, q) { Total(q, r); }
    Reachable(p, closed.fs.nodes, Open(closed.pending), todo, q);
    assert NodeOk(p, closed.fs.nodes, Open(closed.pending), todo, q);
  }

  /** The entries of a path whose kind changes: its deletion, then what takes its place. */
  lemma ReplacementEntries(p: Problem, q: Path, id: nat)
    requires Valid(p) && q in p.source && q in p.managed && KindOf(p.init[q]) != KindOf(p.source[q])
    ensures StageAll(p, OpsFor(Wanted(p, q), Present(p, q), id))
            == [StagedAs(p, Delete(id, q, KindOf(p.init[q]))),
                StagedAs(p, Upsert(Wanted(p, q).value, id + 1, p.init[q].File?))]
  {
  }

  /** A directory that has to go waits for its contents. */
  lemma RemovalDeferred(p: Problem, st: State, todo: set<Path>, q: Path, id: nat)
    requires Valid(p) && Clear(p) && Inv(p, st, todo) && Least(q, todo) && GoneDir(p, q)
    ensures
      var ready := Ready(st, q);
      Apply(st, StagedAs(p, Delete(id, q, DirectoryKind)))
      == Outcome(ready.(pending := ready.pending + [Directory(q, [RemoveDirectory])]), true)
  {
    ReadyFacts(p, st, todo, q);
    ApplyFirst(p, st, todo, q, StagedAs(p, Delete(id, q, DirectoryKind)));
  }

  /** What replaces it waits behind the removal. */
  lemma ReplacementDeferred(p: Problem, ready: State, q: Path, id: nat)
    requires Valid(p) && GoneDir(p, q) && q in p.source && ready.previous == Some(q)
    ensures
      var first := ready.(pending := ready.pending + [Directory(q, [RemoveDirectory])]);
      Apply(first, StagedAs(p, Upsert(Wanted(p, q).value, id, false)))
      == Outcome(ready.(pending := ready.pending + [Directory(q, Expected(p, q))]), true)
  {
    var first := ready.(pending := ready.pending + [Directory(q, [RemoveDirectory])]);
    ApplyAgain(first, q, StagedAs(p, Upsert(Wanted(p, q).value, id, false)));
    assert Below(first.pending) == ready.pending;
    assert Replacing(first.pending, q);
    var action := if p.source[q].File? then InstallFile(p.source[q].content, Wanted(p, q).value.metadata)
                  else MakeSymlink(Wanted(p, q).value);
    assert Expected(p, q) == [RemoveDirectory] + [action];
  }

  lemma GoneDirStep(p: Problem, st: State, todo: set<Path>, q: Path, id: nat)
    requires Valid(p) && Clear(p) && Inv(p, st, todo) && Least(q, todo) && GoneDir(p, q)
    ensures
      var done := ApplyAll(st, StageAll(p, OpsFor(Wanted(p, q), Present(p, q), id)));
      done.ok && Inv(p, done.value, todo - {q})
  {
    ReadyFacts(p, st, todo, q);
    var ready := Ready(st, q);
    var deletion := StagedAs(p, Delete(id, q, DirectoryKind));
    RemovalDeferred(p, st, todo, q, id);
    if q in p.source {
      ReplacementEntries(p, q, id);
      ApplyTwo(st, deletion, StagedAs(p, Upsert(Wanted(p, q).value, id + 1, false)));
      ReplacementDeferred(p, ready, q, id + 1);
    } else {
      assert StageAll(p, OpsFor(Wanted(p, q), Present(p, q), id)) == [deletion];
      ApplyOne(st, deletion);
    }
    OpenedNow(p, CloseFor(st, q).value, todo, q,
              ready.(pending := ready.pending + [Directory(q, Expected(p, q))]));
  }

  /** A file or link that has to go is unlinked at once. */
  lemma DeleteLeafStep(p: Problem, st: State, todo: set<Path>, q: Path, id: nat)
    requires Valid(p) && Clear(p) && Inv(p, st, todo) && Least(q, todo)
    requires q in p.managed && !p.init[q].Dir?
    ensures
      var ready := Ready(st, q);
      && Apply(st, StagedAs(p, Delete(id, q, KindOf(p.init[q]))))
         == Outcome(ready.(fs := Remove(ready.fs, q)), true)
  {
    hide Inv, Clear, NodesOk;
    ReadyFacts(p, st, todo, q);
    ApplyFirst(p, st, todo, q, StagedAs(p, Delete(id, q, KindOf(p.init[q]))));
  }

  lemma AfterUpsert(p: Problem, st: State, todo: set<Path>, q: Path, done: State)
    requires Valid(p) && Clear(p) && Inv(p, st, todo) && Least(q, todo)
    requires q in p.source && Changed(p, q) && !GoneDir(p, q)
    requires done.previous == Some(q)
    requires Local(CloseFor(st, q).value.fs.nodes, done.fs.nodes, q)
    requires if p.source[q].Dir? then
               && IsDir(done.fs.nodes, q)
               && done.pending == CloseFor(st, q).value.pending + [Directory(q, [SetMetadata(Wanted(p, q).value.metadata)])]
             else
               && q in done.fs.nodes && done.fs.nodes[q] == p.source[q]
               && done.pending == CloseFor(st, q).value.pending
    ensures Inv(p, done, todo - {q})
  {
    ReadyFacts(p, st, todo, q);
    if p.source[q].Dir? {
      OpenedNow(p, CloseFor(st, q).value, todo, q, done);
    } else {
      SettledNow(p, CloseFor(st, q).value, todo, q, done);
    }
  }

  /** A new entry, or a changed entry of the same kind. */
  lemma UpsertStep(p: Problem, st: State, todo: set<Path>, q: Path, id: nat)
    requires Valid(p) && Clear(p) && Inv(p, st, todo) && Least(q, todo)
    requires q in p.source && Changed(p, q)
    requires q in p.managed ==> KindOf(p.init[q]) == KindOf(p.source[q])
    ensures
      var done := ApplyAll(st, StageAll(p, OpsFor(Wanted(p, q), Present(p, q), id)));
      done.ok && Inv(p, done.value, todo - {q})
  {
    hide Inv, Least, Apply, Execute, WellFormed;
    assert !Collides(p, q);
    ReadyFacts(p, st, todo, q);
    var ready := Ready(st, q);
    var update := q in p.managed && p.init[q].File?;
    var upsert := StagedAs(p, Upsert(Wanted(p, q).value, id, update));
    assert StageAll(p, OpsFor(Wanted(p, q), Present(p, q), id)) == [upsert];
    ApplyOne(st, upsert);
    ApplyFirst(p, st, todo, q, upsert);
    UpsertLands(p, ready, q, id, update);
    AfterUpsert(p, st, todo, q, Execute(ready, upsert).value);
  }

  /** After the unlink, an entry of another kind lands. */
  lemma ReplacementLands(p: Problem, ready: State, q: Path, id: nat, update: bool)
    requires Valid(p) && q in p.source && Resolves(ready.fs.nodes, q) && ready.previous == Some(q)
    requires ready.pending == [] || (AtOrAbove(Top(ready.pending).path, q) && Top(ready.pending).path != q)
    ensures
      var done := Apply(ready.(fs := Remove(ready.fs, q)), StagedAs(p, Upsert(Wanted(p, q).value, id, update)));
      && done.ok && done.value.previous == Some(q) && Local(ready.fs.nodes, done.value.fs.nodes, q)
      && (if p.source[q].Dir? then
            && IsDir(done.value.fs.nodes, q)
            && done.value.pending == ready.pending + [Directory(q, [SetMetadata(Wanted(p, q).value.metadata)])]
          else
            && q in done.value.fs.nodes && done.value.fs.nodes[q] == p.source[q]
            && done.value.pending == ready.pending)
  {
    var removed := ready.(fs := Remove(ready.fs, q));
    var upsert := StagedAs(p, Upsert(Wanted(p, q).value, id, update));
    RemoveLocal(ready.fs, q);
    ResolvesAfter(ready.fs.nodes, removed.fs.nodes, q);
    ApplyAgain(removed, q, upsert);
    UpsertLands(p, removed, q, id, update);
    LocalTransitive(ready.fs.nodes, removed.fs.nodes, Execute(removed, upsert).value.fs.nodes, q);
  }

  /** A file or link replaced by an entry of another kind. */
  lemma ReplaceLeafStep(p: Problem, st: State, todo: set<Path>, q: Path, id: nat)
    requires Valid(p) && Clear(p) && Inv(p, st, todo) && Least(q, todo)
    requires q in p.source && q in p.managed && !p.init[q].Dir? && KindOf(p.init[q]) != KindOf(p.source[q])
    ensures
      var done := ApplyAll(st, StageAll(p, OpsFor(Wanted(p, q), Present(p, q), id)));
      done.ok && Inv(p, done.value, todo - {q})
  {
    ReadyFacts(p, st, todo, q);
    var ready := Ready(st, q);
    var update := p.init[q].File?;
    var upsert := StagedAs(p, Upsert(Wanted(p, q).value, id + 1, update));
    ReplacementEntries(p, q, id);
    ApplyTwo(st, StagedAs(p, Delete(id, q, KindOf(p.init[q]))), upsert);
    DeleteLeafStep(p, st, todo, q, id);
    ReplacementLands(p, ready, q, id + 1, update);
    AfterUpsert(p, st, todo, q, Apply(ready.(fs := Remove(ready.fs, q)), upsert).value);
  }

  lemma RemoveLeafStep(p: Problem, st: State, todo: set<Path>, q: Path, id: nat)
    requires Valid(p) && Clear(p) && Inv(p, st, todo) && Least(q, todo)
    requires q !in p.source && q in p.managed && !p.init[q].Dir?
    ensures
      var done := ApplyAll(st, StageAll(p, OpsFor(Wanted(p, q), Present(p, q), id)));
      done.ok && Inv(p, done.value, todo - {q})
  {
    ReadyFacts(p, st, todo, q);
    var ready := Ready(st, q);
    var deletion := StagedAs(p, Delete(id, q, KindOf(p.init[q])));
    assert StageAll(p, OpsFor(Wanted(p, q), Present(p, q), id)) == [deletion];
    ApplyOne(st, deletion);
    DeleteLeafStep(p, st, todo, q, id);
    RemoveLocal(ready.fs, q);
    SettledNow(p, CloseFor(st, q).value, todo, q, ready.(fs := Remove(ready.fs, q)));
  }

  lemma UnchangedStep(p: Problem, st: State, todo: set<Path>, q: Path)
    requires Valid(p) && Inv(p, st, todo) && Least(q, todo) && !Changed(p, q)
    ensures Inv(p, st, todo - {q})
  {
    NotOpen(p, st, todo, q);
    forall y ensures NodeOk(p, st.fs.nodes, Open(st.pending), todo - {q}, y) {
      assert NodeOk(p, st.fs.nodes, Open(st.pending), todo, y);
    }
    assert !Deferred(p, q);
  }

  /** All operations planned for the next path succeed and keep the invariant. */
  lemma PathStep(p: Problem, st: State, todo: set<Path>, q: Path, id: nat)
    requires Valid(p) && Clear(p) && Inv(p, st, todo) && Least(q, todo)
    ensures
      var done := ApplyAll(st, StageAll(p, OpsFor(Wanted(p, q), Present(p, q), id)));
      done.ok && Inv(p, done.value, todo - {q})
  {
    if !Changed(p, q) {
      UnchangedStep(p, st, todo, q);
    } else if GoneDir(p, q) {
      GoneDirStep(p, st, todo, q, id);
    } else if q !in p.source {
      RemoveLeafStep(p, st, todo, q, id);
    } else if q in p.managed && KindOf(p.init[q]) != KindOf(p.source[q]) {
      ReplaceLeafStep(p, st, todo, q, id);
    } else {
      UpsertStep(p, st, todo, q, id);
    }
  }
}
