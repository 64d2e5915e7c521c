/**
 * What a commit did, in order: a journal beside the run, kept for every run and wherever it stops.
 * A finished directory is never entered again, and a successful run installs and finishes everything.
 */
module Journal {
  import opened Paths
  import opened Tree
  import opened Commit

  /** A step was tried, a file was installed, or every deferred action of a directory ran. */
  datatype Event =
    | Tried(path: Path)
    | Installed(path: Path)
    | Finished(path: Path, tree: Nodes)

  ghost function ActionEvents(fs: Fs, path: Path, actions: seq<Action>): seq<Event>
    decreases |actions|
  {
    if actions == [] then []
    else
      var first := Perform(fs, path, actions[0]);
      if !first.ok then [Tried(path)]
      else [if actions[0].InstallFile? then Installed(path) else Tried(path)]
           + ActionEvents(first.value, path, actions[1..])
  }

  ghost function FinishEvents(st: State): seq<Event>
    requires st.pending != []
  {
    var top, done := Top(st.pending), FinishDirectory(st);
    ActionEvents(st.fs, top.path, top.actions) + (if done.ok then [Finished(top.path, done.value.fs.nodes)] else [])
  }

  ghost function CloseEvents(st: State, path: Path): seq<Event>
    decreases |st.pending|
  {
    if st.pending == [] || AtOrAbove(Top(st.pending).path, path) then []
    else
      var done := FinishDirectory(st);
      FinishEvents(st) + (if done.ok then CloseEvents(done.value, path) else [])
  }

  ghost function FinishAllEvents(st: State): seq<Event>
    decreases |st.pending|
  {
    if st.pending == [] then []
    else
      var done := FinishDirectory(st);
      FinishEvents(st) + (if done.ok then FinishAllEvents(done.value) else [])
  }

  ghost function ExecuteEvent(st: State, entry: Entry): Event
    requires entry.operation.UpsertFile? <==> entry.file.Some?
  {
    var path := entry.operation.At();
    if entry.operation.UpsertFile? && !Replacing(st.pending, path) && Execute(st, entry).ok then Installed(path)
    else Tried(path)
  }

  predicate Declined(st: State, entry: Entry) {
    || (st.previous.Some? && Less(entry.operation.At(), st.previous.value))
    || entry.operation.UpsertFile? != entry.file.Some?
  }

  ghost function ApplyEvents(st: State, entry: Entry): seq<Event> {
    if Declined(st, entry) then []
    else
      var path := entry.operation.At();
      var closed := CloseFor(st, path);
      CloseEvents(st, path)
      + (if closed.ok then [ExecuteEvent(closed.value.(previous := Some(path)), entry)] else [])
  }

  /** The rest of a run: the remaining operations, then every open directory. */
  ghost function RunFrom(st: State, entries: seq<Entry>): Outcome<State> {
    var done := ApplyAll(st, entries);
    if done.ok then Finish(done.value) else done
  }

  ghost function RunEvents(st: State, entries: seq<Entry>): seq<Event>
    decreases |entries|
  {
    if entries == [] then FinishAllEvents(st)
    else
      var done := Apply(st, entries[0]);
      ApplyEvents(st, entries[0]) + (if done.ok then RunEvents(done.value, entries[1..]) else [])
  }

  /** The journal of a whole commit. */
  ghost function JournalOf(fs: Fs, entries: seq<Entry>): seq<Event> {
    RunEvents(Fresh(fs), entries)
  }

  /** None of these events is at `x` or beneath it. */
  ghost predicate Avoids(x: Path, events: seq<Event>) {
    forall e :: e in events ==> !AtOrAbove(x, e.path)
  }

  /** After a directory is finished, nothing at it or beneath it happens any more. */
  ghost predicate Sealed(events: seq<Event>) {
    forall i, j :: 0 <= i < j < |events| && events[i].Finished? ==> !AtOrAbove(events[i].path, events[j].path)
  }

  lemma SealedAppend(a: seq<Event>, b: seq<Event>)
    requires Sealed(a) && Sealed(b)
    requires forall e :: e in a && e.Finished? ==> Avoids(e.path, b)
    ensures Sealed(a + b)
  {
    forall i, j | 0 <= i < j < |a + b| && (a + b)[i].Finished?
      ensures !AtOrAbove((a + b)[i].path, (a + b)[j].path)
    {
      if i < |a| && j >= |a| {
        assert a[i] in a && b[j - |a|] in b;
      }
    }
  }

  /** The open directories are nested. */
  ghost predicate Nested(pending: seq<Directory>) {
    && (forall i :: 0 <= i < |pending| ==> pending[i].path != [])
    && (forall i, j :: 0 <= i < j < |pending| ==> Ancestor(pending[i].path, pending[j].path))
  }

  /** The innermost open directory is the last path, or above it. */
  ghost predicate Current(st: State) {
    Nested(st.pending) && (st.pending != [] ==> st.previous.Some? && AtOrAbove(Top(st.pending).path, st.previous.value))
  }

  ghost predicate OpenAt(pending: seq<Directory>, x: Path) {
    exists d :: d in pending && d.path == x
  }

  lemma OpenAbove(st: State, x: Path)
    requires Current(st) && OpenAt(st.pending, x)
    ensures x != [] && AtOrAbove(x, Top(st.pending).path) && st.previous.Some? && AtOrAbove(x, st.previous.value)
  {
    var i :| 0 <= i < |st.pending| && st.pending[i].path == x;
    var top := Top(st.pending).path;
    if x != top && top != st.previous.value { AncestorTransitive(x, top, st.previous.value); }
  }

  lemma {:induction false} ActionEventsAt(fs: Fs, path: Path, actions: seq<Action>)
    ensures forall e :: e in ActionEvents(fs, path, actions) ==> e.path == path && !e.Finished?
    decreases |actions|
  {
    if actions != [] && Perform(fs, path, actions[0]).ok {
      ActionEventsAt(Perform(fs, path, actions[0]).value, path, actions[1..]);
    }
  }

  lemma FinishEventsAt(st: State)
    requires st.pending != []
    ensures forall e :: e in FinishEvents(st) ==> e.path == Top(st.pending).path
    ensures Sealed(FinishEvents(st))
  {
    var top := Top(st.pending);
    var actions := ActionEvents(st.fs, top.path, top.actions);
    ActionEventsAt(st.fs, top.path, top.actions);
    assert forall i :: 0 <= i < |actions| ==> actions[i] in actions;
    SealedAppend(actions, if FinishDirectory(st).ok then [Finished(top.path, FinishDirectory(st).value.fs.nodes)] else []);
  }

  lemma StrictlyAbove(x: Path, y: Path)
    requires Ancestor(y, x)
    ensures !AtOrAbove(x, y)
  {
  }

  /** What is left open lies strictly above the directory just finished. */
  lemma BelowAbove(pending: seq<Directory>, y: Path)
    requires Nested(pending) && pending != [] && OpenAt(Below(pending), y)
    ensures Ancestor(y, Top(pending).path) && OpenAt(pending, y)
  {
    var d :| d in Below(pending) && d.path == y;
    assert d in pending;
  }

  /** Events on a stack, after the innermost directory is popped from it. */
  ghost predicate On(pending: seq<Directory>, events: seq<Event>) {
    forall e :: e in events ==> OpenAt(pending, e.path)
  }

  /** Finishing the innermost directory and then working on what was left open. */
  lemma PopThen(st: State, rest: seq<Event>)
    requires st.pending != [] && Nested(st.pending) && Sealed(rest) && On(Below(st.pending), rest)
    ensures Sealed(FinishEvents(st) + rest) && On(st.pending, FinishEvents(st) + rest)
  {
    hide FinishEvents;
    var x := Top(st.pending).path;
    FinishEventsAt(st);
    forall e | e in rest ensures OpenAt(st.pending, e.path) && !AtOrAbove(x, e.path) {
      BelowAbove(st.pending, e.path);
      StrictlyAbove(x, e.path);
    }
    assert OpenAt(st.pending, x) by { assert Top(st.pending) in st.pending; }
    SealedAppend(FinishEvents(st), rest);
  }

  lemma {:induction false} CloseSealed(st: State, q: Path)
    requires Nested(st.pending)
    ensures Sealed(CloseEvents(st, q)) && On(st.pending, CloseEvents(st, q))
    ensures forall e :: e in CloseEvents(st, q) ==> !AtOrAbove(e.path, q)
    decreases |st.pending|
  {
    hide FinishEvents, Sealed;
    if st.pending != [] && !AtOrAbove(Top(st.pending).path, q) {
      var done := FinishDirectory(st);
      var rest := if done.ok then CloseEvents(done.value, q) else [];
      FinishEventsAt(st);
      if done.ok { CloseSealed(done.value, q); } else { NoneSealed(); }
      PopThen(st, rest);
    } else {
      NoneSealed();
    }
  }

  lemma NoneSealed()
    ensures Sealed([])
  {
  }

  lemma {:induction false} FinishAllSealed(st: State)
    requires Nested(st.pending)
    ensures Sealed(FinishAllEvents(st)) && On(st.pending, FinishAllEvents(st))
    decreases |st.pending|
  {
    hide FinishEvents, Sealed;
    if st.pending != [] {
      var done := FinishDirectory(st);
      var rest := if done.ok then FinishAllEvents(done.value) else [];
      if done.ok { FinishAllSealed(done.value); } else { NoneSealed(); }
      PopThen(st, rest);
    } else {
      NoneSealed();
    }
  }

  /** What stays open after closing for `q` is nested above `q`, and strictly above what was closed. */
  lemma {:induction false} CloseNested(st: State, q: Path)
    requires Nested(st.pending)
    ensures
      var closed := CloseFor(st, q);
      && Nested(closed.value.pending) && closed.value.previous == st.previous
      && (forall y :: OpenAt(closed.value.pending, y) ==> OpenAt(st.pending, y))
      && (forall e, y :: e in CloseEvents(st, q) && e.Finished? && OpenAt(closed.value.pending, y)
            ==> !AtOrAbove(e.path, y))
      && (closed.ok && closed.value.pending != [] ==> AtOrAbove(Top(closed.value.pending).path, q))
    decreases |st.pending|
  {
    if st.pending != [] && !AtOrAbove(Top(st.pending).path, q) {
      var done := FinishDirectory(st);
      FinishEventsAt(st);
      if done.ok { CloseNested(done.value, q); }
      forall y | OpenAt(Below(st.pending), y) ensures OpenAt(st.pending, y) && !AtOrAbove(Top(st.pending).path, y) {
        BelowAbove(st.pending, y);
        StrictlyAbove(Top(st.pending).path, y);
      }
    }
  }

  /** A directory the run has moved out of is not reached again by a later path. */
  lemma NotBack(x: Path, previous: Path, q: Path, r: Path)
    requires x != [] && AtOrAbove(x, previous) && !Less(q, previous) && !AtOrAbove(x, q) && AtMost(q, r)
    ensures !AtOrAbove(x, r)
  {
    Total(q, previous);
    if x != previous { AncestorFirst(x, previous); }
    if x != previous && previous != q { Transitive(x, previous, q); }
    assert Less(x, q);
    if x == r {
      Total(x, q);
      if q != r { Total(q, r); }
    } else if Ancestor(x, r) {
      Contiguous(x, q, r);
    }
  }

  /** Working on the open directories, or at the next path or a later one. */
  ghost predicate OnOrAfter(st: State, events: seq<Event>) {
    forall e :: e in events ==>
      OpenAt(st.pending, e.path) || (st.previous.Some? ==> AtMost(st.previous.value, e.path))
  }

  predicate Rooted(entries: seq<Entry>) {
    forall e :: e in entries ==> e.operation.At() != []
  }

  /** After an operation the stack holds what was left open and perhaps the operation's own path. */
  lemma ApplyCurrent(st: State, entry: Entry)
    requires Current(st) && entry.operation.At() != [] && Apply(st, entry).ok
    ensures
      var q, after := entry.operation.At(), Apply(st, entry).value;
      && Current(after) && after.previous == Some(q) && !Declined(st, entry)
      && (forall y :: OpenAt(after.pending, y) ==> y == q || OpenAt(CloseFor(st, q).value.pending, y))
  {
    var q := entry.operation.At();
    CloseNested(st, q);
    ExecuteCurrent(CloseFor(st, q).value.(previous := Some(q)), entry);
  }

  lemma ExecuteCurrent(st: State, entry: Entry)
    requires Nested(st.pending) && st.previous == Some(entry.operation.At()) && entry.operation.At() != []
    requires st.pending != [] ==> AtOrAbove(Top(st.pending).path, entry.operation.At())
    requires entry.operation.UpsertFile? <==> entry.file.Some?
    ensures
      var q, after := entry.operation.At(), Execute(st, entry).value;
      && Current(after) && after.previous == st.previous
      && (forall y :: OpenAt(after.pending, y) ==> y == q || OpenAt(st.pending, y))
  {
    hide Unlink, Install, Symlink, MakeDirectory;
    var q := entry.operation.At();
    forall action ensures Nested(Defer(st.pending, q, action)) && Top(Defer(st.pending, q, action)).path == q
      ensures forall y :: OpenAt(Defer(st.pending, q, action), y) ==> y == q || OpenAt(st.pending, y)
    {
      DeferNested(st.pending, q, action);
    }
  }

  lemma DeferNested(pending: seq<Directory>, q: Path, action: Action)
    requires Nested(pending) && q != [] && (pending != [] ==> AtOrAbove(Top(pending).path, q))
    ensures Nested(Defer(pending, q, action)) && Top(Defer(pending, q, action)).path == q
    ensures forall y :: OpenAt(Defer(pending, q, action), y) ==> y == q || OpenAt(pending, y)
  {
    var after := Defer(pending, q, action);
    forall i, j | 0 <= i < j < |after| ensures Ancestor(after[i].path, after[j].path) {
      if j == |after| - 1 && i < |pending| - 1 && Top(pending).path != q {
        AncestorTransitive(pending[i].path, Top(pending).path, q);
      }
    }
  }

  /** The operation's own event follows the closing it caused. */
  lemma ApplySealed(st: State, entry: Entry)
    requires Current(st)
    ensures Sealed(ApplyEvents(st, entry)) && OnOrAfter(st, ApplyEvents(st, entry))
  {
    hide Sealed, Execute;
    if Declined(st, entry) {
      NoneSealed();
    } else {
      var q := entry.operation.At();
      var closed := CloseFor(st, q);
      CloseSealed(st, q);
      if st.previous.Some? { Total(q, st.previous.value); }
      if closed.ok {
        var last := [ExecuteEvent(closed.value.(previous := Some(q)), entry)];
        OneSealed(last[0]);
        SealedAppend(CloseEvents(st, q), last);
      } else {
        assert CloseEvents(st, q) + [] == CloseEvents(st, q);
      }
    }
  }

  lemma OneSealed(e: Event)
    ensures Sealed([e])
  {
  }

  /** What an operation closed, or finished, is not where the rest of the run works. */
  lemma RestAvoids(st: State, entry: Entry, rest: seq<Event>, x: Path)
    requires Current(st) && entry.operation.At() != [] && Apply(st, entry).ok && OnOrAfter(Apply(st, entry).value, rest)
    requires exists e :: e in CloseEvents(st, entry.operation.At()) && e.Finished? && e.path == x
    ensures Avoids(x, rest)
  {
    var q, after := entry.operation.At(), Apply(st, entry).value;
    ApplyCurrent(st, entry);
    CloseNested(st, q);
    CloseSealed(st, q);
    OpenAbove(st, x);
    forall e | e in rest ensures !AtOrAbove(x, e.path) {
      if !OpenAt(after.pending, e.path) || e.path == q {
        NotBack(x, st.previous.value, q, e.path);
      }
    }
  }

  lemma {:induction false} RunSealed(st: State, entries: seq<Entry>)
    requires Current(st) && Rooted(entries)
    ensures Sealed(RunEvents(st, entries)) && OnOrAfter(st, RunEvents(st, entries))
    decreases |entries|
  {
    hide Sealed, ApplyEvents, Apply, Current;
    if entries == [] {
      StartsNested(st);
      FinishAllSealed(st);
    } else {
      var entry, done := entries[0], Apply(st, entries[0]);
      assert entry in entries;
      ApplySealed(st, entry);
      if done.ok {
        ApplyCurrent(st, entry);
        RunSealed(done.value, entries[1..]);
        JoinSealed(st, entry, RunEvents(done.value, entries[1..]));
      } else {
        assert ApplyEvents(st, entry) + [] == ApplyEvents(st, entry);
      }
    }
  }

  lemma StartsNested(st: State)
    requires Current(st)
    ensures Nested(st.pending)
  {
  }

  lemma JoinSealed(st: State, entry: Entry, rest: seq<Event>)
    requires Current(st) && entry.operation.At() != [] && Apply(st, entry).ok
    requires Sealed(rest) && OnOrAfter(Apply(st, entry).value, rest)
    ensures Sealed(ApplyEvents(st, entry) + rest) && OnOrAfter(st, ApplyEvents(st, entry) + rest)
  {
    hide Sealed, Execute;
    var q, after := entry.operation.At(), Apply(st, entry).value;
    ApplySealed(st, entry);
    ApplyCurrent(st, entry);
    CloseNested(st, q);
    forall e | e in ApplyEvents(st, entry) && e.Finished? ensures Avoids(e.path, rest) {
      assert e in CloseEvents(st, q);
      RestAvoids(st, entry, rest, e.path);
    }
    SealedAppend(ApplyEvents(st, entry), rest);
    if st.previous.Some? {
      Total(q, st.previous.value);
      forall e | e in rest && AtMost(q, e.path) ensures AtMost(st.previous.value, e.path) {
        if q != st.previous.value && q != e.path { Transitive(st.previous.value, q, e.path); }
      }
    }
  }

  /**
   * In every commit of any changes, successful or not: once the deferred actions of a directory have
   * run, no later operation, deferred action or finished directory is at it or beneath it.
   */
  lemma NeverEnteredAgain(fs: Fs, entries: seq<Entry>)
    requires Rooted(entries)
    ensures Sealed(JournalOf(fs, entries))
  {
    RunSealed(Fresh(fs), entries);
  }
}
