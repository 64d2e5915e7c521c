/** The walk emits exactly the managed entries, each once, in strict path order. */
module Walking {
  import opened Paths
  import opened Records
  import opened Tree
  import opened Ignore
  import opened Planner
  import opened PlanDiff
  import opened Scan

  /** Everything above a managed entry is a managed directory. */
  lemma {:induction false} ManagedAbove(w: Walk, a: Path, x: Path)
    requires Managed(w, x) && Ancestor(a, x)
    ensures Managed(w, a) && w.nodes[a].Dir?
    decreases |x|
  {
    if a != Parent(x) {
      assert Parent(x)[..|a|] == x[..|a|];
      ManagedAbove(w, a, Parent(x));
    }
  }

  /** Siblings' subtrees are ordered as their names are. */
  lemma {:induction false} SiblingOrder(scope: Path, x: Path, y: Path)
    requires Within(scope, x) && Within(scope, y) && NameLess(x[|scope|], y[|scope|])
    ensures Less(x, y)
  {
    if scope != [] {
      assert x[0] == x[..|scope|][0] && y[0] == y[..|scope|][0];
      assert x[1..][..|scope| - 1] == scope[1..] && y[1..][..|scope| - 1] == scope[1..];
      SiblingOrder(scope[1..], x[1..], y[1..]);
    }
  }

  /** A path through child `n` is the child itself or lies below it. */
  lemma ThroughChild(scope: Path, n: Name, x: Path)
    ensures Within(scope, x) && x[|scope|] == n <==> x == scope + [n] || Within(scope + [n], x)
  {
  }

  lemma PathsAppend(a: seq<Record>, b: seq<Record>)
    ensures PathsOf(a + b) == PathsOf(a) + PathsOf(b)
  {
  }

  /** Walking one more child extends the index. */
  lemma IndexAppend(w: Walk, scope: Path, done: seq<Record>, chunk: seq<Record>, seen: set<Name>, n: Name)
    requires Index(w, done, UnderNames(scope, seen)) && Index(w, chunk, UnderNames(scope, {n}))
    requires forall m :: m in seen ==> NameLess(m, n)
    ensures Index(w, done + chunk, UnderNames(scope, seen + {n}))
  {
    var all := done + chunk;
    PathsAppend(done, chunk);
    forall i, j | 0 <= i < j < |all| ensures Less(all[i].path, all[j].path) {
      if i < |done| <= j {
        assert done[i] in done && chunk[j - |done|] in chunk;
        SiblingOrder(scope, all[i].path, all[j].path);
      }
    }
    forall r | r in all
      ensures r.path in UnderNames(scope, seen + {n}) && Managed(w, r.path) && InBounds(w, r.path)
      ensures r == RecordOf(w.hash, r.path, w.nodes[r.path])
    {
      assert r in done || r in chunk;
    }
    forall x | x in UnderNames(scope, seen + {n}) && Managed(w, x) ensures x in PathsOf(all) {
      assert x in UnderNames(scope, seen) || x in UnderNames(scope, {n});
    }
  }

  lemma IndexIsPrefix(w: Walk, records: seq<Record>, here: iset<Path>)
    requires Index(w, records, here)
    ensures IndexPrefix(w, records, here)
  {
  }

  /** Children still to be walked come after this one. */
  ghost predicate Later(w: Walk, scope: Path, seen: set<Name>, n: Name) {
    forall k, m :: k in seen + {n} && m in ChildNames(w.nodes, scope) && m !in seen + {n} ==> NameLess(k, m)
  }

  /** A walk that stops inside a child has emitted a prefix of the directory's index. */
  lemma PrefixAppend(w: Walk, scope: Path, done: seq<Record>, chunk: seq<Record>, seen: set<Name>, n: Name)
    requires Index(w, done, UnderNames(scope, seen)) && IndexPrefix(w, chunk, UnderNames(scope, {n}))
    requires (forall m :: m in seen ==> NameLess(m, n)) && Later(w, scope, seen, n)
    ensures IndexPrefix(w, done + chunk, Under(scope))
  {
    var all := done + chunk;
    PathsAppend(done, chunk);
    forall i, j | 0 <= i < j < |all| ensures Less(all[i].path, all[j].path) {
      if i < |done| <= j {
        assert done[i] in done && chunk[j - |done|] in chunk;
        SiblingOrder(scope, all[i].path, all[j].path);
      }
    }
    forall x, r | x in Under(scope) && Managed(w, x) && r in all && Less(x, r.path) ensures x in PathsOf(all) {
      assert r in done || r in chunk;
      assert r.path in UnderNames(scope, seen + {n});
      ManagedChild(w, scope, x);
      if x[|scope|] !in seen + {n} {
        SiblingOrder(scope, r.path, x);
        Total(x, r.path);
      } else if x[|scope|] == n && r in done {
        SiblingOrder(scope, r.path, x);
        Total(x, r.path);
      }
    }
  }

  /** A managed path lies under an entry of the directory. */
  lemma ManagedChild(w: Walk, scope: Path, x: Path)
    requires Managed(w, x) && x in Under(scope)
    ensures x[|scope|] in ChildNames(w.nodes, scope)
  {
    var c := scope + [x[|scope|]];
    ThroughChild(scope, x[|scope|], x);
    if x != c { ManagedAbove(w, c, x); }
    assert c in w.nodes && Within(scope, c) && c[|scope|] == x[|scope|];
  }

  /** A record and, after it, records from below it. */
  lemma EntryFirst(w: Walk, scope: Path, n: Name, below: seq<Record>)
    requires Managed(w, scope + [n]) && InBounds(w, scope + [n]) && IndexPrefix(w, below, Under(scope + [n]))
    ensures
      var all := [RecordOf(w.hash, scope + [n], w.nodes[scope + [n]])] + below;
      && Sorted(all) && PathsOf(all) == {scope + [n]} + PathsOf(below)
      && forall r :: r in all ==> r.path in UnderNames(scope, {n}) && Managed(w, r.path) && InBounds(w, r.path)
                                  && r == RecordOf(w.hash, r.path, w.nodes[r.path])
  {
    hide Decide, PolicyIn, InBounds, Less;
    var c := scope + [n];
    var first := RecordOf(w.hash, c, w.nodes[c]);
    var all := [first] + below;
    PathsAppend([first], below);
    assert first in [first];
    forall i, j | 0 <= i < j < |all| ensures Less(all[i].path, all[j].path) {
      if i == 0 {
        assert below[j - 1] in below;
        AncestorFirst(c, all[j].path);
      }
    }
    forall r | r in all
      ensures r.path in UnderNames(scope, {n}) && Managed(w, r.path) && InBounds(w, r.path)
      ensures r == RecordOf(w.hash, r.path, w.nodes[r.path])
    {
      assert r == first || r in below;
      ThroughChild(scope, n, r.path);
    }
  }

  /** A managed directory and a prefix of what is below it. */
  lemma PrefixEntry(w: Walk, scope: Path, n: Name, below: seq<Record>)
    requires Managed(w, scope + [n]) && InBounds(w, scope + [n]) && IndexPrefix(w, below, Under(scope + [n]))
    ensures IndexPrefix(w, [RecordOf(w.hash, scope + [n], w.nodes[scope + [n]])] + below, UnderNames(scope, {n}))
  {
    hide Decide, PolicyIn, InBounds, Less, PathsOf;
    var c := scope + [n];
    var first := RecordOf(w.hash, c, w.nodes[c]);
    var all := [first] + below;
    EntryFirst(w, scope, n, below);
    forall x, r | x in UnderNames(scope, {n}) && Managed(w, x) && r in all && Less(x, r.path)
      ensures x in PathsOf(all)
    {
      ThroughChild(scope, n, x);
      if x != c && r == first {
        AncestorFirst(c, x);
        Total(x, c);
      }
    }
  }

  /** An unmanaged child contributes nothing, and nothing below it is managed. */
  lemma SkippedChild(w: Walk, scope: Path, n: Name)
    requires !Managed(w, scope + [n])
    ensures Index(w, [], UnderNames(scope, {n}))
  {
    forall x | x in UnderNames(scope, {n}) && Managed(w, x) ensures false {
      ThroughChild(scope, n, x);
      if x != scope + [n] { ManagedAbove(w, scope + [n], x); }
    }
  }

  /** A managed child contributes itself and, when it is a directory, its own index after it. */
  lemma EmittedChild(w: Walk, scope: Path, n: Name, below: seq<Record>)
    requires Managed(w, scope + [n]) && InBounds(w, scope + [n])
    requires if w.nodes[scope + [n]].Dir? then Index(w, below, Under(scope + [n])) else below == []
    ensures Index(w, [RecordOf(w.hash, scope + [n], w.nodes[scope + [n]])] + below, UnderNames(scope, {n}))
  {
    hide InBounds, Less, PathsOf;
    var c := scope + [n];
    EntryFirst(w, scope, n, below);
    forall x | x in UnderNames(scope, {n}) && Managed(w, x)
      ensures x in PathsOf([RecordOf(w.hash, c, w.nodes[c])] + below)
    {
      ThroughChild(scope, n, x);
      if x != c { ManagedAbove(w, c, x); }
    }
  }

  /** With every child walked, the directory is walked. */
  lemma AllChildren(w: Walk, scope: Path, records: seq<Record>, seen: set<Name>)
    requires Index(w, records, UnderNames(scope, seen))
    requires forall n :: n in ChildNames(w.nodes, scope) ==> n in seen
    ensures Index(w, records, Under(scope))
  {
    forall x | x in Under(scope) && Managed(w, x) ensures x in UnderNames(scope, seen) {
      var c := scope + [x[|scope|]];
      ThroughChild(scope, x[|scope|], x);
      if x != c { ManagedAbove(w, c, x); }
      assert c in w.nodes && Within(scope, c) && c[|scope|] == x[|scope|];
    }
  }

  /** A child directory is part of the walk, so its defects are. */
  lemma ScannableChild(w: Walk, scope: Path, n: Name)
    requires Scannable(w, scope) && Entered(w, scope + [n])
    ensures Scannable(w, scope + [n])
  {
  }

  lemma ScannableAll(w: Walk, scope: Path)
    requires DirectoryScannable(w, scope)
    requires forall n :: n in ChildNames(w.nodes, scope) && Entered(w, scope + [n]) ==> Scannable(w, scope + [n])
    ensures Scannable(w, scope)
  {
    forall dir | Entered(w, dir) && Within(scope, dir) ensures DirectoryScannable(w, dir) {
      var n := dir[|scope|];
      var c := scope + [n];
      ThroughChild(scope, n, dir);
      if dir != c { ManagedAbove(w, c, dir); }
      assert c in w.nodes && Within(scope, c) && c[|scope|] == n;
      assert Scannable(w, c);
    }
  }

  function EntriesBelow(nodes: Nodes, scope: Path): set<Path> {
    set x | x in nodes && Within(scope, x)
  }

  function Weight(nodes: Nodes, scope: Path): nat {
    |EntriesBelow(nodes, scope)|
  }

  lemma {:induction false} SmallerSet<T>(a: set<T>, b: set<T>)
    requires a <= b
    ensures |a| <= |b|
    decreases |a|
  {
    if x :| x in a {
      SmallerSet(a - {x}, b - {x});
    }
  }

  lemma BelowShrinks(nodes: Nodes, scope: Path, n: Name)
    requires scope + [n] in nodes
    ensures Weight(nodes, scope + [n]) < Weight(nodes, scope)
  {
    var c := scope + [n];
    forall x | x in EntriesBelow(nodes, c) ensures x in EntriesBelow(nodes, scope) {
      ThroughChild(scope, n, x);
    }
    assert c in EntriesBelow(nodes, scope) && c !in EntriesBelow(nodes, c);
    SmallerSet(EntriesBelow(nodes, c), EntriesBelow(nodes, scope) - {c});
  }

  /** The managed verdict of a child is the policy's decision while its directory is walked. */
  lemma ChildDecision(w: Walk, scope: Path, n: Name)
    requires Entered(w, scope) && scope + [n] in w.nodes
    ensures Managed(w, scope + [n])
            <==> Decide(w.matcher, PolicyIn(w, scope), scope + [n], KindOf(w.nodes[scope + [n]])) == ManagedEntry
  {
  }

  lemma NothingWalked(w: Walk, scope: Path)
    ensures Index(w, [], UnderNames(scope, {}))
  {
  }

  /** All entries are in bounds once every name has been walked. */
  lemma ChildrenFit(w: Walk, scope: Path, seen: set<Name>)
    requires forall rules :: rules in OwnRules(w, scope) ==> w.matcher.parses(rules.contents)
    requires forall n :: n in ChildNames(w.nodes, scope) ==> n in seen
    requires forall n :: n in seen ==> InBounds(w, scope + [n])
    ensures DirectoryScannable(w, scope)
  {
    forall x | x in w.nodes && |x| == |scope| + 1 && Within(scope, x) ensures InBounds(w, x) {
      assert x == scope + [x[|scope|]] && x[|scope|] in ChildNames(w.nodes, scope);
    }
  }

  lemma DirectoryDefect(w: Walk, scope: Path)
    requires Entered(w, scope) && !DirectoryScannable(w, scope)
    ensures !Scannable(w, scope)
  {
  }

  lemma ChildExists(w: Walk, scope: Path, n: Name)
    requires n in ChildNames(w.nodes, scope)
    ensures scope + [n] in w.nodes && Within(scope, scope + [n])
  {
    var x :| x in w.nodes && |x| == |scope| + 1 && Within(scope, x) && x[|scope|] == n;
    assert x == scope + [n];
  }

  /** The rules of this directory, if its own ignore file is a regular file. */
  method Discover(w: Walk, scope: Path, policy: IgnorePolicy) returns (ok: bool)
    requires policy.matcher == w.matcher
    modifies policy
    ensures ok <==> forall rules :: rules in OwnRules(w, scope) ==> w.matcher.parses(rules.contents)
    ensures ok ==> policy.scoped == old(policy.scoped) + OwnRules(w, scope)
  {
    var file := scope + [GITIGNORE];
    if file in w.nodes && w.nodes[file].File? {
      assert OwnRules(w, scope) == [RuleSet(scope, w.nodes[file].content)];
      ok := policy.AddIgnoreContents(scope, w.nodes[file].content);
    } else {
      ok := true;
    }
  }

  function FirstNames(names: seq<Name>, i: nat): set<Name>
    requires i <= |names|
  {
    set k | 0 <= k < i :: names[k]
  }

  lemma NextName(names: seq<Name>, i: nat)
    requires i < |names| && NamesSorted(names)
    ensures FirstNames(names, i + 1) == FirstNames(names, i) + {names[i]}
    ensures forall m :: m in FirstNames(names, i) ==> NameLess(m, names[i])
  {
  }

  lemma StillLater(w: Walk, scope: Path, names: seq<Name>, i: nat)
    requires i < |names| && NamesSorted(names) && forall n :: n in names <==> n in ChildNames(w.nodes, scope)
    ensures Later(w, scope, FirstNames(names, i), names[i])
  {
    hide ChildNames, NameLess;
    assert forall b :: 0 <= b < i ==> names[b] in FirstNames(names, i);
    forall k, m | k in FirstNames(names, i) + {names[i]} && m in names && m !in FirstNames(names, i) + {names[i]}
      ensures NameLess(k, m)
    {
      var a :| 0 <= a <= i && names[a] == k;
      var b :| 0 <= b < |names| && names[b] == m;
      assert b > i;
    }
  }

  /** A walk that stops inside the next child. */
  lemma StopsHere(w: Walk, scope: Path, names: seq<Name>, i: nat, done: seq<Record>, chunk: seq<Record>)
    requires i < |names| && NamesSorted(names) && forall n :: n in names <==> n in ChildNames(w.nodes, scope)
    requires Index(w, done, UnderNames(scope, FirstNames(names, i)))
    requires IndexPrefix(w, chunk, UnderNames(scope, {names[i]}))
    ensures IndexPrefix(w, done + chunk, Under(scope))
  {
    hide *;
    NextName(names, i);
    StillLater(w, scope, names, i);
    PrefixAppend(w, scope, done, chunk, FirstNames(names, i), names[i]);
  }

  lemma NothingEmitted(w: Walk, here: iset<Path>)
    ensures IndexPrefix(w, [], here)
  {
  }

  lemma AllNames(names: seq<Name>)
    ensures FirstNames(names, 0) == {}
    ensures forall n :: n in FirstNames(names, |names|) <==> n in names
  {
  }

  /**
   * `scan_directory`: it succeeds exactly when nothing on the walk is malformed, then has emitted
   * the index of everything managed below `scope`, and leaves the policy as it found it. A walk that
   * fails has emitted a prefix of that index.
   */
  method ScanDirectory(w: Walk, scope: Path, policy: IgnorePolicy, out: Sink)
    returns (ok: bool, ghost records: seq<Record>)
    requires Entered(w, scope)
    requires policy.matcher == w.matcher && policy.scoped == PolicyAbove(w, scope)
    modifies policy, out
    ensures ok <==> Scannable(w, scope)
    ensures ok ==> policy.scoped == old(policy.scoped)
    ensures out.sent == old(out.sent) + records && IndexPrefix(w, records, Under(scope))
    ensures ok ==> Index(w, records, Under(scope))
    decreases Weight(w.nodes, scope), 3
  {
    hide Index, IndexPrefix, Listing, Managed, NameLess, NamesSorted, ChildNames;
    records := [];
    var checkpoint := policy.Checkpoint();
    var names := SortedChildren(w.nodes, scope);
    ok := Discover(w, scope, policy);
    NothingEmitted(w, Under(scope));
    if !ok {
      DirectoryDefect(w, scope);
      return;
    }
    assert policy.scoped == PolicyIn(w, scope);
    hide PolicyIn, PolicyAbove, OwnRules, Entered, Scannable;
    ok, records := ScanChildren(w, scope, names, policy, out);
    if ok { policy.Restore(checkpoint); }
  }

  /** The entries of a directory whose rules are in force, in order, until one fails. */
  method ScanChildren(w: Walk, scope: Path, names: seq<Name>, policy: IgnorePolicy, out: Sink)
    returns (ok: bool, ghost records: seq<Record>)
    requires Entered(w, scope) && NamesSorted(names) && forall n :: n in names <==> n in ChildNames(w.nodes, scope)
    requires forall rules :: rules in OwnRules(w, scope) ==> w.matcher.parses(rules.contents)
    requires policy.matcher == w.matcher && policy.scoped == PolicyIn(w, scope)
    modifies policy, out
    ensures ok <==> Scannable(w, scope)
    ensures ok ==> policy.scoped == old(policy.scoped)
    ensures out.sent == old(out.sent) + records && IndexPrefix(w, records, Under(scope))
    ensures ok ==> Index(w, records, Under(scope))
    decreases Weight(w.nodes, scope), 2
  {
    hide Index, IndexPrefix, Scannable, Managed, Decide, PolicyIn, InBounds, OwnRules, Entered, NamesSorted;
    hide NameLess, ChildNames, FirstNames, Later;
    ok, records := true, [];
    NothingWalked(w, scope);
    AllNames(names);
    ghost var seen: set<Name> := {};
    for i := 0 to |names|
      invariant ok && policy.matcher == w.matcher && policy.scoped == old(policy.scoped)
      invariant seen == FirstNames(names, i)
      invariant out.sent == old(out.sent) + records && Index(w, records, UnderNames(scope, seen))
      invariant forall n :: n in seen ==> InBounds(w, scope + [n])
      invariant forall n :: n in seen && Entered(w, scope + [n]) ==> Scannable(w, scope + [n])
    {
      var n := names[i];
      ghost var chunk;
      ok, chunk := ScanEntry(w, scope, n, policy, out);
      NextName(names, i);
      Associative(old(out.sent), records, chunk);
      if !ok {
        StopsHere(w, scope, names, i, records, chunk);
        records := records + chunk;
        return;
      }
      IndexAppend(w, scope, records, chunk, seen, n);
      records := records + chunk;
      seen := seen + {n};
    }
    AllChildren(w, scope, records, seen);
    IndexIsPrefix(w, records, Under(scope));
    ChildrenFit(w, scope, seen);
    ScannableAll(w, scope);
  }

  /** One entry of a directory: bounds, decision, record, and the directory below it. */
  method ScanEntry(w: Walk, scope: Path, n: Name, policy: IgnorePolicy, out: Sink)
    returns (ok: bool, ghost chunk: seq<Record>)
    requires Entered(w, scope) && n in ChildNames(w.nodes, scope)
    requires policy.matcher == w.matcher && policy.scoped == PolicyIn(w, scope)
    modifies policy, out
    ensures ok <==> InBounds(w, scope + [n]) && (Entered(w, scope + [n]) ==> Scannable(w, scope + [n]))
    ensures !ok ==> !Scannable(w, scope)
    ensures ok ==> policy.scoped == old(policy.scoped)
    ensures out.sent == old(out.sent) + chunk && IndexPrefix(w, chunk, UnderNames(scope, {n}))
    ensures ok ==> Index(w, chunk, UnderNames(scope, {n}))
    decreases Weight(w.nodes, scope), 1
  {
    chunk := [];
    NothingEmitted(w, UnderNames(scope, {n}));
    var path := scope + [n];
    ChildExists(w, scope, n);
    if !InBounds(w, path) {
      DirectoryDefect(w, scope);
      return false, chunk;
    }
    ChildDecision(w, scope, n);
    var decision := policy.DecisionFor(path, KindOf(w.nodes[path]));
    if decision != ManagedEntry {
      SkippedChild(w, scope, n);
      return true, chunk;
    }
    hide Index, IndexPrefix, Scannable, Decide, InBounds, OwnRules, Within;
    ok, chunk := EmitEntry(w, scope, n, policy, out);
    if !ok && Scannable(w, scope) { ScannableChild(w, scope, n); }
  }

  lemma Associative<T>(a: seq<T>, b: seq<T>, c: seq<T>)
    ensures (a + b) + c == a + (b + c)
  {
  }

  /** A managed entry: its record, then the directory below it. */
  method EmitEntry(w: Walk, scope: Path, n: Name, policy: IgnorePolicy, out: Sink)
    returns (ok: bool, ghost chunk: seq<Record>)
    requires Managed(w, scope + [n]) && InBounds(w, scope + [n])
    requires policy.matcher == w.matcher && policy.scoped == PolicyIn(w, scope)
    modifies policy, out
    ensures ok <==> (Entered(w, scope + [n]) ==> Scannable(w, scope + [n]))
    ensures ok ==> policy.scoped == old(policy.scoped)
    ensures out.sent == old(out.sent) + chunk && IndexPrefix(w, chunk, UnderNames(scope, {n}))
    ensures ok ==> Index(w, chunk, UnderNames(scope, {n}))
    decreases Weight(w.nodes, scope), 0
  {
    var path := scope + [n];
    var node := w.nodes[path];
    var record := RecordOf(w.hash, path, node);
    out.Emit(record);
    chunk := [record];
    if !node.Dir? {
      EmittedChild(w, scope, n, []);
      assert [record] + [] == [record];
      IndexIsPrefix(w, chunk, UnderNames(scope, {n}));
      return true, chunk;
    }
    assert PolicyAbove(w, path) == PolicyIn(w, scope) by { assert Parent(path) == scope; }
    BelowShrinks(w.nodes, scope, n);
    ghost var below;
    ok, below := ScanDirectory(w, path, policy, out);
    PrefixEntry(w, scope, n, below);
    if ok { EmittedChild(w, scope, n, below); }
    chunk := [record] + below;
    Associative(old(out.sent), [record], below);
  }

  lemma {:induction false} DeliveredThen(records: seq<Record>, last: Item)
    requires !last.Listed?
    ensures Delivered(AsItems(records) + [last]) == records
    ensures Ended(AsItems(records) + [last]) <==> last.End?
  {
    var items := AsItems(records) + [last];
    if records != [] {
      DeliveredThen(records[1..], last);
      assert items[1..] == AsItems(records[1..]) + [last];
    }
  }

  /** The configured exclusions are valid and so is everything on the walk. */
  ghost predicate RootScannable(w: Walk) {
    && (forall rules :: rules in w.configured ==> w.matcher.parses(rules.contents))
    && Scannable(w, [])
  }

  /** In byte order, each record describes an entry that the rules leave managed. */
  ghost predicate TellsTruth(w: Walk, records: seq<Record>) {
    && (forall i, j :: 0 <= i < j < |records| ==> ComponentsBelow(records[i].path, records[j].path))
    && forall r :: r in records ==>
         ManagedByRules(w, r.path) && Describes(w.hash, r, r.path, w.nodes[r.path])
  }

  ghost predicate LeavesNothingOut(w: Walk, records: seq<Record>) {
    forall x :: ManagedByRules(w, x) ==> exists r :: r in records && r.path == x
  }

  lemma IndexTells(w: Walk, records: seq<Record>)
    requires IndexPrefix(w, records, Under([]))
    ensures TellsTruth(w, records)
    ensures Index(w, records, Under([])) ==> LeavesNothingOut(w, records)
  {
    hide Managed, ManagedByRules, Describes, InBounds, Less, ComponentsBelow, RecordOf;
    forall i, j | 0 <= i < j < |records| ensures ComponentsBelow(records[i].path, records[j].path) {
      LessIff(records[i].path, records[j].path);
    }
    forall r | r in records
      ensures ManagedByRules(w, r.path) && r.path in w.nodes && Describes(w.hash, r, r.path, w.nodes[r.path])
    {
      ManagedIff(w, r.path);
      NotTheRoot(w, r.path);
      RecordDescribes(w.hash, r, r.path, w.nodes[r.path]);
    }
    if Index(w, records, Under([])) {
      forall x | ManagedByRules(w, x) ensures exists r :: r in records && r.path == x {
        ManagedIff(w, x);
        NotTheRoot(w, x);
        assert x in Under([]) && x in PathsOf(records);
      }
    }
  }

  lemma NotTheRoot(w: Walk, x: Path)
    requires Managed(w, x)
    ensures x != [] && x in w.nodes
  {
  }

  /**
   * `scan_root`: the index of everything managed, then End; a failed walk delivers an error and
   * never announces an end.
   */
  method ScanRoot(w: Walk) returns (items: seq<Item>, ok: bool)
    requires |w.configured| <= 1 && forall rules :: rules in w.configured ==> rules.scope == []
    ensures ok <==> RootScannable(w)
    ensures ok <==> Ended(items)
    ensures ok ==> Index(w, Delivered(items), Under([]))
    ensures IndexPrefix(w, Delivered(items), Under([]))
    ensures TellsTruth(w, Delivered(items)) && (ok ==> LeavesNothingOut(w, Delivered(items)))
    ensures items == AsItems(Delivered(items)) + [if ok then End else Error]
  {
    var policy := new IgnorePolicy(w.matcher);
    var out := new Sink();
    ok := true;
    if w.configured != [] {
      ok := policy.AddIgnoreContents([], w.configured[0].contents);
    }
    if ok {
      assert policy.scoped == w.configured;
      ghost var records;
      ok, records := ScanDirectory(w, [], policy, out);
      assert out.sent == records;
    } else {
      NothingEmitted(w, Under([]));
    }
    var last := if ok then End else Error;
    items := AsItems(out.sent) + [last];
    DeliveredThen(out.sent, last);
    IndexTells(w, out.sent);
  }
}
