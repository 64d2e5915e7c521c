/** The streamed merge is the pointwise difference of two indexes, in path order, numbered from 0. */
module PlanDiff {
  import opened Paths
  import opened Records
  import opened Planner

  /** What a scan delivers: strictly increasing paths. */
  ghost predicate Sorted(s: seq<Record>) {
    forall i, j :: 0 <= i < j < |s| ==> Less(s[i].path, s[j].path)
  }

  function PathsFrom(s: seq<Record>, i: nat): set<Path> {
    set k | i <= k < |s| :: s[k].path
  }

  /** The index entry at `x`, looking from position `i` on. */
  function Lookup(s: seq<Record>, i: nat, x: Path): Option<Record>
    decreases |s| - i
  {
    if i >= |s| then None else if s[i].path == x then Some(s[i]) else Lookup(s, i + 1, x)
  }

  /** An index has nothing below its own front. */
  lemma {:induction false} LookupBefore(s: seq<Record>, i: nat, x: Path)
    requires Sorted(s) && (i < |s| ==> Less(x, s[i].path))
    ensures Lookup(s, i, x) == None
    decreases |s| - i
  {
    if i < |s| {
      Total(x, s[i].path);
      if i + 1 < |s| { Transitive(x, s[i].path, s[i + 1].path); }
      LookupBefore(s, i + 1, x);
    }
  }

  /** The path of the merge position `i`, `j`. */
  function Front(s: seq<Record>, d: seq<Record>, i: nat, j: nat): Path
    requires i < |s| || j < |d|
  {
    Progress(Head(s, i), Head(d, j));
    if Takes(Head(s, i), Head(d, j)) then s[i].path else d[j].path
  }

  /** One merge position consumes exactly the front path, from each index that has it. */
  lemma FrontFacts(s: seq<Record>, d: seq<Record>, i: nat, j: nat)
    requires Sorted(s) && Sorted(d) && i <= |s| && j <= |d| && (i < |s| || j < |d|)
    ensures
      var q := Front(s, d, i, j);
      && Takes(Head(s, i), Head(d, j)) == (i < |s| && s[i].path == q)
      && Takes(Head(d, j), Head(s, i)) == (j < |d| && d[j].path == q)
      && (i < |s| ==> AtMost(q, s[i].path)) && (j < |d| ==> AtMost(q, d[j].path))
      && Lookup(s, i, q) == (if Takes(Head(s, i), Head(d, j)) then Head(s, i) else None)
      && Lookup(d, j, q) == (if Takes(Head(d, j), Head(s, i)) then Head(d, j) else None)
  {
    var q := Front(s, d, i, j);
    Progress(Head(s, i), Head(d, j));
    if i < |s| && j < |d| { Total(s[i].path, d[j].path); }
    if !(i < |s| && s[i].path == q) { LookupBefore(s, i, q); }
    if !(j < |d| && d[j].path == q) { LookupBefore(d, j, q); }
  }

  /** The operations of one position all concern its path and are numbered consecutively. */
  lemma OpsForFacts(a: Option<Record>, b: Option<Record>, q: Path, id: nat)
    requires (a.Some? ==> a.value.path == q) && (b.Some? ==> b.value.path == q)
    ensures |OpsFor(a, b, id)| <= 2
    ensures forall k :: 0 <= k < |OpsFor(a, b, id)| ==>
              OpsFor(a, b, id)[k].At() == q && OpsFor(a, b, id)[k].id == id + k
  {
  }

  lemma FrontRises(s: seq<Record>, d: seq<Record>, i: nat, j: nat, i': nat, j': nat)
    requires Sorted(s) && Sorted(d) && i <= |s| && j <= |d| && (i < |s| || j < |d|)
    requires i' == Next(i, Takes(Head(s, i), Head(d, j))) && j' == Next(j, Takes(Head(d, j), Head(s, i)))
    requires i' < |s| || j' < |d|
    ensures Less(Front(s, d, i, j), Front(s, d, i', j'))
  {
    FrontFacts(s, d, i, j);
    FrontFacts(s, d, i', j');
    var q := Front(s, d, i, j);
    if i < |s| { Total(q, s[i].path); }
    if j < |d| { Total(q, d[j].path); }
  }

  /** Once consumed, the front path does not come back. */
  lemma AfterFront(s: seq<Record>, d: seq<Record>, i: nat, j: nat, i': nat, j': nat)
    requires Sorted(s) && Sorted(d) && i <= |s| && j <= |d| && (i < |s| || j < |d|)
    requires i' == Next(i, Takes(Head(s, i), Head(d, j))) && j' == Next(j, Takes(Head(d, j), Head(s, i)))
    ensures Lookup(s, i', Front(s, d, i, j)) == None && Lookup(d, j', Front(s, d, i, j)) == None
  {
    FrontFacts(s, d, i, j);
    var q := Front(s, d, i, j);
    if i < |s| { Total(q, s[i].path); }
    if j < |d| { Total(q, d[j].path); }
    LookupBefore(s, i', q);
    LookupBefore(d, j', q);
  }

  /** One turn of the merge: the front path's difference, then the rest of both indexes. */
  lemma Turn(s: seq<Record>, d: seq<Record>, i: nat, j: nat, id: nat)
    returns (q: Path, ops: seq<Operation>, i': nat, j': nat)
    requires Sorted(s) && Sorted(d) && i <= |s| && j <= |d| && (i < |s| || j < |d|)
    ensures q == Front(s, d, i, j)
    ensures i' == (if i < |s| && s[i].path == q then i + 1 else i)
    ensures j' == (if j < |d| && d[j].path == q then j + 1 else j)
    ensures i' <= |s| && j' <= |d| && i + j < i' + j'
    ensures ops == OpsFor(Lookup(s, i, q), Lookup(d, j, q), id)
    ensures forall k :: 0 <= k < |ops| ==> ops[k].At() == q && ops[k].id == id + k
    ensures MergeDiff(s, d, i, j, id) == ops + MergeDiff(s, d, i', j', id + |ops|)
    ensures i' < |s| || j' < |d| ==> Less(q, Front(s, d, i', j'))
    ensures Lookup(s, i', q) == None && Lookup(d, j', q) == None
  {
    hide Sorted, OpsFor, Less, Lookup;
    q := Front(s, d, i, j);
    ops := OpsAt(Head(s, i), Head(d, j), id);
    i', j' := Next(i, Takes(Head(s, i), Head(d, j))), Next(j, Takes(Head(d, j), Head(s, i)));
    Progress(Head(s, i), Head(d, j));
    FrontFacts(s, d, i, j);
    OpsForFacts(Lookup(s, i, q), Lookup(d, j, q), q, id);
    if i' < |s| || j' < |d| { FrontRises(s, d, i, j, i', j'); }
    AfterFront(s, d, i, j, i', j');
  }

  /** Operations are numbered consecutively. */
  lemma {:induction false} PlanNumbered(s: seq<Record>, d: seq<Record>, i: nat, j: nat, id: nat)
    requires Sorted(s) && Sorted(d) && i <= |s| && j <= |d|
    ensures Numbered(MergeDiff(s, d, i, j, id), id)
    decreases |s| - i + |d| - j
  {
    if i < |s| || j < |d| {
      var q, ops, i', j' := Turn(s, d, i, j, id);
      PlanNumbered(s, d, i', j', id + |ops|);
      NumberedAppend(ops, MergeDiff(s, d, i', j', id + |ops|), id);
    }
  }

  predicate Numbered(ops: seq<Operation>, id: nat) {
    forall k :: 0 <= k < |ops| ==> ops[k].id == id + k
  }

  lemma NumberedAppend(a: seq<Operation>, b: seq<Operation>, id: nat)
    requires Numbered(a, id) && Numbered(b, id + |a|)
    ensures Numbered(a + b, id)
  {
  }

  ghost predicate NotBefore(ops: seq<Operation>, q: Path) {
    forall k :: 0 <= k < |ops| ==> AtMost(q, ops[k].At())
  }

  ghost predicate Ascending(ops: seq<Operation>) {
    forall k, l :: 0 <= k < l < |ops| ==> AtMost(ops[k].At(), ops[l].At())
  }

  lemma AscendingAppend(a: seq<Operation>, b: seq<Operation>, q: Path)
    requires forall k :: 0 <= k < |a| ==> a[k].At() == q
    requires NotBefore(b, q) && Ascending(b)
    ensures NotBefore(a + b, q) && Ascending(a + b)
  {
  }

  lemma NotBeforeRises(ops: seq<Operation>, q: Path, q': Path)
    requires Less(q, q') && NotBefore(ops, q')
    ensures NotBefore(ops, q)
  {
    forall k | 0 <= k < |ops| ensures AtMost(q, ops[k].At()) {
      if q' != ops[k].At() { Transitive(q, q', ops[k].At()); }
    }
  }

  lemma OrderedDone(s: seq<Record>, d: seq<Record>, id: nat, q: Path)
    ensures Ascending(MergeDiff(s, d, |s|, |d|, id)) && NotBefore(MergeDiff(s, d, |s|, |d|, id), q)
  {
  }

  /** Operations come in path order, and none before the front. */
  lemma {:induction false} PlanOrdered(s: seq<Record>, d: seq<Record>, i: nat, j: nat, id: nat)
    requires Sorted(s) && Sorted(d) && i <= |s| && j <= |d|
    ensures Ascending(MergeDiff(s, d, i, j, id))
    ensures i < |s| || j < |d| ==> NotBefore(MergeDiff(s, d, i, j, id), Front(s, d, i, j))
    decreases |s| - i + |d| - j
  {
    hide MergeDiff, OpsFor, Lookup, Less, Ascending, NotBefore, Front, Sorted;
    if i == |s| && j == |d| {
      OrderedDone(s, d, id, []);
    } else {
      var q, ops, i', j' := Turn(s, d, i, j, id);
      PlanOrdered(s, d, i', j', id + |ops|);
      var rest := MergeDiff(s, d, i', j', id + |ops|);
      if i' < |s| || j' < |d| { NotBeforeRises(rest, q, Front(s, d, i', j')); }
      else { OrderedDone(s, d, id + |ops|, q); }
      AscendingAppend(ops, rest, q);
    }
  }

  function AtPath(ops: seq<Operation>, x: Path): seq<Operation> {
    if ops == [] then []
    else (if ops[0].At() == x then [ops[0]] else []) + AtPath(ops[1..], x)
  }

  lemma {:induction false} AtPathAppend(a: seq<Operation>, b: seq<Operation>, x: Path)
    ensures AtPath(a + b, x) == AtPath(a, x) + AtPath(b, x)
  {
    if a == [] {
      assert a + b == b;
    } else {
      assert (a + b)[1..] == a[1..] + b;
      AtPathAppend(a[1..], b, x);
      var head := if a[0].At() == x then [a[0]] else [];
      Regroup(head + (AtPath(a[1..], x) + AtPath(b, x)), head, AtPath(a[1..], x), AtPath(b, x));
    }
  }

  lemma {:induction false} AtPathAll(ops: seq<Operation>, x: Path, q: Path)
    requires forall k :: 0 <= k < |ops| ==> ops[k].At() == q
    ensures AtPath(ops, x) == if x == q then ops else []
  {
    if ops != [] {
      AtPathAll(ops[1..], x, q);
    }
  }

  lemma DiffHere(plan: seq<Operation>, ops: seq<Operation>, rest: seq<Operation>, x: Path)
    requires plan == ops + rest && AtPath(rest, x) == []
    requires forall k :: 0 <= k < |ops| ==> ops[k].At() == x
    ensures AtPath(plan, x) == ops
  {
    AtPathAppend(ops, rest, x);
    AtPathAll(ops, x, x);
  }

  lemma DiffLater(plan: seq<Operation>, ops: seq<Operation>, rest: seq<Operation>, x: Path, q: Path)
    requires plan == ops + rest && x != q
    requires forall k :: 0 <= k < |ops| ==> ops[k].At() == q
    ensures AtPath(plan, x) == AtPath(rest, x)
  {
    AtPathAppend(ops, rest, x);
    AtPathAll(ops, x, q);
  }

  lemma SkipFront(s: seq<Record>, d: seq<Record>, i: nat, j: nat, i': nat, j': nat, x: Path)
    requires i' == i || (i' == i + 1 && i < |s| && s[i].path != x)
    requires j' == j || (j' == j + 1 && j < |d| && d[j].path != x)
    ensures Lookup(s, i', x) == Lookup(s, i, x) && Lookup(d, j', x) == Lookup(d, j, x)
  {
  }

  /**
   * At every path the plan is exactly the difference of the two index entries there: nothing when
   * they are equal, otherwise a deletion when the kind goes away and an upsert of what is wanted.
   */
  lemma {:induction false} PlanIsDiff(s: seq<Record>, d: seq<Record>, i: nat, j: nat, id: nat, x: Path)
    returns (first: nat)
    requires Sorted(s) && Sorted(d) && i <= |s| && j <= |d|
    ensures AtPath(MergeDiff(s, d, i, j, id), x) == OpsFor(Lookup(s, i, x), Lookup(d, j, x), first)
    decreases |s| - i + |d| - j
  {
    hide MergeDiff, OpsFor, AtPath, Lookup, Less, Sorted, Front;
    if i == |s| && j == |d| {
      first := id;
      DiffDone(s, d, id, x);
    } else {
      var q, ops, i', j' := Turn(s, d, i, j, id);
      var plan, rest := MergeDiff(s, d, i, j, id), MergeDiff(s, d, i', j', id + |ops|);
      var later := PlanIsDiff(s, d, i', j', id + |ops|, x);
      if x == q {
        NoDiff(later);
        DiffHere(plan, ops, rest, x);
        first := id;
      } else {
        DiffLater(plan, ops, rest, x, q);
        SkipFront(s, d, i, j, i', j', x);
        first := later;
      }
    }
  }

  lemma NoDiff(id: nat)
    ensures OpsFor(None, None, id) == []
  {
  }

  lemma DiffDone(s: seq<Record>, d: seq<Record>, id: nat, x: Path)
    ensures AtPath(MergeDiff(s, d, |s|, |d|, id), x) == OpsFor(Lookup(s, |s|, x), Lookup(d, |d|, x), id)
  {
  }

  /** A position yields nothing exactly when its lookaheads are equal; it then consumes both. */
  lemma OpsAtEmptyIff(left: Option<Record>, right: Option<Record>, id: nat)
    requires left.Some? || right.Some?
    ensures OpsAt(left, right, id) == [] <==> left == right
    ensures left == right ==> Takes(left, right) && Takes(right, left)
  {
    hide Less;
    Progress(left, right);
  }

  /** The merge of two rests is empty exactly when they are the same rest. */
  lemma {:induction false} MergeEmptyIff(s: seq<Record>, d: seq<Record>, i: nat, id: nat)
    requires i <= |s| && i <= |d|
    ensures MergeDiff(s, d, i, i, id) == [] <==> s[i..] == d[i..]
    decreases |s| - i + |d| - i
  {
    hide OpsAt, Takes;
    if i < |s| || i < |d| {
      var left, right := Head(s, i), Head(d, i);
      Progress(left, right);
      OpsAtEmptyIff(left, right, id);
      assert Head(s[i..], 0) == left && Head(d[i..], 0) == right;
      if left == right {
        MergeEmptyIff(s, d, i + 1, id);
        assert s[i..] == [s[i]] + s[i + 1..] && d[i..] == [d[i]] + d[i + 1..];
      }
    }
  }

  /** Nothing is planned for two rests that are the same. */
  lemma {:induction false} SameRests(s: seq<Record>, d: seq<Record>, i: nat, j: nat, id: nat)
    requires i <= |s| && j <= |d| && s[i..] == d[j..]
    ensures MergeDiff(s, d, i, j, id) == []
    decreases |s| - i
  {
    if i < |s| {
      assert s[i] == s[i..][0] == d[j..][0] == d[j];
      assert s[i..][1..] == s[i + 1..] && d[j..][1..] == d[j + 1..];
      SameRests(s, d, i + 1, j + 1, id);
    }
  }

  /**
   * Nothing is held back: what has been decided is itself the whole plan of some completion, so with
   * soundness it is the longest beginning that all completions' plans share.
   */
  lemma {:induction false} CertainTight(s: seq<Record>, sEnded: bool, d: seq<Record>, dEnded: bool,
                                        i: nat, j: nat, id: nat)
    returns (s': seq<Record>, d': seq<Record>)
    requires i <= |s| && j <= |d|
    ensures Completes(s, sEnded, s') && Completes(d, dEnded, d')
    ensures MergeDiff(s', d', i, j, id) == Certain(s, sEnded, d, dEnded, i, j, id)
    decreases |s| - i + |d| - j
  {
    hide OpsAt, Takes;
    s', d' := s, d;
    if i == |s| && j == |d| {
    } else if !HasLookahead(s, sEnded, i) {
      s' := s + d[j..];
      SameRests(s', d, i, j, id);
    } else if !HasLookahead(d, dEnded, j) {
      d' := d + s[i..];
      SameRests(s, d', i, j, id);
    } else {
      var left, right := Head(s, i), Head(d, j);
      Progress(left, right);
      TakesOnly(left, right);
      s', d' := CertainTight(s, sEnded, d, dEnded, Next(i, Takes(left, right)), Next(j, Takes(right, left)),
                             id + |OpsAt(left, right, id)|);
      assert Head(s', i) == left && Head(d', j) == right;
    }
  }

  lemma TakesOnly(left: Option<Record>, right: Option<Record>)
    ensures Takes(left, right) ==> left.Some?
    ensures Takes(right, left) ==> right.Some?
  {
  }

  /** The plan of any two indexes is empty exactly when they are equal. */
  lemma PlanEmptyIff(s: seq<Record>, d: seq<Record>)
    ensures MergeDiff(s, d, 0, 0, 0) == [] <==> s == d
  {
    MergeEmptyIff(s, d, 0, 0);
    assert s[0..] == s && d[0..] == d;
  }

  lemma {:induction false} SomewhereAtPath(ops: seq<Operation>)
    requires ops != []
    ensures AtPath(ops, ops[0].At()) != []
  {
  }

  /** A sorted index is determined by its entries. */
  lemma IndexUnique(s: seq<Record>, s': seq<Record>)
    requires Sorted(s) && Sorted(s') && forall x :: Lookup(s, 0, x) == Lookup(s', 0, x)
    ensures s == s'
  {
    var plan := MergeDiff(s, s', 0, 0, 0);
    PlanEmptyIff(s, s');
    if plan != [] {
      var first := PlanIsDiff(s, s', 0, 0, 0, plan[0].At());
      SomewhereAtPath(plan);
    }
  }
}
