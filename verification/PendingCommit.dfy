/** Changes collected in whatever order transfers finish, replayed by operation id. */
module PendingCommitModel {
  import opened Paths
  import opened Records
  import opened Tree
  import opened Commit
  import opened CommitterModel

  type Changes = map<nat, Entry>

  lemma {:induction false} LeastExists(ids: set<nat>)
    requires ids != {}
    ensures exists least :: least in ids && forall id :: id in ids ==> least <= id
    decreases |ids|
  {
    var some :| some in ids;
    var others := ids - {some};
    if others == {} {
      assert ids == {some};
    } else {
      LeastExists(others);
      var other :| other in others && forall id :: id in others ==> other <= id;
      var least := if some < other then some else other;
      assert forall id :: id in ids ==> id == some || id in others;
      assert least in ids && forall id :: id in ids ==> least <= id;
    }
  }

  ghost function LeastId(ids: set<nat>): (least: nat)
    requires ids != {}
    ensures least in ids && forall id :: id in ids ==> least <= id
  {
    LeastExists(ids);
    var least :| least in ids && forall id :: id in ids ==> least <= id;
    least
  }

  /** The map's entries in ascending id order, as the ordered map iterates. */
  ghost function InOrder(changes: Changes): seq<Entry>
    decreases |changes|
  {
    if changes == map[] then []
    else
      var id := LeastId(changes.Keys);
      [changes[id]] + InOrder(changes - {id})
  }

  class PendingCommit {
    var changes: Changes

    ghost predicate Rooted()
      reads this
    {
      forall id :: id in changes ==> changes[id].operation.At() != []
    }

    constructor ()
      ensures changes == map[] && Rooted()
    {
      changes := map[];
    }

    /** Refuses a mismatched file and a second change with the same id, and changes nothing then. */
    method Stage(operation: Operation, file: Option<Staged>) returns (ok: bool)
      requires Rooted() && operation.At() != []
      modifies this
      ensures ok <==> (operation.UpsertFile? <==> file.Some?) && operation.id !in old(changes)
      ensures changes == if ok then old(changes)[operation.id := Entry(operation, file)] else old(changes)
      ensures Rooted()
    {
      if operation.UpsertFile? != file.Some? { return false; }
      if operation.id in changes { return false; }
      changes := changes[operation.id := Entry(operation, file)];
      return true;
    }

    /** Applies every change in id order and finishes; the live tree is the run of that order. */
    method CommitTo(root: Fs) returns (fs: Fs, ok: bool)
      requires Rooted()
      ensures
        var done := Run(root, InOrder(changes));
        fs == done.value.fs && ok == done.ok
    {
      var committer := new Committer(root);
      var rest := changes;
      while rest != map[]
        invariant committer.Rooted() && (forall id :: id in rest ==> rest[id].operation.At() != [])
        invariant ApplyAll(Fresh(root), InOrder(changes)) == ApplyAll(committer.View(), InOrder(rest))
        decreases |rest|
      {
        LeastExists(rest.Keys);
        var id :| id in rest && forall other :: other in rest ==> id <= other;
        assert id == LeastId(rest.Keys);
        assert InOrder(rest)[1..] == InOrder(rest - {id});
        ok := committer.ApplyNext(rest[id]);
        if !ok { return committer.fs, false; }
        rest := rest - {id};
      }
      ok := committer.FinishAll();
      fs := committer.fs;
    }
  }

  /** The map that staging these entries one by one builds. */
  function Collected(arrivals: seq<Entry>): Changes {
    if arrivals == [] then map[]
    else
      var last := arrivals[|arrivals| - 1];
      Collected(arrivals[..|arrivals| - 1])[last.operation.id := last]
  }

  predicate DistinctIds(entries: seq<Entry>) {
    forall i, j :: 0 <= i < j < |entries| ==> entries[i].operation.id != entries[j].operation.id
  }

  lemma {:induction false} CollectedHas(arrivals: seq<Entry>, id: nat)
    requires DistinctIds(arrivals)
    ensures id in Collected(arrivals) <==> exists e :: e in arrivals && e.operation.id == id
    ensures forall e :: e in arrivals && e.operation.id == id ==> id in Collected(arrivals) && Collected(arrivals)[id] == e
  {
    if arrivals != [] {
      var init := arrivals[..|arrivals| - 1];
      assert arrivals == init + [arrivals[|arrivals| - 1]];
      CollectedHas(init, id);
    }
  }

  /** Staging every arrival succeeds and builds the same map in any order. */
  lemma CollectedSame(a: seq<Entry>, b: seq<Entry>)
    requires DistinctIds(a) && DistinctIds(b) && multiset(a) == multiset(b)
    ensures Collected(a) == Collected(b)
  {
    forall e ensures e in a <==> e in b {
      assert e in multiset(a) <==> e in multiset(b);
    }
    forall id ensures id in Collected(a) <==> id in Collected(b) {
      CollectedHas(a, id);
      CollectedHas(b, id);
    }
    forall id | id in Collected(a) ensures Collected(a)[id] == Collected(b)[id] {
      CollectedHas(a, id);
      CollectedHas(b, id);
    }
  }

  /** Ids count up from `first`. */
  predicate Counting(entries: seq<Entry>, first: nat) {
    forall k :: 0 <= k < |entries| ==> entries[k].operation.id == first + k
  }

  lemma CollectedTail(entries: seq<Entry>, first: nat)
    requires entries != [] && Counting(entries, first)
    ensures Collected(entries) - {first} == Collected(entries[1..])
    ensures first in Collected(entries) && Collected(entries)[first] == entries[0]
    ensures forall id :: id in Collected(entries) ==> first <= id
  {
    hide Collected;
    assert DistinctIds(entries) && DistinctIds(entries[1..]);
    assert entries == [entries[0]] + entries[1..];
    forall id
      ensures id in Collected(entries) ==> first <= id
      ensures id in Collected(entries) - {first} <==> id in Collected(entries[1..])
      ensures id in Collected(entries[1..]) ==> Collected(entries)[id] == Collected(entries[1..])[id]
    {
      CollectedHas(entries, id);
      CollectedHas(entries[1..], id);
    }
    CollectedHas(entries, first);
  }

  lemma {:induction false} InOrderCollected(entries: seq<Entry>, first: nat)
    requires Counting(entries, first)
    ensures InOrder(Collected(entries)) == entries
  {
    if entries != [] {
      CollectedTail(entries, first);
      assert LeastId(Collected(entries).Keys) == first;
      InOrderCollected(entries[1..], first + 1);
    }
  }

  /**
   * Completion-order independence: whatever order the numbered changes arrive in, replaying the
   * collected map is replaying them in planner order.
   */
  lemma CompletionOrder(planned: seq<Entry>, arrivals: seq<Entry>)
    requires Counting(planned, 0) && multiset(arrivals) == multiset(planned)
    ensures DistinctIds(arrivals) && InOrder(Collected(arrivals)) == planned
  {
    ArrivalsDistinct(planned, arrivals);
    CollectedSame(arrivals, planned);
    InOrderCollected(planned, 0);
  }

  /** A rearrangement of changes with distinct ids repeats none. */
  lemma ArrivalsDistinct(planned: seq<Entry>, arrivals: seq<Entry>)
    requires Counting(planned, 0) && multiset(arrivals) == multiset(planned)
    ensures DistinctIds(arrivals)
  {
    forall i, j | 0 <= i < j < |arrivals| ensures arrivals[i].operation.id != arrivals[j].operation.id {
      if arrivals[i].operation.id == arrivals[j].operation.id {
        var e := arrivals[i];
        assert e in multiset(planned) && arrivals[j] in multiset(planned);
        assert e == arrivals[j];
        Occurrences(arrivals, i, j);
        OneOccurrence(planned, e.operation.id);
      }
    }
  }

  lemma Occurrences(s: seq<Entry>, i: nat, j: nat)
    requires i < j < |s| && s[i] == s[j]
    ensures multiset(s)[s[i]] >= 2
  {
    assert s == s[..i] + [s[i]] + s[i + 1..j] + [s[j]] + s[j + 1..];
  }

  lemma OneOccurrence(s: seq<Entry>, k: nat)
    requires Counting(s, 0) && k < |s|
    ensures multiset(s)[s[k]] == 1
  {
    assert s == s[..k] + [s[k]] + s[k + 1..];
    assert s[k] !in multiset(s[..k]) && s[k] !in multiset(s[k + 1..]);
  }
}
