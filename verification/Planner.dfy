/** The streaming two-way merge of a source index and a destination index. */
module Planner {
  import opened Paths
  import opened Records

  /** What a bounded index channel delivers; running out of items means the producer went away. */
  datatype Item = Listed(record: Record) | End | Error

  /** The operation that installs one source record. */
  function Upsert(record: Record, id: nat, update: bool): Operation {
    match record.Kind()
    case DirectoryKind => UpsertDirectory(id, record)
    case FileKind => UpsertFile(id, record, update)
    case LinkKind => UpsertSymlink(id, record)
  }

  /** The difference at a single path: source record `a`, destination record `b`. */
  function OpsFor(a: Option<Record>, b: Option<Record>, id: nat): (ops: seq<Operation>) {
    if a == b then []
    else
      var gone := b.Some? && (a.None? || a.value.Kind() != b.value.Kind());
      var deletion := if gone then [Delete(id, b.value.path, b.value.Kind())] else [];
      var update := b.Some? && b.value.Kind() == FileKind;
      if a.Some? then deletion + [Upsert(a.value, id + |deletion|, update)] else deletion
  }

  /** The lookahead at position `i`. */
  function Head(s: seq<Record>, i: nat): Option<Record> {
    if i < |s| then Some(s[i]) else None
  }

  /** Whether the merge consumes `mine`, given the other input's lookahead. */
  predicate Takes(mine: Option<Record>, other: Option<Record>) {
    mine.Some? && (other.None? || AtMost(mine.value.path, other.value.path))
  }

  function Next(i: nat, taken: bool): nat {
    if taken then i + 1 else i
  }

  /** The operations of the merge position with these two lookaheads. */
  function OpsAt(left: Option<Record>, right: Option<Record>, id: nat): seq<Operation> {
    OpsFor(if Takes(left, right) then left else None, if Takes(right, left) then right else None, id)
  }

  lemma Progress(left: Option<Record>, right: Option<Record>)
    requires left.Some? || right.Some?
    ensures Takes(left, right) || Takes(right, left)
  {
    if left.Some? && right.Some? {
      Total(left.value.path, right.value.path);
    }
  }

  /** The plan for two complete indexes, from positions `i` and `j` on. */
  function MergeDiff(s: seq<Record>, d: seq<Record>, i: nat, j: nat, id: nat): seq<Operation>
    requires i <= |s| && j <= |d|
    decreases |s| - i + |d| - j
  {
    if i == |s| && j == |d| then []
    else
      var left, right := Head(s, i), Head(d, j);
      Progress(left, right);
      var ops := OpsAt(left, right, id);
      ops + MergeDiff(s, d, Next(i, Takes(left, right)), Next(j, Takes(right, left)), id + |ops|)
  }

  /** Records as a channel carries them. */
  function AsItems(records: seq<Record>): seq<Item> {
    seq(|records|, i requires 0 <= i < |records| => Listed(records[i]))
  }

  /** The records an input delivers before anything else. */
  function Delivered(items: seq<Item>): seq<Record> {
    if items == [] || !items[0].Listed? then [] else [items[0].record] + Delivered(items[1..])
  }

  /** The input announced its end. */
  predicate Ended(items: seq<Item>) {
    |Delivered(items)| < |items| && items[|Delivered(items)|].End?
  }

  /** A lookahead is available: a record, or the announced end. */
  predicate HasLookahead(s: seq<Record>, ended: bool, i: nat) {
    i < |s| || ended
  }

  /** The operations both lookaheads decide; an input that stops without its end stops the merge. */
  function Certain(s: seq<Record>, sEnded: bool, d: seq<Record>, dEnded: bool,
                   i: nat, j: nat, id: nat): seq<Operation>
    requires i <= |s| && j <= |d|
    decreases |s| - i + |d| - j
  {
    if !HasLookahead(s, sEnded, i) || !HasLookahead(d, dEnded, j) || (i == |s| && j == |d|) then []
    else
      var left, right := Head(s, i), Head(d, j);
      Progress(left, right);
      var ops := OpsAt(left, right, id);
      ops + Certain(s, sEnded, d, dEnded, Next(i, Takes(left, right)), Next(j, Takes(right, left)), id + |ops|)
  }

  /** Complete inputs decide the whole plan. */
  lemma {:induction false} CertainComplete(s: seq<Record>, d: seq<Record>, i: nat, j: nat, id: nat)
    requires i <= |s| && j <= |d|
    ensures Certain(s, true, d, true, i, j, id) == MergeDiff(s, d, i, j, id)
    decreases |s| - i + |d| - j
  {
    if i < |s| || j < |d| {
      var left, right := Head(s, i), Head(d, j);
      Progress(left, right);
      CertainComplete(s, d, Next(i, Takes(left, right)), Next(j, Takes(right, left)),
                      id + |OpsAt(left, right, id)|);
    }
  }

  /** `s'` is an index that an input which has delivered `s` may still turn out to be. */
  predicate Completes(s: seq<Record>, ended: bool, s': seq<Record>) {
    if ended then s' == s else s <= s'
  }

  /** Whatever has been decided stays a prefix of the plan, however the inputs go on. */
  lemma {:induction false} CertainSound(s: seq<Record>, sEnded: bool, d: seq<Record>, dEnded: bool,
                                        s': seq<Record>, d': seq<Record>, i: nat, j: nat, id: nat)
    requires Completes(s, sEnded, s') && Completes(d, dEnded, d')
    requires i <= |s| && j <= |d|
    ensures Certain(s, sEnded, d, dEnded, i, j, id) <= MergeDiff(s', d', i, j, id)
    decreases |s| - i + |d| - j
  {
    if HasLookahead(s, sEnded, i) && HasLookahead(d, dEnded, j) && (i < |s| || j < |d|) {
      var left, right := Head(s, i), Head(d, j);
      Progress(left, right);
      assert Head(s', i) == left && Head(d', j) == right;
      CertainSound(s, sEnded, d, dEnded, s', d', Next(i, Takes(left, right)), Next(j, Takes(right, left)),
                   id + |OpsAt(left, right, id)|);
    }
  }

  lemma {:induction false} DeliveredBound(items: seq<Item>)
    ensures |Delivered(items)| <= |items|
    ensures forall k :: 0 <= k < |Delivered(items)| ==> items[k] == Listed(Delivered(items)[k])
    ensures |Delivered(items)| < |items| ==> !items[|Delivered(items)|].Listed?
  {
    if items != [] && items[0].Listed? {
      DeliveredBound(items[1..]);
    }
  }

  method Read(items: seq<Item>, n: nat) returns (head: Option<Record>, ok: bool)
    requires n <= |Delivered(items)|
    ensures head == Head(Delivered(items), n)
    ensures ok <==> HasLookahead(Delivered(items), Ended(items), n)
  {
    DeliveredBound(items);
    if n == |items| { return None, false; }
    match items[n]
    case Listed(record) => return Some(record), true;
    case End => return None, true;
    case Error => return None, false;
  }

  /** Sends until the consumer, which takes `quota` operations in all, closes. */
  method Send(sent: seq<Operation>, more: seq<Operation>, quota: nat)
    returns (out: seq<Operation>, ok: bool)
    requires |sent| <= quota
    ensures ok <==> |sent + more| <= quota
    ensures if ok then out == sent + more else out == (sent + more)[..quota]
  {
    out := sent;
    for k := 0 to |more|
      invariant out == sent + more[..k] && |out| <= quota
    {
      if |out| == quota { return out, false; }
      out := out + [more[k]];
    }
    return out, true;
  }

  lemma Regroup<T>(x: seq<T>, ops: seq<T>, more: seq<T>, rest: seq<T>)
    requires x == ops + (more + rest)
    ensures x == (ops + more) + rest
  {
  }

  lemma CutShort<T>(x: seq<T>, rest: seq<T>, quota: nat)
    requires quota < |x|
    ensures (x + rest)[..quota] == x[..quota]
  {
  }

  /** One turn of the merge as the decided operations see it. */
  lemma CertainTurn(s: seq<Record>, sEnded: bool, d: seq<Record>, dEnded: bool, i: nat, j: nat, id: nat)
    requires i <= |s| && j <= |d| && HasLookahead(s, sEnded, i) && HasLookahead(d, dEnded, j) && (i < |s| || j < |d|)
    ensures
      var l, r := Takes(Head(s, i), Head(d, j)), Takes(Head(d, j), Head(s, i));
      var ops := OpsAt(Head(s, i), Head(d, j), id);
      && (l || r) && Next(i, l) <= |s| && Next(j, r) <= |d|
      && Certain(s, sEnded, d, dEnded, i, j, id) ==
         ops + Certain(s, sEnded, d, dEnded, Next(i, l), Next(j, r), id + |ops|)
  {
    Progress(Head(s, i), Head(d, j));
  }

  /** Nothing more is decided when a lookahead is missing or both inputs are used up. */
  lemma CertainStops(s: seq<Record>, sEnded: bool, d: seq<Record>, dEnded: bool, i: nat, j: nat, id: nat)
    requires i <= |s| && j <= |d|
    requires !HasLookahead(s, sEnded, i) || !HasLookahead(d, dEnded, j) || (i == |s| && j == |d|)
    ensures Certain(s, sEnded, d, dEnded, i, j, id) == []
  {
  }

  /**
   * `plan`: one lookahead per input, operations sent as soon as they are known. The consumer
   * takes `quota` operations and then closes.
   *
   * Exactly the decided operations are sent, up to the consumer's quota, and the run succeeds only
   * when both inputs announced their end and every operation was taken.
   */
  method Plan(source: seq<Item>, destination: seq<Item>, quota: nat)
    returns (sent: seq<Operation>, ok: bool)
    ensures
      var decided := Certain(Delivered(source), Ended(source), Delivered(destination), Ended(destination), 0, 0, 0);
      && sent == (if |decided| <= quota then decided else decided[..quota])
      && (ok <==> Ended(source) && Ended(destination) && |decided| <= quota)
  {
    hide Certain, Takes, OpsFor, Delivered, Ended;
    ghost var s, d := Delivered(source), Delivered(destination);
    ghost var sEnded, dEnded := Ended(source), Ended(destination);
    ghost var rest := Certain(s, sEnded, d, dEnded, 0, 0, 0);
    ghost var decided := rest;
    sent := [];
    var i: nat, j: nat := 0, 0;
    var left, readable := Read(source, 0);
    if !readable {
      CertainStops(s, sEnded, d, dEnded, i, j, 0);
      return sent, false;
    }
    var right;
    right, readable := Read(destination, 0);
    if !readable {
      CertainStops(s, sEnded, d, dEnded, i, j, 0);
      return sent, false;
    }
    while left.Some? || right.Some?
      invariant i <= |s| && j <= |d| && left == Head(s, i) && right == Head(d, j)
      invariant HasLookahead(s, sEnded, i) && HasLookahead(d, dEnded, j)
      invariant rest == Certain(s, sEnded, d, dEnded, i, j, |sent|)
      invariant decided == sent + rest && |sent| <= quota
      decreases |s| - i + |d| - j
    {
      var l, r := Takes(left, right), Takes(right, left);
      var more := OpsFor(if l then left else None, if r then right else None, |sent|);
      CertainTurn(s, sEnded, d, dEnded, i, j, |sent|);
      i, j := Next(i, l), Next(j, r);
      rest := Certain(s, sEnded, d, dEnded, i, j, |sent| + |more|);
      Regroup(decided, sent, more, rest);
      ghost var soFar := sent + more;
      var taken;
      sent, taken := Send(sent, more, quota);
      if !taken {
        CutShort(soFar, rest, quota);
        return sent, false;
      }
      if l {
        left, readable := Read(source, i);
        if !readable {
          CertainStops(s, sEnded, d, dEnded, i, j, |sent|);
          return sent, false;
        }
      }
      if r {
        right, readable := Read(destination, j);
        if !readable {
          CertainStops(s, sEnded, d, dEnded, i, j, |sent|);
          return sent, false;
        }
      }
    }
    CertainStops(s, sEnded, d, dEnded, i, j, |sent|);
    return sent, true;
  }
}
