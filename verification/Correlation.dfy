/** Request ids and the tags waiting under them (sftp/src/lib.rs, `IdAllocator` and `Correlator`). */
module Correlation {
  import opened Bytes

  datatype Corr<T> = Corr(next: nat, pending: map<nat, T>)

  function Empty<T>(): Corr<T> {
    Corr(0, map[])
  }

  /** `wrapping_add(1)` on u32. */
  function Wrapped(id: nat): nat {
    (id + 1) % TWO_32
  }

  function Submit<T>(c: Corr<T>, tag: T): Corr<T> {
    Corr(Wrapped(c.next), c.pending[c.next := tag])
  }

  function TakeOut<T>(c: Corr<T>, id: nat): (Corr<T>, Option<T>) {
    if id in c.pending then (c.(pending := c.pending - {id}), Some(c.pending[id])) else (c, None)
  }

  /** The pending tags by ascending id, as a `BTreeMap` iterates. */
  ghost predicate Ascends<T>(items: seq<(nat, T)>, pending: map<nat, T>) {
    && (forall i, j :: 0 <= i < j < |items| ==> items[i].0 < items[j].0)
    && (forall i :: 0 <= i < |items| ==> items[i].0 in pending && pending[items[i].0] == items[i].1)
    && (forall id :: id in pending ==> exists i :: 0 <= i < |items| && items[i].0 == id)
  }

  class Correlator<T> {
    var next: nat
    var pending: map<nat, T>

    ghost function View(): Corr<T>
      reads this
    {
      Corr(next, pending)
    }

    constructor ()
      ensures View() == Empty()
    {
      next, pending := 0, map[];
    }

    method SubmitTag(tag: T) returns (id: nat)
      modifies this
      ensures View() == Submit(old(View()), tag) && id == old(next)
    {
      id := next;
      next := Wrapped(next);
      pending := pending[id := tag];
    }

    method Take(id: nat) returns (tag: Option<T>)
      modifies `pending
      ensures (View(), tag) == TakeOut(old(View()), id)
    {
      if id !in pending {
        return None;
      }
      tag := Some(pending[id]);
      pending := pending - {id};
    }

    method DrainPending() returns (items: seq<(nat, T)>)
      modifies `pending
      ensures pending == map[] && Ascends(items, old(pending))
    {
      items := InOrder(pending);
      pending := map[];
    }
  }

  predicate IsLeast(id: nat, ids: set<nat>) {
    id in ids && forall other :: other in ids ==> id <= other
  }

  method InOrder<T>(all: map<nat, T>) returns (items: seq<(nat, T)>)
    ensures Ascends(items, all)
  {
    items := [];
    var left := all.Keys;
    Untouched(all);
    while left != {}
      invariant left <= all.Keys
      invariant Ascends(items, all - left)
      invariant forall i, id :: 0 <= i < |items| && id in left ==> items[i].0 < id
      decreases |left|
    {
      hide Ascends;
      LeastExists(left);
      var id :| id in left && IsLeast(id, left);
      Handed(items, all, left, id);
      items := items + [(id, all[id])];
      left := left - {id};
    }
    assert all - {} == all;
  }

  lemma Untouched<T>(all: map<nat, T>)
    ensures Ascends([], all - all.Keys)
  {
  }

  lemma Handed<T>(items: seq<(nat, T)>, all: map<nat, T>, left: set<nat>, id: nat)
    requires left <= all.Keys && id in left && Ascends(items, all - left)
    requires forall i :: 0 <= i < |items| ==> items[i].0 < id
    ensures Ascends(items + [(id, all[id])], all - (left - {id}))
  {
    var items1 := items + [(id, all[id])];
    forall k | k in all - (left - {id})
      ensures exists i :: 0 <= i < |items1| && items1[i].0 == k
    {
      if k == id {
        assert items1[|items|].0 == k;
      } else {
        assert k in all - left;
        var i :| 0 <= i < |items| && items[i].0 == k;
        assert items1[i].0 == k;
      }
    }
  }

  lemma {:induction false} LeastExists(ids: set<nat>)
    requires ids != {}
    ensures exists id :: IsLeast(id, ids)
    decreases |ids|
  {
    var x :| x in ids;
    var rest := ids - {x};
    if rest == {} {
      assert IsLeast(x, {x}) && ids == {x};
    } else {
      LeastExists(rest);
      var y :| IsLeast(y, rest);
      var least := if x <= y then x else y;
      forall other | other in ids
        ensures least <= other
      {
        assert other == x || other in rest;
      }
      assert IsLeast(least, ids);
    }
  }

  // ---- histories ----

  datatype Op<T> = SubmitOp(tag: T) | TakeOp(id: nat) | DrainOp

  function Run<T>(ops: seq<Op<T>>): Corr<T> {
    if ops == [] then Empty()
    else
      var c := Run(ops[..|ops| - 1]);
      match ops[|ops| - 1]
      case SubmitOp(tag) => Submit(c, tag)
      case TakeOp(id) => TakeOut(c, id).0
      case DrainOp => c.(pending := map[])
  }

  /** The tags in the order they were submitted. */
  function Tags<T>(ops: seq<Op<T>>): seq<T> {
    if ops == [] then []
    else
      var tags := Tags(ops[..|ops| - 1]);
      match ops[|ops| - 1]
      case SubmitOp(tag) => tags + [tag]
      case _ => tags
  }

  /** The same history with each submission tagged by its own number, and the numbers handed out so far. */
  datatype Log = Log(corr: Corr<nat>, submitted: nat, out: multiset<nat>)

  function Record<T>(log: Log, op: Op<T>): Log {
    match op
    case SubmitOp(_) => log.(corr := Submit(log.corr, log.submitted), submitted := log.submitted + 1)
    case TakeOp(id) =>
      (match TakeOut(log.corr, id)
       case (c, Some(k)) => log.(corr := c, out := log.out + multiset{k})
       case (c, None) => log)
    case DrainOp => log.(corr := log.corr.(pending := map[]), out := log.out + multiset(log.corr.pending.Values))
  }

  function Numbered<T>(ops: seq<Op<T>>): Log {
    if ops == [] then Log(Empty(), 0, multiset{}) else Record(Numbered(ops[..|ops| - 1]), ops[|ops| - 1])
  }

  /** Tags travel with their numbers: what waits under an id is the tag of the submission that waits there. */
  lemma {:induction false} TagsFollowNumbers<T>(ops: seq<Op<T>>)
    ensures var c, log := Run(ops), Numbered(ops);
            && log.submitted == |Tags(ops)| && log.corr.next == c.next
            && log.corr.pending.Keys == c.pending.Keys
            && forall id :: id in c.pending ==>
                 log.corr.pending[id] < |Tags(ops)| && c.pending[id] == Tags(ops)[log.corr.pending[id]]
  {
    if ops == [] {
    } else {
      TagsFollowNumbers(ops[..|ops| - 1]);
    }
  }

  /** Submission `k` still waits, under the id it was given. */
  predicate Waits(log: Log, k: nat) {
    k % TWO_32 in log.corr.pending && log.corr.pending[k % TWO_32] == k
  }

  function Account(log: Log, k: nat): nat {
    log.out[k] + if Waits(log, k) then 1 else 0
  }

  ghost predicate Sane(log: Log) {
    && log.corr.next == log.submitted % TWO_32
    && (forall id :: id in log.corr.pending ==>
          var k := log.corr.pending[id];
          k < log.submitted <= k + TWO_32 && k % TWO_32 == id)
    && (forall k: nat :: Account(log, k) <= 1)
    && (forall k: nat :: k >= log.submitted ==> Account(log, k) == 0)
  }

  /** The submission 2^32 before this one has not been answered yet. */
  ghost predicate Collides<T>(log: Log, op: Op<T>) {
    op.SubmitOp? && log.submitted >= TWO_32 && Waits(log, log.submitted - TWO_32)
  }

  lemma NextResidue(n: nat)
    ensures Wrapped(n % TWO_32) == (n + 1) % TWO_32
  {
  }

  /** What one operation does to the accounts: nothing, but for a new submission and the one it overwrites. */
  ghost predicate Balanced<T>(log: Log, op: Op<T>) {
    var log1 := Record(log, op);
    && Sane(log1)
    && (forall k: nat :: k < log.submitted ==>
          Account(log1, k) == if Collides(log, op) && k == log.submitted - TWO_32 then 0 else Account(log, k))
    && (op.SubmitOp? ==> Account(log1, log.submitted) == 1)
  }

  /** A submission takes over its id from the one 2^32 before it and touches no other. */
  lemma SubmitWaits(log: Log, k: nat)
    requires log.corr.next == log.submitted % TWO_32
    requires Waits(log, k) ==> k < log.submitted <= k + TWO_32
    ensures var log1 := log.(corr := Submit(log.corr, log.submitted));
            Waits(log1, k) <==> k == log.submitted || (Waits(log, k) && k + TWO_32 != log.submitted)
  {
  }

  lemma SubmitIds(log: Log, id: nat)
    requires Sane(log)
    ensures var c := Submit(log.corr, log.submitted);
            id in c.pending ==> c.pending[id] <= log.submitted < c.pending[id] + TWO_32 && c.pending[id] % TWO_32 == id
  {
    hide Account;
    if id in log.corr.pending && id != log.corr.next {
      var k := log.corr.pending[id];
      assert k % TWO_32 == id && log.submitted % TWO_32 != id && k < log.submitted <= k + TWO_32;
      assert log.submitted != k + TWO_32 by {
        assert (k + TWO_32) % TWO_32 == k % TWO_32;
      }
    }
  }

  lemma SubmitBalances<T>(log: Log, tag: T)
    requires Sane(log)
    ensures Balanced(log, SubmitOp(tag))
  {
    var n, log1 := log.submitted, Record(log, SubmitOp(tag));
    NextResidue(n);
    forall k: nat
      ensures Account(log1, k) == if k == n then 1 else
                if Waits(log, k) && k + TWO_32 == n then 0 else Account(log, k)
    {
      assert Account(log, k) <= 1;
      assert k >= n ==> Account(log, k) == 0;
      SubmitWaits(log, k);
    }
    forall id | id in log1.corr.pending
      ensures log1.corr.pending[id] < n + 1 <= log1.corr.pending[id] + TWO_32 && log1.corr.pending[id] % TWO_32 == id
    {
      SubmitIds(log, id);
    }
    hide Account, Waits;
    assert Sane(log1);
  }

  lemma TakeBalances<T>(log: Log, id: nat)
    requires Sane(log)
    ensures Balanced<T>(log, TakeOp(id))
  {
    var log1 := Record<T>(log, TakeOp(id));
    forall k: nat
      ensures Account(log1, k) == Account(log, k)
    {
    }
  }

  lemma DrainBalances<T>(log: Log)
    requires Sane(log)
    ensures Balanced<T>(log, DrainOp)
  {
    var log1 := Record<T>(log, DrainOp);
    forall k: nat
      ensures Account(log1, k) == Account(log, k)
    {
      if k in log.corr.pending.Values {
        var id :| id in log.corr.pending && log.corr.pending[id] == k;
        assert Waits(log, k);
      }
    }
  }

  ghost predicate Separated<T>(ops: seq<Op<T>>) {
    forall i :: 0 <= i < |ops| ==> !Collides(Numbered(ops[..i]), ops[i])
  }

  ghost predicate EachOnce(log: Log) {
    forall k: nat :: k < log.submitted ==> Account(log, k) == 1
  }

  lemma SeparatedStep<T>(ops: seq<Op<T>>, n: nat)
    requires |ops| == n + 1
    ensures Separated(ops) <==> Separated(ops[..n]) && !Collides(Numbered(ops[..n]), ops[n])
  {
    hide Collides, Numbered;
    assert forall i :: 0 <= i < n ==> ops[..n][..i] == ops[..i] && ops[..n][i] == ops[i];
  }

  lemma BalancedCounts<T>(log: Log, op: Op<T>)
    requires Sane(log) && Balanced(log, op)
    ensures EachOnce(Record(log, op)) <==> EachOnce(log) && !Collides(log, op)
  {
    hide Account, Sane;
    var log1 := Record(log, op);
    assert log.submitted <= log1.submitted <= log.submitted + 1;
    if Collides(log, op) {
      assert Account(log1, log.submitted - TWO_32) == 0;
    } else if EachOnce(log1) {
      forall k: nat | k < log.submitted
        ensures Account(log, k) == 1
      {
        assert Account(log1, k) == Account(log, k);
      }
    }
  }

  lemma {:induction false} RunIsSane<T>(ops: seq<Op<T>>)
    ensures Sane(Numbered(ops))
    ensures EachOnce(Numbered(ops)) <==> Separated(ops)
  {
    hide Collides, Record, EachOnce, Separated;
    if ops == [] {
      NothingSubmitted(ops);
    } else {
      var n := |ops| - 1;
      var log := Numbered(ops[..n]);
      RunIsSane(ops[..n]);
      match ops[n] {
        case SubmitOp(tag) => SubmitBalances(log, tag);
        case TakeOp(id) => TakeBalances<T>(log, id);
        case DrainOp => DrainBalances<T>(log);
      }
      BalancedCounts(log, ops[n]);
      SeparatedStep(ops, n);
    }
  }

  lemma NothingSubmitted<T>(ops: seq<Op<T>>)
    requires ops == []
    ensures Sane(Numbered(ops)) && EachOnce(Numbered(ops)) && Separated(ops)
  {
  }

  /**
   * Every submission is handed out exactly once, by `take` or `drain_pending`, or is still pending, exactly if
   * no submission is made while the one 2^32 before it is still unanswered. At no time is one handed out twice,
   * and an id only ever stands for a submission that was given it.
   */
  lemma ExactlyOnceIff<T>(ops: seq<Op<T>>)
    ensures var log := Numbered(ops);
            && (Separated(ops) <==> forall k: nat :: k < log.submitted ==> Account(log, k) == 1)
            && (forall k: nat :: log.out[k] <= 1)
            && (forall id :: id in log.corr.pending ==> log.corr.pending[id] % TWO_32 == id)
  {
    RunIsSane(ops);
    var log := Numbered(ops);
    forall k: nat
      ensures log.out[k] <= 1
    {
      assert Account(log, k) <= 1;
    }
  }

  /** A take hands out the tag of the submission that waits under the id, exactly if one does, and that one alone. */
  lemma TakeHandsOut<T>(ops: seq<Op<T>>, id: nat)
    ensures var c, c1 := Run(ops), Run(ops + [TakeOp(id)]);
            && (TakeOut(c, id).1.Some? <==> id in c.pending)
            && (id in c.pending ==>
                  id in Numbered(ops).corr.pending &&
                  var k := Numbered(ops).corr.pending[id];
                  k < |Tags(ops)| && TakeOut(c, id).1 == Some(Tags(ops)[k]))
            && c1.next == c.next && c1.pending == c.pending - {id}
  {
    assert (ops + [TakeOp(id)])[..|ops|] == ops;
    TagsFollowNumbers(ops);
    var c := Run(ops);
    if id !in c.pending {
      assert c.pending - {id} == c.pending;
    }
  }

  /** A drain leaves nothing pending and the ids as they were. */
  lemma DrainEmpties<T>(ops: seq<Op<T>>)
    ensures Run(ops + [DrainOp]) == Corr(Run(ops).next, map[])
  {
    assert (ops + [DrainOp])[..|ops|] == ops;
  }
}
