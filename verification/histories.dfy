/**
 Histories: finite sequences of wait-map operations run one after the other from some
 state, and what such a history guarantees for each key — at most one Set wins, the
 first Set on a not-yet-set key is the one that wins, the winner's value is what every
 later reader sees, a blocked reader can only be released by a winning Set, Check
 leaves no trace, and the operations on one key are oblivious to every other key.
 */
module Histories {
  import opened Waitmap

  datatype Op<K, V> = GetOp(key: K) | SetOp(key: K, value: V) | CheckOp(key: K)

  datatype Reply<V> = Got(outcome: GetOutcome<V>) | Wrote(won: bool) | Checked(isSet: bool)

  /** One operation as one atomic step. */
  function Step<K(==,!new), V>(m: WaitMap<K, V>, op: Op<K, V>): (a: After<WaitMap<K, V>, Reply<V>>)
    ensures SameExcept(m, a.next, op.key) && Grows(m, a.next)
    ensures forall k :: !IsSet(m, k) && IsSet(a.next, k) ==>
              op == SetOp(k, a.next.ents[k].value) && a.result == Wrote(true)
    ensures op.CheckOp? ==> a.next == m
  {
    match op
    case GetOp(k) =>
      var g := Get(m, k);
      After(g.next, Got(g.result))
    case SetOp(k, v) =>
      var s := Set(m, k, v);
      After(s.next, Wrote(s.result))
    case CheckOp(k) =>
      After(m, Checked(Check(m, k)))
  }

  /** Runs `ops` in order from `m`; the i-th reply answers the i-th operation. */
  function Run<K(==,!new), V>(m: WaitMap<K, V>, ops: seq<Op<K, V>>): (a: After<WaitMap<K, V>, seq<Reply<V>>>)
    ensures |a.result| == |ops|
    ensures Grows(m, a.next)
    decreases |ops|
  {
    if ops == [] then After(m, [])
    else
      var before := Run(m, ops[..|ops| - 1]);
      var last := Step(before.next, ops[|ops| - 1]);
      After(last.next, before.result + [last.result])
  }

  /** The state in which the i-th operation of `ops` runs. */
  function StateAt<K(==,!new), V>(m: WaitMap<K, V>, ops: seq<Op<K, V>>, i: nat): WaitMap<K, V>
    requires i <= |ops|
  {
    Run(m, ops[..i]).next
  }

  /** The i-th operation of `ops`, a Set on `k`, is the one that won. */
  predicate Won<K(==,!new), V>(ops: seq<Op<K, V>>, replies: seq<Reply<V>>, i: int, k: K)
  {
    0 <= i < |ops| && i < |replies| && ops[i].SetOp? && ops[i].key == k && replies[i] == Wrote(true)
  }

  lemma StateAtNext<K(!new), V>(m: WaitMap<K, V>, ops: seq<Op<K, V>>, i: nat)
    requires i < |ops|
    ensures StateAt(m, ops, i + 1) == Step(StateAt(m, ops, i), ops[i]).next
  {
    assert ops[..i + 1][..i] == ops[..i];
  }

  /** Each reply is the answer of its operation in the state reached before it. */
  lemma {:induction false} ReplyAt<K(!new), V>(m: WaitMap<K, V>, ops: seq<Op<K, V>>, i: nat)
    requires i < |ops|
    ensures Run(m, ops).result[i] == Step(StateAt(m, ops, i), ops[i]).result
    decreases |ops|
  {
    var n := |ops|;
    if i < n - 1 {
      var pre := ops[..n - 1];
      ReplyAt(m, pre, i);
      assert pre[..i] == ops[..i];
    } else {
      assert ops[..n - 1] == ops[..i];
    }
  }

  /** Running one more operation is one more step. */
  lemma RunSnoc<K(!new), V>(m: WaitMap<K, V>, ops: seq<Op<K, V>>, op: Op<K, V>)
    ensures Run(m, ops + [op]).next == Step(Run(m, ops).next, op).next
    ensures Run(m, ops + [op]).result == Run(m, ops).result + [Step(Run(m, ops).next, op).result]
  {
    assert (ops + [op])[..|ops|] == ops;
  }

  /** The whole run ends in the state after its last operation. */
  lemma FinalState<K(!new), V>(m: WaitMap<K, V>, ops: seq<Op<K, V>>)
    ensures StateAt(m, ops, |ops|) == Run(m, ops).next
  {
    assert ops[..|ops|] == ops;
  }

  /** States only grow along a history. */
  lemma {:induction false} GrowsBetween<K(!new), V>(m: WaitMap<K, V>, ops: seq<Op<K, V>>, i: nat, j: nat)
    requires i <= j <= |ops|
    ensures Grows(StateAt(m, ops, i), StateAt(m, ops, j))
    decreases j - i
  {
    if i < j {
      GrowsBetween(m, ops, i, j - 1);
      StateAtNext(m, ops, j - 1);
    }
  }

  /** Running `a` and then `b` is running `a + b`. */
  lemma {:induction false} Compose<K(!new), V>(m: WaitMap<K, V>, a: seq<Op<K, V>>, b: seq<Op<K, V>>)
    ensures Run(m, a + b).next == Run(Run(m, a).next, b).next
    ensures Run(m, a + b).result == Run(m, a).result + Run(Run(m, a).next, b).result
    decreases |b|
  {
    if b == [] {
      assert a + b == a;
    } else {
      var n := |b|;
      assert (a + b)[..|a + b| - 1] == a + b[..n - 1];
      assert (a + b)[|a + b| - 1] == b[n - 1];
      Compose(m, a, b[..n - 1]);
    }
  }

  /** Once a Set on `k` has won, `k` holds its value in every later state. */
  lemma WinnerStays<K(!new), V>(m: WaitMap<K, V>, ops: seq<Op<K, V>>, k: K, i: nat, j: nat)
    requires Won(ops, Run(m, ops).result, i, k)
    requires i < j <= |ops|
    ensures k in StateAt(m, ops, j).ents
    ensures StateAt(m, ops, j).ents[k] == SetTo(ops[i].value)
  {
    ReplyAt(m, ops, i);
    StateAtNext(m, ops, i);
    GrowsBetween(m, ops, i + 1, j);
  }

  /** Exactly-once write, the "at most" half: two winning Sets on one key are the same call. */
  lemma AtMostOneWinner<K(!new), V>(m: WaitMap<K, V>, ops: seq<Op<K, V>>, k: K, i: nat, j: nat)
    requires Won(ops, Run(m, ops).result, i, k)
    requires Won(ops, Run(m, ops).result, j, k)
    ensures i == j
  {
    if i < j {
      WinnerStays(m, ops, k, i, j);
      ReplyAt(m, ops, j);
    } else if j < i {
      WinnerStays(m, ops, k, j, i);
      ReplyAt(m, ops, i);
    }
  }

  /** A key that was SET before the history starts: no Set on it wins. */
  lemma NoWinnerOnceSet<K(!new), V>(m: WaitMap<K, V>, ops: seq<Op<K, V>>, k: K, i: nat)
    requires IsSet(m, k)
    requires i < |ops|
    ensures !Won(ops, Run(m, ops).result, i, k)
  {
    GrowsBetween(m, ops, 0, i);
    assert ops[..0] == [];
    ReplyAt(m, ops, i);
  }

  /**
   After the winning Set on `k`, every Get on `k` yields its value, every Check on `k`
   answers true and every other Set on `k` fails; the final state holds the value too.
   */
  lemma WinnerIsObserved<K(!new), V>(m: WaitMap<K, V>, ops: seq<Op<K, V>>, k: K, i: nat, j: nat)
    requires Won(ops, Run(m, ops).result, i, k)
    requires i < j < |ops| && ops[j].key == k
    ensures ops[j].GetOp? ==> Run(m, ops).result[j] == Got(Value(ops[i].value))
    ensures ops[j].CheckOp? ==> Run(m, ops).result[j] == Checked(true)
    ensures ops[j].SetOp? ==> Run(m, ops).result[j] == Wrote(false)
  {
    WinnerStays(m, ops, k, i, j);
    ReplyAt(m, ops, j);
  }

  lemma WinnerIsFinal<K(!new), V>(m: WaitMap<K, V>, ops: seq<Op<K, V>>, k: K, i: nat)
    requires Won(ops, Run(m, ops).result, i, k)
    ensures k in Run(m, ops).next.ents && Run(m, ops).next.ents[k] == SetTo(ops[i].value)
  {
    WinnerStays(m, ops, k, i, |ops|);
    FinalState(m, ops);
  }

  /** Without a Set on `k`, whether `k` is SET does not change. */
  lemma {:induction false} NoSetKeepsUnset<K(!new), V>(m: WaitMap<K, V>, ops: seq<Op<K, V>>, k: K, j: nat)
    requires j <= |ops|
    requires !IsSet(m, k)
    requires forall l :: 0 <= l < j ==> !(ops[l].SetOp? && ops[l].key == k)
    ensures !IsSet(StateAt(m, ops, j), k)
    decreases j
  {
    if j == 0 {
      assert ops[..0] == [];
    } else {
      NoSetKeepsUnset(m, ops, k, j - 1);
      StateAtNext(m, ops, j - 1);
    }
  }

  /** The first Set on a key that is not SET at the start always wins. */
  lemma FirstSetWins<K(!new), V>(m: WaitMap<K, V>, ops: seq<Op<K, V>>, k: K, i: nat)
    requires !IsSet(m, k)
    requires i < |ops| && ops[i].SetOp? && ops[i].key == k
    requires forall l :: 0 <= l < i ==> !(ops[l].SetOp? && ops[l].key == k)
    ensures Won(ops, Run(m, ops).result, i, k)
  {
    NoSetKeepsUnset(m, ops, k, i);
    ReplyAt(m, ops, i);
  }

  /**
   Exactly-once write: from a state where `k` is not SET, a history that contains a Set
   on `k` has exactly one winning Set on `k`.
   */
  lemma {:induction false} ExactlyOneWinner<K(!new), V>(m: WaitMap<K, V>, ops: seq<Op<K, V>>, k: K)
    requires !IsSet(m, k)
    requires exists l :: 0 <= l < |ops| && ops[l].SetOp? && ops[l].key == k
    ensures exists i :: Won(ops, Run(m, ops).result, i, k)
    ensures forall i, j :: Won(ops, Run(m, ops).result, i, k) && Won(ops, Run(m, ops).result, j, k) ==> i == j
    decreases |ops|
  {
    var n := |ops|;
    var pre := ops[..n - 1];
    if exists l :: 0 <= l < n - 1 && pre[l].SetOp? && pre[l].key == k {
      ExactlyOneWinner(m, pre, k);
      var i :| Won(pre, Run(m, pre).result, i, k);
      assert Run(m, ops).result[i] == Run(m, pre).result[i];
      assert Won(ops, Run(m, ops).result, i, k);
    } else {
      FirstSetWins(m, ops, k, n - 1);
    }
    forall i, j | Won(ops, Run(m, ops).result, i, k) && Won(ops, Run(m, ops).result, j, k)
      ensures i == j
    {
      AtMostOneWinner(m, ops, k, i, j);
    }
  }

  /** A key whose entry went from not SET to SET was set by a winning Set with that value. */
  lemma {:induction false} BecameSet<K(!new), V>(m: WaitMap<K, V>, ops: seq<Op<K, V>>, k: K, a: nat, b: nat, v: V)
    requires a <= b <= |ops|
    requires !IsSet(StateAt(m, ops, a), k)
    requires Lookup(StateAt(m, ops, b), k) == Some(SetTo(v))
    ensures exists l :: a <= l < b && ops[l] == SetOp(k, v) && Run(m, ops).result[l] == Wrote(true)
    decreases b - a
  {
    StateAtNext(m, ops, b - 1);
    var before := StateAt(m, ops, b - 1);
    ReplyAt(m, ops, b - 1);
    if IsSet(before, k) {
      BecameSet(m, ops, k, a, b - 1, v);
    } else {
      assert ops[b - 1] == SetOp(k, v);
    }
  }

  /**
   A Get that would block on `k` and a later Get on `k` that returns `v`: in between
   some Set of `v` on `k` won.
   */
  lemma BlockedUntilWon<K(!new), V>(m: WaitMap<K, V>, ops: seq<Op<K, V>>, k: K, i: nat, j: nat, v: V)
    requires i < j < |ops|
    requires ops[i] == GetOp(k) && Run(m, ops).result[i] == Got(WouldBlock)
    requires ops[j] == GetOp(k) && Run(m, ops).result[j] == Got(Value(v))
    ensures exists l :: i < l < j && ops[l] == SetOp(k, v) && Run(m, ops).result[l] == Wrote(true)
  {
    ReplyAt(m, ops, i);
    ReplyAt(m, ops, j);
    StateAtNext(m, ops, i);
    BecameSet(m, ops, k, i + 1, j, v);
  }

  /** The operations of `ops` on key `k`, in order. */
  function OnKey<K(==,!new), V>(ops: seq<Op<K, V>>, k: K): (r: seq<Op<K, V>>)
    ensures |r| <= |ops|
    ensures forall i :: 0 <= i < |r| ==> r[i].key == k
    decreases |ops|
  {
    if ops == [] then []
    else OnKey(ops[..|ops| - 1], k) + (if ops[|ops| - 1].key == k then [ops[|ops| - 1]] else [])
  }

  /** The replies that answer operations on key `k`. */
  function RepliesOnKey<K(==,!new), V>(ops: seq<Op<K, V>>, replies: seq<Reply<V>>, k: K): (r: seq<Reply<V>>)
    requires |replies| == |ops|
    ensures |r| == |OnKey(ops, k)|
    decreases |ops|
  {
    if ops == [] then []
    else
      var n := |ops|;
      RepliesOnKey(ops[..n - 1], replies[..n - 1], k) + (if ops[n - 1].key == k then [replies[n - 1]] else [])
  }

  /** A step on `k` sees only the entry of `k`. */
  lemma StepIsLocal<K(!new), V>(m1: WaitMap<K, V>, m2: WaitMap<K, V>, op: Op<K, V>)
    requires Lookup(m1, op.key) == Lookup(m2, op.key)
    ensures Step(m1, op).result == Step(m2, op).result
    ensures Lookup(Step(m1, op).next, op.key) == Lookup(Step(m2, op).next, op.key)
  {
  }

  /**
   Keys are independent: whatever the other keys do, the operations on `k` get the
   same replies, and leave `k` in the same state, as if they ran alone from any state
   that agrees on `k`.
   */
  lemma {:induction false} KeysAreIndependent<K(!new), V>(m1: WaitMap<K, V>, m2: WaitMap<K, V>, ops: seq<Op<K, V>>, k: K)
    requires Lookup(m1, k) == Lookup(m2, k)
    ensures Lookup(Run(m1, ops).next, k) == Lookup(Run(m2, OnKey(ops, k)).next, k)
    ensures RepliesOnKey(ops, Run(m1, ops).result, k) == Run(m2, OnKey(ops, k)).result
    decreases |ops|
  {
    if ops != [] {
      var n := |ops|;
      var pre := ops[..n - 1];
      var op := ops[n - 1];
      KeysAreIndependent(m1, m2, pre, k);
      var r1 := Run(m1, pre);
      var r2 := Run(m2, OnKey(pre, k));
      assert Run(m1, ops).result[..n - 1] == r1.result;
      if op.key == k {
        var q := OnKey(pre, k) + [op];
        assert q[..|q| - 1] == OnKey(pre, k);
        StepIsLocal(r1.next, r2.next, op);
      } else {
        assert OnKey(ops, k) == OnKey(pre, k);
      }
    }
  }

  /**
   Check has no side effects: inserting a Check anywhere in a history changes no other
   reply and not the final state.
   */
  lemma CheckIsUnobservable<K(!new), V>(m: WaitMap<K, V>, a: seq<Op<K, V>>, k: K, b: seq<Op<K, V>>)
    ensures Run(m, a + [CheckOp(k)] + b).next == Run(m, a + b).next
    ensures Run(m, a + [CheckOp(k)] + b).result ==
              Run(m, a + b).result[..|a|] + [Checked(IsSet(Run(m, a).next, k))] + Run(m, a + b).result[|a|..]
  {
    var mid := Run(m, a).next;
    var c: seq<Op<K, V>> := [CheckOp(k)];
    Compose(m, a, b);
    Compose(m, a + [CheckOp(k)], b);
    Compose(m, a, [CheckOp(k)]);
    assert Run(mid, [CheckOp(k)]).result == [Checked(IsSet(mid, k))] by {
      assert c[..0] == [];
    }
    assert a + [CheckOp(k)] + b == (a + [CheckOp(k)]) + b;
  }
}
