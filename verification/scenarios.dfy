/**
 The sequential scenarios of the package's tests, and the race and rendezvous
 patterns the package exists for, stated as histories.
 */
module Scenarios {
  import opened Waitmap
  import opened Histories

  /** Set(1, 2); Set(2, 3); then Get(1) is 2 and Get(2) is 3, without waiting. */
  lemma FlatGet()
    ensures Run(New(), [SetOp(1, 2), SetOp(2, 3), GetOp(1), GetOp(2)]).result ==
              [Wrote(true), Wrote(true), Got(Value(2)), Got(Value(3))]
  {
    var m0: WaitMap<int, int> := New();
    var a, b, c, d := SetOp(1, 2), SetOp(2, 3), GetOp(1), GetOp(2);
    RunSnoc(m0, [], a);
    assert [] + [a] == [a];
    RunSnoc(m0, [a], b);
    RunSnoc(m0, [a, b], c);
    RunSnoc(m0, [a, b, c], d);
    assert [a] + [b] == [a, b] && [a, b] + [c] == [a, b, c] && [a, b, c] + [d] == [a, b, c, d];
  }

  /** Check(1) is false on a new map, true after Set(1, 2), and Check(2) stays false. */
  lemma FlatCheck()
    ensures Run(New(), [CheckOp(1), SetOp(1, 2), CheckOp(1), CheckOp(2)]).result ==
              [Checked(false), Wrote(true), Checked(true), Checked(false)]
  {
    var m0: WaitMap<int, int> := New();
    var a, b, c, d := CheckOp(1), SetOp(1, 2), CheckOp(1), CheckOp(2);
    RunSnoc(m0, [], a);
    assert [] + [a] == [a];
    RunSnoc(m0, [a], b);
    RunSnoc(m0, [a, b], c);
    RunSnoc(m0, [a, b, c], d);
    assert [a] + [b] == [a, b] && [a, b] + [c] == [a, b, c] && [a, b, c] + [d] == [a, b, c, d];
  }

  /** Set(1, "HI") twice: the first call returns true, the second false. */
  lemma MultipleSet()
    ensures Run(New(), [SetOp(1, "HI"), SetOp(1, "HI")]).result == [Wrote(true), Wrote(false)]
  {
    var m0: WaitMap<int, string> := New();
    var a := SetOp(1, "HI");
    RunSnoc(m0, [], a);
    assert [] + [a] == [a];
    RunSnoc(m0, [a], a);
    assert [a] + [a] == [a, a];
  }

  /**
   Race on a key that is not set: of the Sets of `vs` on `k`, the first one (in the
   order the atomic steps happen) is the only one to return true, and its value is
   the one stored.
   */
  lemma RaceOnFreshKey<K(!new), V>(m: WaitMap<K, V>, k: K, vs: seq<V>)
    requires !IsSet(m, k) && |vs| > 0
    ensures var ops := seq(|vs|, i requires 0 <= i < |vs| => SetOp(k, vs[i]));
            && Run(m, ops).result[0] == Wrote(true)
            && (forall i :: 0 < i < |vs| ==> Run(m, ops).result[i] == Wrote(false))
            && Run(m, ops).next.ents[k] == SetTo(vs[0])
  {
    var ops := seq(|vs|, i requires 0 <= i < |vs| => SetOp(k, vs[i]));
    FirstSetWins(m, ops, k, 0);
    WinnerIsFinal(m, ops, k, 0);
    forall i | 0 < i < |vs|
      ensures Run(m, ops).result[i] == Wrote(false)
    {
      WinnerIsObserved(m, ops, k, 0, i);
    }
  }

  /**
   Rendezvous: any number of Gets on a key nobody has set all wait; once Set(k, x) has
   run, it has won, and every later Get (the waiting readers re-issuing theirs, and
   new readers) gets x.
   */
  lemma Rendezvous<K(!new), V>(k: K, x: V, blocked: nat, readers: nat)
    ensures var ops := seq(blocked, _ => GetOp(k)) + [SetOp(k, x)] + seq(readers, _ => GetOp(k));
            && (forall i :: 0 <= i < blocked ==> Run(New(), ops).result[i] == Got(WouldBlock))
            && Run(New(), ops).result[blocked] == Wrote(true)
            && (forall i :: blocked < i <= blocked + readers ==> Run(New(), ops).result[i] == Got(Value(x)))
  {
    var m: WaitMap<K, V> := New();
    var ops := seq(blocked, _ => GetOp(k)) + [SetOp(k, x)] + seq(readers, _ => GetOp(k));
    forall i | 0 <= i < blocked
      ensures Run(m, ops).result[i] == Got(WouldBlock)
    {
      NoSetKeepsUnset(m, ops, k, i);
      ReplyAt(m, ops, i);
    }
    FirstSetWins(m, ops, k, blocked);
    forall i | blocked < i <= blocked + readers
      ensures Run(m, ops).result[i] == Got(Value(x))
    {
      WinnerIsObserved(m, ops, k, blocked, i);
    }
  }
}
