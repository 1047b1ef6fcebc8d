/**
 Whom a loop over a member list reaches when throwing a member out takes it from the list under the loop: everyone
 behind moves up one place, the loop goes on at the next index, and the last place keeps what it held. `full` says of
 each member, in the order at the start, whether its queue takes nothing more.
 */
module RelayOrder {

  /** The loop reads this member in its own turn: it has not just thrown out the one before. */
  predicate Reached(full: seq<bool>, o: nat)
    requires o <= |full|
    decreases o, 0
  {
    o == 0 || !ThrownOut(full, o - 1)
  }

  predicate ThrownOut(full: seq<bool>, o: nat)
    requires o < |full|
    decreases o, 1
  {
    full[o] && Reached(full, o)
  }

  /** How many of the first k are thrown out. */
  function Drops(full: seq<bool>, k: nat): nat
    requires k <= |full|
  {
    if k == 0 then 0 else Drops(full, k - 1) + if ThrownOut(full, k - 1) then 1 else 0
  }

  /**
   How often the loop sends to this member: the last one's place is read once more for every earlier one thrown out.
   */
  function Attempts(full: seq<bool>, o: nat): nat
    requires o < |full|
  {
    (if Reached(full, o) then 1 else 0) + if o == |full| - 1 then Drops(full, o) else 0
  }

  /** Along a run of full queues every other member is thrown out, the first of them to begin with. */
  lemma {:induction false} EveryOther(full: seq<bool>, a: nat, o: nat)
    requires a <= o < |full| && (forall i | a <= i <= o :: full[i]) && (a == 0 || !full[a - 1])
    ensures ThrownOut(full, o) <==> (o - a) % 2 == 0
  {
    assert a > 0 ==> !ThrownOut(full, a - 1);
    if a < o {
      EveryOther(full, a, o - 1);
    }
  }

  lemma {:induction false} NoDrops(full: seq<bool>, k: nat)
    requires k <= |full| && forall i | 0 <= i < k :: !full[i]
    ensures Drops(full, k) == 0 && Reached(full, k)
  {
    if k > 0 {
      NoDrops(full, k - 1);
    }
  }

  lemma {:induction false} DropsMore(full: seq<bool>, j: nat, k: nat)
    requires j <= k <= |full|
    ensures Drops(full, j) <= Drops(full, k)
  {
    if j < k {
      DropsMore(full, j, k - 1);
    }
  }

  /** Everyone is sent to exactly once if and only if no queue is full but those of the last two. */
  lemma OnceEach(full: seq<bool>)
    ensures (forall o | 0 <= o < |full| :: Attempts(full, o) == 1) <==> (forall o | 0 <= o < |full| - 2 :: !full[o])
  {
    var n := |full|;
    if forall o | 0 <= o < n - 2 :: !full[o] {
      forall o | 0 <= o < n
        ensures Attempts(full, o) == 1
      {
        NoDrops(full, if o < n - 1 then o else if n >= 2 then n - 2 else 0);
      }
    } else {
      var o :| 0 <= o < n - 2 && full[o];
      var p := Passed(full, o);
    }
  }

  /** A full queue with at least two members behind it makes the loop pass someone over. */
  lemma {:induction false} Passed(full: seq<bool>, o: nat) returns (p: nat)
    requires o < |full| - 2 && full[o]
    ensures p <= o && ThrownOut(full, p) && Attempts(full, p + 1) == 0
  {
    p := if Reached(full, o) then o else o - 1;
    assert ThrownOut(full, p) && !Reached(full, p + 1);
  }

  /** The last member is sent to once exactly if no queue before the last two is full, and more often otherwise. */
  lemma LastOnce(full: seq<bool>)
    requires full != []
    ensures Attempts(full, |full| - 1) >= 1
    ensures Attempts(full, |full| - 1) == 1 <==> forall o | 0 <= o < |full| - 2 :: !full[o]
  {
    var n := |full|;
    if forall o | 0 <= o < n - 2 :: !full[o] {
      OnceEach(full);
      assert Attempts(full, n - 1) == 1;
    } else {
      var o :| 0 <= o < n - 2 && full[o];
      var p := Passed(full, o);
      assert Drops(full, p + 1) >= 1;
      DropsMore(full, p + 1, n - 2);
      assert Drops(full, n - 1) == Drops(full, n - 2) + if ThrownOut(full, n - 2) then 1 else 0;
      assert Reached(full, n - 1) <==> !ThrownOut(full, n - 2);
    }
  }

  /** Sends, member by member. */
  lemma SendsTo(full: seq<bool>, o: nat)
    requires o < |full|
    ensures o < |full| - 1 ==> Attempts(full, o) == if o > 0 && ThrownOut(full, o - 1) then 0 else 1
    ensures o == |full| - 1 ==> Attempts(full, o) >= 1
                                && (Attempts(full, o) == 1 <==> forall p | 0 <= p < |full| - 2 :: !full[p])
    ensures (forall p | 0 <= p < |full| :: !full[p]) ==> Attempts(full, o) == 1
  {
    LastOnce(full);
    OnceEach(full);
  }

  // ---- the loop's bookkeeping ----

  /** At index i, with d thrown out so far, of the members in the order at the start. */
  ghost predicate Underway(full: seq<bool>, i: nat, d: nat, tries: seq<nat>) {
    var n := |full|;
    && |tries| == n && i <= n
    && if i + d < n then
         && Reached(full, i + d) && d == Drops(full, i + d)
         && (forall j | 0 <= j < n :: tries[j] == if j < i + d && Reached(full, j) then 1 else 0)
       else n > 0 ==>
         && d == Drops(full, n - 1)
         && (forall j | 0 <= j < n - 1 :: tries[j] == if Reached(full, j) then 1 else 0)
         && tries[n - 1] == (if Reached(full, n - 1) then 1 else 0) + (i + d - n)
  }

  /** The member read next. */
  function Next(n: nat, q: nat, d: nat): (o: nat)
    ensures q < n ==> o < n
  {
    if q + d < n then q + d else if n > 0 then n - 1 else 0
  }

  lemma Begun(full: seq<bool>)
    ensures Underway(full, 0, 0, seq(|full|, _ => 0))
  {
  }

  /** One more index: a member before the last is thrown out exactly if its queue is full. */
  lemma Onward(full: seq<bool>, i: nat, d: nat, tries: seq<nat>)
    requires Underway(full, i, d, tries) && i < |full|
    ensures var o := Next(|full|, i, d);
            && (o < |full| - 1 ==> tries[o] == 0)
            && Underway(full, i + 1, if o < |full| - 1 && full[o] then d + 1 else d, tries[o := tries[o] + 1])
  {
    var n := |full|;
    var o := Next(n, i, d);
    if o < n - 1 {
      assert Drops(full, o + 1) == d + (if full[o] then 1 else 0);
      assert Reached(full, o + 1) <==> !full[o];
      if full[o] {
        assert !ThrownOut(full, o + 1);
        assert o + 2 < n ==> Drops(full, o + 2) == d + 1 && Reached(full, o + 2);
      }
    }
  }

  lemma Finished(full: seq<bool>, d: nat, tries: seq<nat>)
    requires Underway(full, |full|, d, tries)
    ensures forall o | 0 <= o < |full| :: tries[o] == Attempts(full, o)
  {
  }
}
