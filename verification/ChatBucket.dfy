/** The lobby's chat rate limit: a token bucket that refills in whole steps. Times are in nanoseconds. */
module ChatBucket {
  import opened Options

  const CAP := 4
  const REFILL := 500_000_000

  datatype Bucket = Bucket(tokens: int, lastRefill: Option<int>)

  const NEW := Bucket(0, None)

  /** The bucket after refilling at `now`; the first use fills it, and a clock set back refills nothing. */
  function Refilled(b: Bucket, now: int): Bucket
  {
    var tokens := if b.tokens < 0 then 0 else b.tokens;
    match b.lastRefill
    case None => Bucket(CAP, Some(now))
    case Some(last) =>
      var n := (now - last) / REFILL;
      if n > 0 then
        Bucket(if tokens + n > CAP then CAP else tokens + n, Some(last + n * REFILL)) else b.(tokens := tokens)
  }

  function Permits(b: Bucket, now: int): bool
  {
    Refilled(b, now).tokens > 0
  }

  function Step(b: Bucket, now: int): Bucket
  {
    var r := Refilled(b, now);
    if r.tokens > 0 then r.(tokens := r.tokens - 1) else r
  }

  class ChatBucket {
    var tokens: int
    var lastRefill: Option<int>

    function View(): Bucket
      reads this
    {
      Bucket(tokens, lastRefill)
    }

    constructor ()
      ensures View() == NEW
    {
      tokens, lastRefill := 0, None;
    }

    method Allow(now: int) returns (ok: bool)
      modifies this
      ensures ok == Permits(old(View()), now) && View() == Step(old(View()), now)
    {
      if tokens < 0 {
        tokens := 0;
      }
      match lastRefill {
        case Some(last) =>
          var refill := (now - last) / REFILL;
          if refill > 0 {
            tokens := tokens + refill;
            if tokens > CAP {
              tokens := CAP;
            }
            lastRefill := Some(last + refill * REFILL);
          }
        case None =>
          tokens, lastRefill := CAP, Some(now);
      }
      if tokens <= 0 {
        return false;
      }
      tokens := tokens - 1;
      ok := true;
    }
  }

  // ---- any run of calls ----

  predicate NonDecreasing(ts: seq<int>) {
    forall i, j | 0 <= i < j < |ts| :: ts[i] <= ts[j]
  }

  /** The bucket has been refilled up to some moment not after the next call. */
  predicate Ready(b: Bucket, ts: seq<int>) {
    NonDecreasing(ts) && (ts != [] && b.lastRefill.Some? ==> b.lastRefill.value <= ts[0]) && b.tokens <= CAP
  }

  lemma StillReady(b: Bucket, ts: seq<int>)
    requires Ready(b, ts) && ts != []
    ensures Ready(Step(b, ts[0]), ts[1..]) && Step(b, ts[0]).lastRefill.Some?
    ensures ts[0] - REFILL < Step(b, ts[0]).lastRefill.value <= ts[0]
  {
    StepLast(b, ts[0]);
  }

  lemma StepLast(b: Bucket, now: int)
    requires b.lastRefill.Some? ==> b.lastRefill.value <= now
    ensures Step(b, now).lastRefill.Some? && now - REFILL < Step(b, now).lastRefill.value <= now
  {
    if b.lastRefill.Some? {
      var n := (now - b.lastRefill.value) / REFILL;
      assert n * REFILL <= now - b.lastRefill.value < n * REFILL + REFILL;
    }
  }

  /** How many of these calls are let through. */
  function Allowed(b: Bucket, ts: seq<int>): nat
    requires Ready(b, ts)
    decreases |ts|
  {
    if ts == [] then 0
    else
      StillReady(b, ts);
      (if Permits(b, ts[0]) then 1 else 0) + Allowed(Step(b, ts[0]), ts[1..])
  }

  /** The bucket once these calls are made. */
  function After(b: Bucket, ts: seq<int>): Bucket
    requires Ready(b, ts)
    decreases |ts|
  {
    if ts == [] then b
    else
      StillReady(b, ts);
      After(Step(b, ts[0]), ts[1..])
  }

  /**
   A call costs what it takes: tokens in hand plus refills still to come by `end` never fall by less than what was let
   through.
   */
  lemma StepCost(b: Bucket, now: int, end: int)
    requires b.lastRefill.Some? && b.lastRefill.value <= now <= end
    requires 0 <= b.tokens <= CAP
    ensures var s := Step(b, now);
            && 0 <= s.tokens <= CAP && s.lastRefill.Some? && s.lastRefill.value <= now
            && (if Permits(b, now) then 1 else 0) + s.tokens + (end - s.lastRefill.value) / REFILL
               <= b.tokens + (end - b.lastRefill.value) / REFILL
  {
    StepLast(b, now);
    var last := b.lastRefill.value;
    var n := (now - last) / REFILL;
    if n > 0 { ShiftedQuotient(end - last, n); }
  }

  lemma ShiftedQuotient(x: int, n: int)
    ensures (x - n * REFILL) / REFILL == x / REFILL - n
  {
  }

  lemma {:induction false} AllowedBound(b: Bucket, ts: seq<int>, end: int)
    requires Ready(b, ts) && 0 <= b.tokens && b.lastRefill.Some? && b.lastRefill.value <= end
    requires forall i | 0 <= i < |ts| :: ts[i] <= end
    ensures Allowed(b, ts) <= b.tokens + (end - b.lastRefill.value) / REFILL
    decreases |ts|
  {
    if ts != [] {
      StepCost(b, ts[0], end);
      StillReady(b, ts);
      AllowedBound(Step(b, ts[0]), ts[1..], end);
    }
  }

  function CeilDiv(a: nat, b: nat): nat
    requires b > 0
  {
    (a + b - 1) / b
  }

  /**
   From any bucket, the calls of a window of length w let through at most four and one for every refill step begun in
   it.
   */
  lemma WindowBound(b: Bucket, ts: seq<int>, w: nat)
    requires Ready(b, ts) && ts != [] && ts[|ts| - 1] - ts[0] <= w
    ensures Allowed(b, ts) <= CAP + CeilDiv(w, REFILL)
  {
    var s := Step(b, ts[0]);
    StillReady(b, ts);
    var end := ts[0] + w;
    var rest := ts[1..];
    assert forall i | 0 <= i < |rest| :: rest[i] == ts[i + 1] <= ts[|ts| - 1];
    RefilledRange(b, ts[0]);
    AllowedBound(s, rest, end);
    QuotientMonotone(end - s.lastRefill.value, w + REFILL - 1);
  }

  lemma RefilledRange(b: Bucket, now: int)
    requires (b.lastRefill.Some? ==> b.lastRefill.value <= now) && b.tokens <= CAP
    ensures 0 <= Refilled(b, now).tokens <= CAP
  {
  }

  lemma QuotientMonotone(a: int, b: int)
    requires a <= b
    ensures a / REFILL <= b / REFILL
  {
  }

  /** What a whole run lets through between its i-th and j-th call is what the bucket found at i lets through. */
  lemma {:induction false} AfterReady(b: Bucket, ts: seq<int>, i: nat)
    requires Ready(b, ts) && i <= |ts|
    ensures Ready(b, ts[..i]) && Ready(After(b, ts[..i]), ts[i..])
    ensures Allowed(b, ts) == Allowed(b, ts[..i]) + Allowed(After(b, ts[..i]), ts[i..])
    decreases i
  {
    if i == 0 {
      assert ts[..0] == [] && ts[0..] == ts;
    } else {
      StillReady(b, ts);
      AfterReady(Step(b, ts[0]), ts[1..], i - 1);
      assert ts[..i][0] == ts[0] && ts[..i][1..] == ts[1..][..i - 1] && ts[1..][i - 1..] == ts[i..];
    }
  }

  /** Over any sequence of calls from a new bucket, any window holds at most 4 + ceil(w / 500 ms) messages. */
  lemma RateLimited(ts: seq<int>, i: nat, j: nat, w: nat)
    requires NonDecreasing(ts) && i < j <= |ts| && ts[j - 1] - ts[i] <= w
    ensures Ready(NEW, ts[..i]) && Ready(After(NEW, ts[..i]), ts[i..j])
    ensures Allowed(After(NEW, ts[..i]), ts[i..j]) <= 4 + CeilDiv(w, 500_000_000)
  {
    var run := ts[..j];
    AfterReady(NEW, run, i);
    assert run[..i] == ts[..i] && run[i..] == ts[i..j];
    WindowBound(After(NEW, ts[..i]), ts[i..j], w);
  }

  // ---- what is let through ----

  function Fewer(a: nat, b: nat): nat { if a < b then a else b }

  /** As many calls as there are tokens are let through. */
  lemma {:induction false} TokensSpent(b: Bucket, ts: seq<int>)
    requires Ready(b, ts)
    ensures b.tokens >= 0 ==> Allowed(b, ts) >= Fewer(b.tokens, |ts|)
    decreases |ts|
  {
    if ts != [] && b.tokens > 0 {
      StillReady(b, ts);
      TokensSpent(Step(b, ts[0]), ts[1..]);
    }
  }

  /** A quiet of k refill steps earns k calls, up to four, whatever the bucket held. */
  lemma QuietEarns(b: Bucket, ts: seq<int>, k: nat)
    requires Ready(b, ts) && ts != [] && b.lastRefill.Some? && ts[0] - b.lastRefill.value >= k * REFILL
    ensures Allowed(b, ts) >= Fewer(Fewer(k, 4), |ts|)
  {
    if k > 0 {
      var n := (ts[0] - b.lastRefill.value) / REFILL;
      EnoughSteps(ts[0] - b.lastRefill.value, k);
      StillReady(b, ts);
      TokensSpent(Step(b, ts[0]), ts[1..]);
    }
  }

  lemma EnoughSteps(x: int, k: nat)
    requires x >= k * REFILL
    ensures x / REFILL >= k
  {
  }

  lemma {:induction false} AfterLast(b: Bucket, ts: seq<int>)
    requires Ready(b, ts) && ts != []
    ensures Ready(b, ts) && After(b, ts).lastRefill.Some?
            && ts[|ts| - 1] - REFILL < After(b, ts).lastRefill.value <= ts[|ts| - 1]
    decreases |ts|
  {
    StillReady(b, ts);
    if |ts| > 1 {
      assert ts[1..][|ts[1..]| - 1] == ts[|ts| - 1];
      AfterLast(Step(b, ts[0]), ts[1..]);
    }
  }

  /** A new session's first four lines always go through. */
  lemma FirstFour(ts: seq<int>)
    requires NonDecreasing(ts)
    ensures Allowed(NEW, ts) >= Fewer(4, |ts|)
  {
    if ts != [] {
      StillReady(NEW, ts);
      TokensSpent(Step(NEW, ts[0]), ts[1..]);
    }
  }

  /**
   Over any sequence of calls from a new bucket: after a pause of k refill steps between two calls, however busy it
   was before, the next ones go through, k of them or four.
   */
  lemma PauseEarns(ts: seq<int>, i: nat, j: nat, k: nat)
    requires NonDecreasing(ts) && 0 < i < j <= |ts| && ts[i] - ts[i - 1] >= k * 500_000_000
    ensures Ready(NEW, ts[..i]) && Ready(After(NEW, ts[..i]), ts[i..j])
    ensures Allowed(After(NEW, ts[..i]), ts[i..j]) >= Fewer(Fewer(k, 4), j - i)
  {
    var run := ts[..j];
    AfterReady(NEW, run, i);
    assert run[..i] == ts[..i] && run[i..] == ts[i..j];
    AfterLast(NEW, ts[..i]);
    QuietEarns(After(NEW, ts[..i]), ts[i..j], k);
  }

  /** Calls half a second apart. */
  predicate Unhurried(ts: seq<int>) { forall i | 0 < i < |ts| :: ts[i] - ts[i - 1] >= 500_000_000 }

  lemma {:induction false} UnhurriedFrom(b: Bucket, ts: seq<int>)
    requires Ready(b, ts) && Unhurried(ts) && (ts != [] ==> Permits(b, ts[0]))
    ensures Allowed(b, ts) == |ts|
    decreases |ts|
  {
    if ts != [] {
      StillReady(b, ts);
      var s, rest := Step(b, ts[0]), ts[1..];
      if rest != [] {
        EnoughSteps(rest[0] - s.lastRefill.value, 1);
      }
      UnhurriedFrom(s, rest);
    }
  }

  /** Nobody who takes half a second a line is ever held back. */
  lemma NeverHeldBack(ts: seq<int>)
    requires NonDecreasing(ts) && Unhurried(ts)
    ensures Allowed(NEW, ts) == |ts|
  {
    UnhurriedFrom(NEW, ts);
  }
}
