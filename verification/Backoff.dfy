/** First-boot issuance of the relay's certificate: how closely its attempts can follow each other. */
module Backoff {
  import opened Sizes

  const INITIAL := 60
  const MAXIMUM := 900
  const THRESHOLD: real := 30.0

  /** An attempt takes some time and either succeeds or raises. */
  datatype Attempt = Attempt(duration: real, ok: bool)

  datatype End = Usable | Renewed | KeptOld | StillTrying

  /** The delay after the n-th failed attempt, counted from 0. */
  function Delay(n: nat): nat {
    if n == 0 then INITIAL else var d := 2 * Delay(n - 1); if d < MAXIMUM then d else MAXIMUM
  }

  function Power2(n: nat): nat {
    if n == 0 then 1 else 2 * Power2(n - 1)
  }

  /** min(60 * 2^n, 900). */
  lemma {:induction false} DelayFormula(n: nat)
    ensures Delay(n) == if 60 * Power2(n) < 900 then 60 * Power2(n) else 900
  {
    if n > 0 {
      DelayFormula(n - 1);
    }
  }

  /** The attempts of a run in which every attempt before the last fails, and when each began. */
  ghost predicate Schedule(attempts: seq<Attempt>, starts: seq<real>) {
    && |starts| <= |attempts|
    && (forall i | 0 <= i < |starts| :: attempts[i].duration >= 0.0)
    && (forall i | 0 <= i < |starts| - 1 ::
          !attempts[i].ok && starts[i + 1] == starts[i] + attempts[i].duration + Delay(i) as real)
  }

  /**
   _ensure_relay_cert, on the outcomes its attempts would have; `StillTrying` when they are used up. `days` is the
   time left on a usable certificate, if there is one.
   */
  method EnsureRelayCert(usable: bool, days: real, attempts: seq<Attempt>, began: real)
    returns (end: End, starts: seq<real>)
    requires forall i | 0 <= i < |attempts| :: attempts[i].duration >= 0.0
    ensures end == Usable <==> usable && days >= 30.0
    ensures end == Usable ==> starts == []
    ensures end != Usable && attempts != [] ==> starts != [] && starts[0] == began
    ensures Schedule(attempts, starts)
    ensures usable && days > 0.0 && end != Usable && attempts != []
            ==> |starts| == 1 && end == (if attempts[0].ok then Renewed else KeptOld)
    ensures !usable || days <= 0.0 ==> end == Renewed || end == StillTrying
    ensures end == Renewed ==> starts != [] && attempts[|starts| - 1].ok
    ensures end == StillTrying ==> |starts| == |attempts| && forall i | 0 <= i < |attempts| :: !attempts[i].ok
  {
    starts := [];
    if usable && days >= THRESHOLD {
      return Usable, starts;
    }
    var delay, clock, n := INITIAL, began, 0;
    while n < |attempts|
      invariant 0 <= n <= |attempts| && |starts| == n && delay == Delay(n)
      invariant n > 0 ==> starts[0] == began && !(usable && days > 0.0)
      invariant n == 0 ==> clock == began
      invariant n > 0 ==> clock == starts[n - 1] + attempts[n - 1].duration + Delay(n - 1) as real
      invariant forall i | 0 <= i < n :: !attempts[i].ok
      invariant Schedule(attempts, starts)
    {
      Begins(attempts, starts, clock);
      starts := starts + [clock];
      if attempts[n].ok {
        return Renewed, starts;
      }
      if usable && days > 0.0 {
        return KeptOld, starts;
      }
      clock := clock + attempts[n].duration + delay as real;
      delay := if delay * 2 < MAXIMUM then delay * 2 else MAXIMUM;
      n := n + 1;
    }
    return StillTrying, starts;
  }

  lemma Begins(attempts: seq<Attempt>, starts: seq<real>, clock: real)
    requires Schedule(attempts, starts) && |starts| < |attempts| && attempts[|starts|].duration >= 0.0
    requires var n := |starts|;
             n > 0 ==> !attempts[n - 1].ok && clock == starts[n - 1] + attempts[n - 1].duration + Delay(n - 1) as real
    ensures Schedule(attempts, starts + [clock])
  {
  }

  /** After a failed attempt the next begins min(60 * 2^i, 900) seconds later. */
  lemma Spacing(attempts: seq<Attempt>, starts: seq<real>, i: nat)
    requires Schedule(attempts, starts) && i + 1 < |starts|
    ensures !attempts[i].ok
    ensures starts[i + 1] - (starts[i] + attempts[i].duration)
         == (if 60 * Power2(i) < 900 then 60 * Power2(i) else 900) as real
  {
    DelayFormula(i);
  }

  // ----- how many attempts fit in an hour

  function InHour(starts: seq<real>, from: real): set<nat> {
    set i: nat | i < |starts| && from <= starts[i] < from + 3600.0
  }

  lemma {:induction false} DelayPositive(n: nat)
    ensures Delay(n) > 0
  {
    if n > 0 {
      DelayPositive(n - 1);
    }
  }

  lemma {:induction false} StartsIncrease(attempts: seq<Attempt>, starts: seq<real>, i: nat, j: nat)
    requires Schedule(attempts, starts) && i <= j < |starts|
    ensures starts[i] <= starts[j] && (i < j ==> starts[i] < starts[j])
    decreases j - i
  {
    if i < j {
      DelayPositive(j - 1);
      StartsIncrease(attempts, starts, i, j - 1);
    }
  }

  /** The delays after attempts `i` to `j - 1`. */
  function Delays(i: nat, j: nat): nat
    requires i <= j
    decreases j
  {
    if i == j then 0 else Delays(i, j - 1) + Delay(j - 1)
  }

  /** What attempts `i` to `j - 1` took by themselves. */
  function Spent(attempts: seq<Attempt>, i: nat, j: nat): real
    requires i <= j <= |attempts|
    decreases j
  {
    if i == j then 0.0 else Spent(attempts, i, j - 1) + attempts[j - 1].duration
  }

  lemma {:induction false} Between(attempts: seq<Attempt>, starts: seq<real>, i: nat, j: nat)
    requires Schedule(attempts, starts) && i <= j < |starts|
    ensures starts[j] == starts[i] + Spent(attempts, i, j) + Delays(i, j) as real
    ensures Spent(attempts, i, j) >= 0.0
    decreases j
  {
    if i < j {
      Between(attempts, starts, i, j - 1);
    }
  }

  lemma {:induction false} DelayValues(n: nat)
    ensures Delay(n) == if n == 0 then 60 else if n == 1 then 120 else if n == 2 then 240 else if n == 3 then 480
            else 900
  {
    if n > 0 {
      DelayValues(n - 1);
    }
  }

  lemma FourDelays(i: nat)
    ensures Delays(i, i + 4) == if i == 0 then 900 else if i == 1 then 1740 else if i == 2 then 2520
                                else if i == 3 then 3180 else 3600
  {
    DelayValues(i);
    DelayValues(i + 1);
    DelayValues(i + 2);
    DelayValues(i + 3);
    assert Delays(i, i + 1) == Delays(i, i) + Delay(i);
    assert Delays(i, i + 2) == Delay(i) + Delay(i + 1);
    assert Delays(i, i + 4) == Delays(i, i + 2) + Delay(i + 2) + Delay(i + 3);
  }

  lemma SevenDelays(i: nat)
    ensures Delays(i, i + 7) >= 3600
  {
    FourDelays(i);
    DelayValues(i + 4);
    DelayValues(i + 5);
    DelayValues(i + 6);
    assert Delays(i, i + 6) == Delays(i, i + 4) + Delay(i + 4) + Delay(i + 5);
  }

  lemma LeastOf(s: set<nat>) returns (m: nat)
    requires s != {}
    ensures m in s && forall i | i in s :: m <= i
  {
    m :| m in s;
    while exists i :: i in s && i < m
      invariant m in s
      decreases m
    {
      var less :| less in s && less < m;
      m := less;
    }
  }

  /** Where no `n` attempts in a row from any index of the hour on fit into an hour, the hour holds at most `n`. */
  lemma Fits(attempts: seq<Attempt>, starts: seq<real>, from: real, n: nat)
    requires Schedule(attempts, starts)
    requires forall i | i in InHour(starts, from) && i + n < |starts| :: starts[i + n] >= starts[i] + 3600.0
    ensures |InHour(starts, from)| <= n
  {
    var s := InHour(starts, from);
    if s != {} {
      var m := LeastOf(s);
      forall i | i in s ensures m <= i < m + n {
        if i >= m + n {
          StartsIncrease(attempts, starts, m + n, i);
        }
      }
      IntervalSize(s, m, n);
    }
  }

  /**
   However long the attempts take, no half-open hour holds more than seven attempt starts, and none that begins
   after the fourth attempt holds more than four.
   */
  lemma AttemptsPerHour(attempts: seq<Attempt>, starts: seq<real>, from: real)
    requires Schedule(attempts, starts)
    ensures |InHour(starts, from)| <= 7
    ensures |starts| > 3 && from > starts[3] ==> |InHour(starts, from)| <= 4
  {
    forall i | i in InHour(starts, from) && i + 7 < |starts| ensures starts[i + 7] >= starts[i] + 3600.0 {
      Between(attempts, starts, i, i + 7);
      SevenDelays(i);
    }
    Fits(attempts, starts, from, 7);
    if |starts| > 3 && from > starts[3] {
      forall i | i in InHour(starts, from) && i + 4 < |starts| ensures starts[i + 4] >= starts[i] + 3600.0 {
        if i < 4 {
          StartsIncrease(attempts, starts, i, 3);
        }
        Between(attempts, starts, i, i + 4);
        FourDelays(i);
      }
      Fits(attempts, starts, from, 4);
    }
  }

  /** What four attempts in a row from index `i` on lack of an hour, in seconds. */
  function Slack(i: nat): real {
    if i == 0 then 2700.0 else if i == 1 then 1860.0 else if i == 2 then 1080.0 else if i == 3 then 420.0 else 0.0
  }

  /** The first attempts themselves take what the delays between them lack of an hour. */
  predicate SlowEnough(attempts: seq<Attempt>, n: nat)
    requires n <= |attempts|
  {
    forall i | 0 <= i < 4 && i + 4 < n :: Spent(attempts, i, i + 4) >= Slack(i)
  }

  lemma Gap(attempts: seq<Attempt>, starts: seq<real>, i: nat)
    requires Schedule(attempts, starts) && i + 4 < |starts|
    ensures starts[i + 4] >= starts[i] + 3600.0 <==> Spent(attempts, i, i + 4) >= Slack(i)
  {
    Between(attempts, starts, i, i + 4);
    FourDelays(i);
  }

  /** Five attempts that begin within an hour of the first of them. */
  lemma FiveInAnHour(attempts: seq<Attempt>, starts: seq<real>, i: nat)
    requires Schedule(attempts, starts) && i + 4 < |starts| && starts[i + 4] < starts[i] + 3600.0
    ensures |InHour(starts, starts[i])| >= 5
  {
    forall k | k in {i, i + 1, i + 2, i + 3, i + 4} ensures k in InHour(starts, starts[i]) {
      StartsIncrease(attempts, starts, i, k);
      StartsIncrease(attempts, starts, k, i + 4);
    }
    SubsetSize({i, i + 1, i + 2, i + 3, i + 4}, InHour(starts, starts[i]));
  }

  /** Every hour holds fewer than five attempts exactly when the first few of them are slow enough. */
  lemma UnderFivePerHour(attempts: seq<Attempt>, starts: seq<real>)
    requires Schedule(attempts, starts)
    ensures (forall from: real :: |InHour(starts, from)| <= 4) <==> SlowEnough(attempts, |starts|)
  {
    if SlowEnough(attempts, |starts|) {
      forall from: real ensures |InHour(starts, from)| <= 4 {
        forall i | i in InHour(starts, from) && i + 4 < |starts| ensures starts[i + 4] >= starts[i] + 3600.0 {
          Between(attempts, starts, i, i + 4);
          Gap(attempts, starts, i);
        }
        Fits(attempts, starts, from, 4);
      }
    } else {
      var i: nat :| i < 4 && i + 4 < |starts| && Spent(attempts, i, i + 4) < Slack(i);
      Gap(attempts, starts, i);
      FiveInAnHour(attempts, starts, i);
    }
  }

  /** Attempts that fail at once. */
  function Immediate(n: nat): seq<Attempt> {
    seq(n, _ => Attempt(0.0, false))
  }

  /** From the fourth attempt itself on an hour can still hold five. */
  lemma FiveFromTheFourth()
    ensures var starts := [0.0, 60.0, 180.0, 420.0, 900.0, 1800.0, 2700.0, 3600.0];
            Schedule(Immediate(8), starts) && |InHour(starts, starts[3])| >= 5
  {
    var starts: seq<real> := [0.0, 60.0, 180.0, 420.0, 900.0, 1800.0, 2700.0, 3600.0];
    DelayValues(4);
    DelayValues(5);
    DelayValues(6);
    assert Schedule(Immediate(8), starts);
    FiveInAnHour(Immediate(8), starts, 3);
  }

  /** The first hour is where the bound of seven is met. */
  lemma SevenInTheFirstHour()
    ensures var starts := [0.0, 60.0, 180.0, 420.0, 900.0, 1800.0, 2700.0];
            Schedule(Immediate(7), starts) && |InHour(starts, 0.0)| == 7
  {
    var starts: seq<real> := [0.0, 60.0, 180.0, 420.0, 900.0, 1800.0, 2700.0];
    DelayValues(4);
    DelayValues(5);
    assert Schedule(Immediate(7), starts);
    assert InHour(starts, 0.0) == {0, 1, 2, 3, 4, 5, 6};
  }
}
