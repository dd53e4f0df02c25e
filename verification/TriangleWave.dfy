/** The counter of an increase/decrease rate: what one tick does to it, and the
    triangle wave that the ticks trace out. */
module TriangleWave {

  /** The two loop variables of an increase/decrease rate. */
  datatype Counter = Counter(value: int, goingUp: bool)

  /** One tick.  The direction flips on hitting `max` going up or `min` going down. */
  function Advance(c: Counter, min: int, max: int): Counter {
    if c.goingUp then Counter(c.value + 1, c.value + 1 != max)
    else Counter(c.value - 1, c.value - 1 == min)
  }

  /** The counter after `t` ticks, from `min` and going up. */
  function CounterAt(min: int, max: int, t: nat): Counter {
    if t == 0 then Counter(min, true) else Advance(CounterAt(min, max, t - 1), min, max)
  }

  /** The triangle wave of period 2 * (max - min), as a closed form. */
  function Triangle(min: int, max: int, t: nat): int
    requires min < max
  {
    var d := max - min;
    var p := t % (2 * d);
    if p <= d then min + p else min + 2 * d - p
  }

  lemma ModSuccessor(t: nat, m: int)
    requires m > 0
    ensures (t + 1) % m == if t % m == m - 1 then 0 else t % m + 1
  {
    var q, r := t / m, t % m;
    assert t == m * q + r;
    if r == m - 1 {
      assert t + 1 == m * (q + 1);
      DivModUnique(t + 1, m, q + 1, 0);
    } else {
      DivModUnique(t + 1, m, q, r + 1);
    }
  }

  /** Quotient and remainder are unique. */
  lemma DivModUnique(t: int, m: int, q: int, r: int)
    requires 0 <= r < m && t == m * q + r
    ensures t % m == r
  {
    var k := q - t / m;
    assert m * k == t % m - r by {
      assert m * k == m * q - m * (t / m);
    }
    ProductAtLeast(m, k);
    ProductAtLeast(m, -k);
  }

  lemma ProductAtLeast(m: int, k: int)
    requires m > 0
    ensures k >= 1 ==> m * k >= m
    ensures -k >= 1 ==> m * k <= -m
  {
  }

  /** With min < max, t ticks leave the counter on the triangle wave, rising exactly
      in the first half of the period. */
  lemma {:induction false} ClosedForm(min: int, max: int, t: nat)
    requires min < max
    ensures CounterAt(min, max, t).value == Triangle(min, max, t)
    ensures CounterAt(min, max, t).goingUp <==> t % (2 * (max - min)) < max - min
  {
    if t > 0 {
      ClosedForm(min, max, t - 1);
      ModSuccessor(t - 1, 2 * (max - min));
    }
  }

  /** With min >= max there is no turning point: the counter climbs for ever. */
  lemma {:induction false} NeverTurns(min: int, max: int, t: nat)
    requires min >= max
    ensures CounterAt(min, max, t) == Counter(min + t, true)
  {
    if t > 0 {
      NeverTurns(min, max, t - 1);
    }
  }

  /** The counter stays between its bounds for ever exactly when min < max. */
  lemma StaysInRangeIff(min: int, max: int)
    ensures (forall t: nat :: min <= CounterAt(min, max, t).value <= max) <==> min < max
  {
    if min < max {
      forall t: nat
        ensures min <= CounterAt(min, max, t).value <= max
      {
        ClosedForm(min, max, t);
      }
    } else {
      NeverTurns(min, max, 1);
      assert CounterAt(min, max, 1).value > max;
    }
  }

  /** What the counter traces out, as a closed form: a triangle wave, or a climb that
      never turns. */
  function Wave(min: int, max: int, t: nat): int {
    if min < max then Triangle(min, max, t) else min + t
  }

  /** The wave sampled at the ticks marked in `ready`. */
  ghost function Sampled(min: int, max: int, ready: seq<bool>): seq<int> {
    if ready == [] then []
    else
      var last := |ready| - 1;
      Sampled(min, max, ready[..last]) + if ready[last] then [Wave(min, max, |ready|)] else []
  }

  /** The loop of an increase/decrease rate with its channels taken away: one
      iteration per tick, and a non-blocking send that succeeds when the consumer is
      ready.  What gets through is the wave sampled at the ready ticks. */
  method IncDecLoop(min: int, max: int, ready: seq<bool>) returns (sent: seq<int>)
    ensures sent == Sampled(min, max, ready)
  {
    var goingUp, counter := true, min;
    sent := [];
    var t := 0;
    while t < |ready|
      invariant 0 <= t <= |ready|
      invariant Counter(counter, goingUp) == CounterAt(min, max, t)
      invariant sent == Sampled(min, max, ready[..t])
    {
      if goingUp {
        counter := counter + 1;
        if counter == max {
          goingUp := false;
        }
      } else {
        counter := counter - 1;
        if counter == min {
          goingUp := true;
        }
      }
      if ready[t] {
        sent := sent + [counter];
      }
      if min < max {
        ClosedForm(min, max, t + 1);
      } else {
        NeverTurns(min, max, t + 1);
      }
      assert ready[..t + 1][..t] == ready[..t];
      t := t + 1;
    }
    assert ready[..t] == ready;
  }
}
