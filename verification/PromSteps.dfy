/** The steps of a Prometheus range query and the rows of a record that belong to each of them. */
module PromSteps {
  import opened Windows

  /** The steps of a query: start, start + step, ... up to and including end. */
  datatype Steps = Steps(start: int, end: int, step: int)

  ghost predicate IsSteps(g: Steps) {
    g.step > 0 && g.start <= g.end && Aligns(g, g.end)
  }

  ghost predicate Aligns(g: Steps, s: int)
    requires g.step > 0
  {
    (s - g.start) % g.step == 0
  }

  ghost predicate OnStep(g: Steps, s: int)
    requires g.step > 0
  {
    g.start <= s <= g.end && Aligns(g, s)
  }

  function Min(a: int, b: int): int {
    if a < b then a else b
  }

  function GetCurrStep(g: Steps, t: int): int
    requires g.step > 0
  {
    if t <= g.start then g.start
    else
      var n, r := (t - g.start) / g.step, (t - g.start) % g.step;
      if r > 0 then Min(g.start + (n + 1) * g.step, g.end) else Min(t, g.end)
  }

  function GetPrevStep(g: Steps, t: int): int
    requires g.step > 0
  {
    if t <= g.start then g.start
    else if t == g.end then t
    else Min(g.start + (t - g.start) / g.step * g.step, g.end)
  }

  function Number(g: Steps, s: int): int
    requires g.step > 0
  {
    (s - g.start) / g.step
  }

  lemma {:induction false} NumberOf(g: Steps, s: int)
    requires g.step > 0 && Aligns(g, s)
    ensures s - g.start == g.step * Number(g, s)
  {
  }

  lemma {:induction false} IsAligned(g: Steps, s: int, k: int)
    requires g.step > 0 && s - g.start == g.step * k
    ensures Aligns(g, s)
  {
    var d, q := s - g.start, (s - g.start) / g.step;
    assert d == g.step * q + d % g.step;
    MulMonotone(g.step, k, q);
    MulMonotone(g.step, q, k);
  }

  lemma {:induction false} StepAfter(g: Steps, s: int)
    requires g.step > 0 && Aligns(g, s)
    ensures Aligns(g, s + g.step) && Aligns(g, s - g.step)
  {
    var k := Number(g, s);
    NumberOf(g, s);
    assert g.step * (k + 1) == g.step * k + g.step;
    assert g.step * (k - 1) == g.step * k - g.step;
    IsAligned(g, s + g.step, k + 1);
    IsAligned(g, s - g.step, k - 1);
  }

  /** Two steps are at least one step apart. */
  lemma {:induction false} StepApart(g: Steps, a: int, b: int)
    requires g.step > 0 && Aligns(g, a) && Aligns(g, b) && a < b
    ensures a + g.step <= b
  {
    NumberOf(g, a);
    NumberOf(g, b);
    MulMonotone(g.step, Number(g, a), Number(g, b));
    MulMonotone(g.step, Number(g, b), Number(g, a));
  }

  /** A set of times one step apart. */
  ghost predicate Spaced(step: int, grid: int -> bool) {
    && (forall a, b :: grid(a) && grid(b) && a < b ==> a + step <= b)
    && (forall a, b :: b == a + step ==> (grid(a) <==> grid(b)))
  }

  ghost function GridOf(g: Steps): int -> bool
    requires g.step > 0
  {
    s => Aligns(g, s)
  }

  lemma {:induction false} GridSpaced(g: Steps)
    requires g.step > 0
    ensures Spaced(g.step, GridOf(g))
  {
    var grid := GridOf(g);
    forall a, b | grid(a) && grid(b) && a < b
      ensures a + g.step <= b
    {
      StepApart(g, a, b);
    }
    forall a, b | b == a + g.step
      ensures grid(a) <==> grid(b)
    {
      if Aligns(g, a) {
        StepAfter(g, a);
      }
      if Aligns(g, b) {
        StepAfter(g, b);
      }
    }
  }

  /** Rounding up and rounding down to a step. */
  lemma {:induction false} Rounding(g: Steps, t: int, n: int)
    requires g.step > 0 && n == (t - g.start) / g.step
    ensures
      var down, up := g.start + n * g.step, g.start + (n + 1) * g.step;
      && Aligns(g, down) && Aligns(g, up) && up == down + g.step && down <= t < up
      && (down == t <==> (t - g.start) % g.step == 0)
  {
    var down, up := g.start + n * g.step, g.start + (n + 1) * g.step;
    assert t - g.start == g.step * n + (t - g.start) % g.step;
    assert n * g.step == g.step * n && (n + 1) * g.step == g.step * n + g.step;
    IsAligned(g, down, n);
    assert g.step * (n + 1) == (n + 1) * g.step;
    IsAligned(g, up, n + 1);
  }

  /** The current step of a time is the least step at or after it, or the last one when there is none. */
  lemma {:induction false} CurrStepIsLeast(g: Steps, t: int)
    requires IsSteps(g)
    ensures
      var r := GetCurrStep(g, t);
      && OnStep(g, r)
      && (t <= g.end ==> t <= r)
      && (t > g.end ==> r == g.end)
      && (g.start < t ==> r - g.step < t)
      && (forall s :: OnStep(g, s) && t <= s ==> r <= s)
  {
    var r := GetCurrStep(g, t);
    IsAligned(g, g.start, 0);
    if t > g.start {
      Rounding(g, t, (t - g.start) / g.step);
      forall s | OnStep(g, s) && t <= s
        ensures r <= s
      {
        if s < r {
          StepApart(g, s, r);
        }
      }
    }
  }

  /** The previous step of a time is the greatest step at or before it, or the first one when there is none. */
  lemma {:induction false} PrevStepIsGreatest(g: Steps, t: int)
    requires IsSteps(g)
    ensures
      var r := GetPrevStep(g, t);
      && OnStep(g, r)
      && (g.start <= t ==> r <= t)
      && (t < g.start ==> r == g.start)
      && (g.start <= t < g.end ==> t < r + g.step)
      && (forall s :: OnStep(g, s) && s <= t ==> s <= r)
  {
    var r := GetPrevStep(g, t);
    IsAligned(g, g.start, 0);
    if t > g.start {
      Rounding(g, t, (t - g.start) / g.step);
      if r < g.start {
        StepApart(g, r, g.start);
      }
      forall s | OnStep(g, s) && s <= t
        ensures s <= r
      {
        if r < s {
          StepApart(g, r, s);
        }
      }
    }
  }
}
