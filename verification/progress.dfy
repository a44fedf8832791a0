/** The "Gathering data..." empty state: a counter advanced once a second
    up to a ceiling of 60, drawn as a bar whose width is the share of the
    minute collected so far. The one-second timer itself is not modelled;
    each timer callback is one `Tick`. */
module Progress {

  const Ceiling: int := 60

  /** The counter's value when the view mounts. */
  const Start: int := 0

  function Min(a: int, b: int): int
  {
    if a <= b then a else b
  }

  /** The state updater passed to `setProgress` on every tick. */
  function Tick(p: int): (q: int)
    ensures q <= Ceiling
    ensures p <= Ceiling ==> p <= q
    ensures q == Ceiling <==> p >= Ceiling - 1
  {
    if p >= Ceiling then Ceiling else p + 1
  }

  /** A tick is an increment capped at the ceiling; at the ceiling it is a
      fixed point. */
  lemma TickIsCappedIncrement(p: int)
    ensures Tick(p) == Min(p + 1, Ceiling)
    ensures Tick(Ceiling) == Ceiling
  {
  }

  /** The counter after `k` ticks from `p`. */
  function Ticks(p: int, k: nat): (r: int)
    ensures k > 0 ==> r <= Ceiling
    ensures k > 0 && p >= Ceiling ==> r == Ceiling
    decreases k
  {
    if k == 0 then p else Tick(Ticks(p, k - 1))
  }

  /** After `k` seconds the counter reads `min(k, 60)`. */
  lemma {:induction false} TicksFromStart(k: nat)
    ensures Ticks(Start, k) == Min(k, Ceiling)
    decreases k
  {
    if k > 0 {
      TicksFromStart(k - 1);
    }
  }

  /** From anywhere in [0, 60] the counter stays in [0, 60] and never goes
      down. */
  lemma {:induction false} TicksStayInRange(p: int, k: nat)
    requires 0 <= p <= Ceiling
    ensures p <= Ticks(p, k) <= Ceiling
    ensures Ticks(p, k) <= Ticks(p, k + 1)
    decreases k
  {
    if k > 0 {
      TicksStayInRange(p, k - 1);
    }
  }

  /** The bar's CSS width in percent: `(progress / 60) * 100`. */
  function WidthPercent(p: int): (w: real)
    ensures 0 <= p <= Ceiling ==> 0.0 <= w <= 100.0
    ensures w == 100.0 <==> p == Ceiling
    ensures w == 0.0 <==> p == 0
  {
    (p as real / Ceiling as real) * 100.0
  }
}
