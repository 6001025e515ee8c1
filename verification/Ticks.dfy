/** 32-bit tick arithmetic.

    The kernel keeps time in a `TickType_t` that wraps at 2^32.  Every timing claim of this project is
    stated in an unbounded ghost time; `Wrap` is what the kernel stores of such a time and `Epoch` counts
    the times the tick counter has wrapped to zero before it. */
module Ticks {

  const TICK_MOD: nat := 0x1_0000_0000

  /** `portMAX_DELAY`, the largest tick value; as a block time it means "block indefinitely". */
  const PORT_MAX_DELAY: nat := 0xFFFF_FFFF

  type Tick = t: nat | t < TICK_MOD

  function Wrap(time: int): Tick {
    time % TICK_MOD
  }

  function Epoch(time: int): int {
    time / TICK_MOD
  }

  /** Unsigned 32-bit addition. */
  function AddTicks(a: Tick, b: Tick): Tick {
    Wrap(a + b)
  }

  /** Unsigned 32-bit subtraction. */
  function SubTicks(a: Tick, b: Tick): Tick {
    Wrap(a - b)
  }

  /** A time is its epoch and its stored value, and the split is unique. */
  lemma WrapUnique(time: int, epoch: int, tick: Tick)
    requires time == epoch * TICK_MOD + tick
    ensures Wrap(time) == tick && Epoch(time) == epoch
  {
  }

  lemma WrapSplit(time: int)
    ensures time == Epoch(time) * TICK_MOD + Wrap(time)
  {
  }

  /** Stored values may be added and subtracted without knowing the epochs. */
  lemma WrapAdd(a: int, b: int)
    ensures AddTicks(Wrap(a), Wrap(b)) == Wrap(a + b)
  {
    WrapSplit(a);
    WrapSplit(b);
    var s := Wrap(a) + Wrap(b);
    WrapSplit(s);
    WrapUnique(a + b, Epoch(a) + Epoch(b) + Epoch(s), Wrap(s));
  }

  lemma WrapSub(a: int, b: int)
    ensures SubTicks(Wrap(a), Wrap(b)) == Wrap(a - b)
  {
    WrapSplit(a);
    WrapSplit(b);
    var d := Wrap(a) - Wrap(b);
    WrapSplit(d);
    WrapUnique(a - b, Epoch(a) - Epoch(b) + Epoch(d), Wrap(d));
  }

  /** Two times less than one lap apart: the later one is in the same epoch exactly when its stored
      value has not fallen below the earlier one's. */
  lemma SameLap(a: int, b: int)
    requires a <= b < a + TICK_MOD
    ensures Epoch(b) == Epoch(a) || Epoch(b) == Epoch(a) + 1
    ensures Epoch(b) == Epoch(a) <==> Wrap(a) <= Wrap(b)
    ensures Wrap(b - a) == b - a
  {
    WrapSplit(a);
    WrapSplit(b);
  }

  /** Within one epoch stored values are ordered as the times are. */
  lemma EpochOrder(a: int, b: int)
    requires Epoch(a) == Epoch(b)
    ensures Wrap(a) <= Wrap(b) <==> a <= b
  {
    WrapSplit(a);
    WrapSplit(b);
  }

  lemma EpochMonotone(a: int, b: int)
    requires a <= b
    ensures Epoch(a) <= Epoch(b)
  {
    WrapSplit(a);
    WrapSplit(b);
  }

  lemma LaterEpoch(a: int, b: int)
    requires Epoch(a) < Epoch(b)
    ensures a < b
  {
    WrapSplit(a);
    WrapSplit(b);
  }
}
