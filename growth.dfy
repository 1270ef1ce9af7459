/** Capacity growth shared by the runtime's growable buffers (runtime/rt_list.c, runtime/rt_dict.c,
    runtime/rt_string.c): when the capacity falls short, start from the current capacity (or a
    fixed initial one when it is zero) and double until the need is covered. */
module Growth {
  /** The doubling loop `while (newcap < need) newcap *= 2`. */
  function Doubled(x: nat, need: nat): (r: nat)
    requires x > 0
    ensures r >= need && r >= x
    ensures r == x || r < 2 * need
    decreases need - x
  {
    if x >= need then x else Doubled(2 * x, need)
  }

  /** The capacity after an ensure-capacity call with initial capacity `initial`. */
  function GrownCapacity(cap: nat, need: nat, initial: nat): (r: nat)
    requires initial > 0
  {
    if cap >= need then cap else Doubled(if cap == 0 then initial else cap, need)
  }

  /** Capacity only grows, covers the need, is untouched when it already sufficed, and never
      overshoots by more than the doubling allows. */
  lemma GrownCapacityBounds(cap: nat, need: nat, initial: nat)
    requires initial > 0
    ensures var r := GrownCapacity(cap, need, initial);
            r >= cap && r >= need
            && (r == cap <==> cap >= need)
            && (cap == 0 < need ==> r >= initial)
            && (cap < need ==> r < 2 * need || r == initial)
  {
  }

  /** The loop itself, run on a local. */
  method DoubleUntil(start: nat, need: nat) returns (newcap: nat)
    requires start > 0
    ensures newcap == Doubled(start, need)
  {
    newcap := start;
    while newcap < need
      invariant newcap > 0 && Doubled(newcap, need) == Doubled(start, need)
      decreases need - newcap
    {
      newcap := newcap * 2;
    }
  }
}
