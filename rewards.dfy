/** The reward breakdown of the wooden fish: the total number of knocks is
    split greedily, highest tier first, into lotus, incense, beads and merits.
    This is a mixed-radix numeral with digit weights 1, 100, 1800 and 5400. */
module Rewards {

  /** Conversion ratios between neighbouring tiers. */
  const MERIT_TO_BEAD: nat := 100
  const BEAD_TO_INCENSE: nat := 18
  const INCENSE_TO_LOTUS: nat := 3

  /** Tier sizes, in merits. */
  const BEAD_COST: nat := MERIT_TO_BEAD
  const INCENSE_COST: nat := BEAD_TO_INCENSE * MERIT_TO_BEAD
  const LOTUS_COST: nat := INCENSE_TO_LOTUS * BEAD_TO_INCENSE * MERIT_TO_BEAD

  datatype Inventory = Inventory(merits: nat, beads: nat, incense: nat, lotus: nat)

  /** The number of knocks an inventory stands for. */
  function Worth(inv: Inventory): nat {
    inv.merits + inv.beads * BEAD_COST + inv.incense * INCENSE_COST + inv.lotus * LOTUS_COST
  }

  /** Every digit below the lotus is smaller than the ratio to the next tier. */
  predicate WellFormed(inv: Inventory) {
    inv.merits < MERIT_TO_BEAD && inv.beads < BEAD_TO_INCENSE && inv.incense < INCENSE_TO_LOTUS
  }

  /** `calculateInventory`: greedy division from the largest tier down. */
  function CalculateInventory(total: nat): (inv: Inventory)
    ensures WellFormed(inv)
    ensures Worth(inv) == total
  {
    var lotus := total / LOTUS_COST;
    var remainder := total % LOTUS_COST;
    var incense := remainder / INCENSE_COST;
    var remainder := remainder % INCENSE_COST;
    var beads := remainder / BEAD_COST;
    var remainder := remainder % BEAD_COST;
    Inventory(remainder, beads, incense, lotus)
  }

  /** Quotient and remainder are determined by any decomposition with a
      remainder in range. */
  lemma DivModUnique(n: nat, d: nat, q: nat, r: nat)
    requires 0 <= r < d
    requires n == q * d + r
    ensures n / d == q && n % d == r
  {
    var q', r' := n / d, n % d;
    assert n == q' * d + r';
    if q < q' {
      assert q' * d >= (q + 1) * d by { MulMono(q + 1, q', d); }
      assert false;
    } else if q' < q {
      assert q * d >= (q' + 1) * d by { MulMono(q' + 1, q, d); }
      assert false;
    }
  }

  lemma MulMono(a: nat, b: nat, d: nat)
    requires a <= b
    ensures a * d <= b * d
  {
  }

  /** A well-formed inventory is the breakdown of its own worth: the breakdown
      is unique, so `CalculateInventory` and `Worth` are inverse bijections
      between knock counts and well-formed inventories. */
  lemma BreakdownUnique(inv: Inventory)
    requires WellFormed(inv)
    ensures CalculateInventory(Worth(inv)) == inv
  {
    var n := Worth(inv);
    var belowLotus := inv.merits + inv.beads * BEAD_COST + inv.incense * INCENSE_COST;
    DivModUnique(n, LOTUS_COST, inv.lotus, belowLotus);
    var belowIncense := inv.merits + inv.beads * BEAD_COST;
    DivModUnique(belowLotus, INCENSE_COST, inv.incense, belowIncense);
    DivModUnique(belowIncense, BEAD_COST, inv.beads, inv.merits);
  }

  /** Reference definition of one more knock: an odometer with carries. */
  function Increment(inv: Inventory): (next: Inventory)
    requires WellFormed(inv)
    ensures WellFormed(next)
    ensures Worth(next) == Worth(inv) + 1
  {
    if inv.merits + 1 < MERIT_TO_BEAD then inv.(merits := inv.merits + 1)
    else if inv.beads + 1 < BEAD_TO_INCENSE then inv.(merits := 0, beads := inv.beads + 1)
    else if inv.incense + 1 < INCENSE_TO_LOTUS then inv.(merits := 0, beads := 0, incense := inv.incense + 1)
    else Inventory(0, 0, 0, inv.lotus + 1)
  }

  /** The breakdown of one more knock is the previous breakdown with one merit
      added and carried upwards. */
  lemma KnockCarries(n: nat)
    ensures CalculateInventory(n + 1) == Increment(CalculateInventory(n))
  {
    BreakdownUnique(Increment(CalculateInventory(n)));
  }

  /** Lexicographic order on breakdowns, highest tier first. */
  predicate LexLess(a: Inventory, b: Inventory) {
    a.lotus < b.lotus
    || (a.lotus == b.lotus && a.incense < b.incense)
    || (a.lotus == b.lotus && a.incense == b.incense && a.beads < b.beads)
    || (a.lotus == b.lotus && a.incense == b.incense && a.beads == b.beads && a.merits < b.merits)
  }

  lemma LexLessWorth(a: Inventory, b: Inventory)
    requires WellFormed(a) && WellFormed(b)
    requires LexLess(a, b)
    ensures Worth(a) < Worth(b)
  {
  }

  /** More knocks give a lexicographically larger breakdown, and conversely. */
  lemma BreakdownMonotone(n1: nat, n2: nat)
    ensures n1 < n2 <==> LexLess(CalculateInventory(n1), CalculateInventory(n2))
  {
    var a, b := CalculateInventory(n1), CalculateInventory(n2);
    if LexLess(a, b) {
      LexLessWorth(a, b);
    }
    if n1 < n2 && !LexLess(a, b) {
      if a == b {
        assert false;
      } else {
        LexLessWorth(b, a);
        assert false;
      }
    }
  }

  /** The worked examples: 5500 knocks are one lotus and one bead. */
  lemma Examples()
    ensures CalculateInventory(0) == Inventory(0, 0, 0, 0)
    ensures CalculateInventory(99) == Inventory(99, 0, 0, 0)
    ensures CalculateInventory(100) == Inventory(0, 1, 0, 0)
    ensures CalculateInventory(1800) == Inventory(0, 0, 1, 0)
    ensures CalculateInventory(5400) == Inventory(0, 0, 0, 1)
    ensures CalculateInventory(5500) == Inventory(0, 1, 0, 1)
  {
  }
}
