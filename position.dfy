/**
 * The position counter of the motor: a position is a step offset from
 * home, counted clockwise, on a circle of `n` steps.
 */
module Position {
  import opened MotorTypes
  import opened Modular

  /**
   * One pulse in the given direction from a known position: the modular
   * counter, (p + 1) mod n clockwise and (p - 1 + n) mod n counter-clockwise.
   */
  function Advance(n: nat, p: nat, clockwise: bool): (r: nat)
    requires p < n
    ensures r < n
  {
    if clockwise then (p + 1) % n else (p - 1 + n) % n
  }

  /**
   * The modular counter moves to a neighbour, and the boundary is the only
   * special case: n - 1 wraps to 0 clockwise, 0 wraps to n - 1 counter-clockwise.
   */
  lemma AdvanceIsNeighbour(n: nat, p: nat, clockwise: bool)
    requires p < n
    ensures clockwise ==> Advance(n, p, clockwise) == if p == n - 1 then 0 else p + 1
    ensures !clockwise ==> Advance(n, p, clockwise) == if p == 0 then n - 1 else p - 1
  {
    if clockwise {
      if p == n - 1 {
        ModUnique(p + 1, 1, 0, n);
      } else {
        ModUnique(p + 1, 0, p + 1, n);
      }
    } else {
      if p == 0 {
        ModUnique(n - 1, 0, n - 1, n);
      } else {
        ModUnique(p - 1 + n, 1, p - 1, n);
      }
    }
  }

  /** A position after `k` pulses in one direction, one pulse at a time. */
  function AdvanceMany(n: nat, p: nat, k: nat, clockwise: bool): (r: nat)
    requires p < n
    ensures r < n
  {
    if k == 0 then p else Advance(n, AdvanceMany(n, p, k - 1, clockwise), clockwise)
  }

  /** The optional position after `k` pulses: nothing is tracked while home is unset. */
  function Moved(n: nat, pos: Option<nat>, k: nat, clockwise: bool): (r: Option<nat>)
    requires pos.Some? ==> pos.value < n
    ensures r.None? <==> pos.None?
    ensures r.Some? ==> r.value < n
  {
    match pos
    case None => None
    case Some(p) => Some(AdvanceMany(n, p, k, clockwise))
  }

  /** k pulses clockwise land on (p + k) mod n, counter-clockwise on (p - k) mod n. */
  lemma {:induction false} AdvanceManyClosedForm(n: nat, p: nat, k: nat, clockwise: bool)
    requires p < n
    ensures AdvanceMany(n, p, k, clockwise) == if clockwise then (p + k) % n else (p - k) % n
  {
    if k == 0 {
      ModUnique(p, 0, p, n);
    } else {
      AdvanceManyClosedForm(n, p, k - 1, clockwise);
      var prev := AdvanceMany(n, p, k - 1, clockwise);
      if clockwise {
        assert prev == (p + (k - 1)) % n;
        ModAddLeft(p + (k - 1), 1, n);
        assert Advance(n, prev, true) == (prev + 1) % n;
      } else {
        assert prev == (p - (k - 1)) % n;
        ModAddLeft(p - (k - 1), n - 1, n);
        assert p - (k - 1) + (n - 1) == (p - k) + n * 1;
        ModShift(p - k, 1, n);
        assert Advance(n, prev, false) == (prev + (n - 1)) % n;
      }
    }
  }

  /** Whole revolutions, in either direction, come back to the start. */
  lemma FullTurns(n: nat, p: nat, turns: nat, clockwise: bool)
    requires p < n
    ensures AdvanceMany(n, p, turns * n, clockwise) == p
  {
    AdvanceManyClosedForm(n, p, turns * n, clockwise);
    ModUnique(p, 0, p, n);
    if clockwise {
      assert p + turns * n == p + n * turns;
      ModShift(p, turns, n);
    } else {
      assert p - turns * n == p + n * (0 - turns);
      ModShift(p, 0 - turns, n);
    }
  }

  /** k pulses clockwise followed by k pulses counter-clockwise restore the position. */
  lemma RoundTrip(n: nat, p: nat, k: nat)
    requires p < n
    ensures AdvanceMany(n, AdvanceMany(n, p, k, true), k, false) == p
  {
    var q := AdvanceMany(n, p, k, true);
    AdvanceManyClosedForm(n, p, k, true);
    AdvanceManyClosedForm(n, q, k, false);
    assert q == (p + k) % n;
    ModAddLeft(p + k, 0 - k, n);
    assert q - k == (p + k) % n + (0 - k);
    ModUnique(p, 0, p, n);
  }

  /** Pulse counts compose: k then j pulses in one direction are k + j pulses. */
  lemma {:induction false} AdvanceManyAdditive(n: nat, p: nat, k: nat, j: nat, clockwise: bool)
    requires p < n
    ensures AdvanceMany(n, AdvanceMany(n, p, k, clockwise), j, clockwise) == AdvanceMany(n, p, k + j, clockwise)
  {
    if j > 0 {
      AdvanceManyAdditive(n, p, k, j - 1, clockwise);
    }
  }
}
