/** The wall-clock guard of the queue (QueueRuntime::now in crates/store/src/queue.rs). */
module Clock {
  import opened Wrappers

  const MAX_SKEW_MS := 60_000

  /** One look at both clocks; `wall` is missing when the wall clock cannot be read. */
  datatype Reading = Reading(wall: Option<nat>, mono: nat)

  datatype ClockError = Unreadable | Changed

  /** Baseline pair, last trusted wall time, and the sticky discontinuity flag. */
  datatype Guard = Guard(base: Option<(nat, nat)>, last: Option<nat>, changed: bool)

  const FRESH := Guard(None, None, false)

  function Abs(n: int): nat { if n < 0 then -n else n }

  predicate Jumped(g: Guard, wall: nat, mono: nat)
    requires g.base.Some?
  {
    || (g.last.Some? && wall < g.last.value)
    || mono < g.base.value.1
    || Abs((wall - g.base.value.0) - (mono - g.base.value.1)) > MAX_SKEW_MS
  }

  function Now(g: Guard, r: Reading): (Guard, Result<nat, ClockError>) {
    if r.wall.None? then (g, Err(Unreadable))
    else
      var wall := r.wall.value;
      var seen := if g.base.None? then g.(base := Some((wall, r.mono)))
                  else if Jumped(g, wall, r.mono) then g.(changed := true)
                  else g;
      if seen.changed then (seen, Err(Changed)) else (seen.(last := Some(wall)), Ok(wall))
  }

  /** The guard after any history of readings of a freshly opened store. */
  function After(rs: seq<Reading>): Guard {
    if rs == [] then FRESH else Now(After(rs[..|rs| - 1]), rs[|rs| - 1]).0
  }

  /** The readings of a history that were trusted, oldest first. */
  function Trusted(rs: seq<Reading>): (t: seq<Reading>)
    ensures forall i :: 0 <= i < |t| ==> t[i].wall.Some?
  {
    if rs == [] then []
    else
      var before, r := rs[..|rs| - 1], rs[|rs| - 1];
      Trusted(before) + if Now(After(before), r).1.Ok? then [r] else []
  }

  /** A trusted reading lies within the allowed skew of the first one plus elapsed time. */
  predicate Near(first: Reading, r: Reading)
    requires first.wall.Some? && r.wall.Some?
  {
    && first.mono <= r.mono
    && Abs(r.wall.value - (first.wall.value + (r.mono - first.mono))) <= MAX_SKEW_MS
  }

  /** Trusted times never go back and never leave the skew window, whatever the clocks do. */
  lemma {:induction false} TrustedTimes(rs: seq<Reading>)
    ensures var t := Trusted(rs);
            && (forall i, j :: 0 <= i <= j < |t| ==> t[i].wall.value <= t[j].wall.value)
            && (forall i :: 0 <= i < |t| ==> Near(t[0], t[i]))
    ensures var t, g := Trusted(rs), After(rs);
            if t == [] then g == FRESH
            else g.base == Some((t[0].wall.value, t[0].mono)) && g.last == t[|t| - 1].wall
  {
    if rs != [] {
      TrustedTimes(rs[..|rs| - 1]);
    }
  }

  /** A detected jump is final: no later reading of that store is trusted again. */
  lemma {:induction false} JumpIsPermanent(rs: seq<Reading>, more: seq<Reading>)
    requires After(rs).changed
    ensures After(rs + more).changed && Trusted(rs + more) == Trusted(rs)
  {
    if more == [] {
      assert rs + more == rs;
    } else {
      JumpIsPermanent(rs, more[..|more| - 1]);
      assert (rs + more)[..|rs + more| - 1] == rs + more[..|more| - 1];
    }
  }

  /** A jump is detected only at a reading that breaks one of the three rules, and always then. */
  lemma JumpExactly(rs: seq<Reading>, r: Reading)
    requires r.wall.Some? && !After(rs).changed && Trusted(rs) != []
    ensures var t := Trusted(rs);
            After(rs + [r]).changed
            <==> !(t[|t| - 1].wall.value <= r.wall.value && Near(t[0], r))
  {
    TrustedTimes(rs);
    assert (rs + [r])[..|rs|] == rs;
  }
}
