/** Properties of the controller over a sequence of ticks: the cooldown
    timer, how often jumps can fire, and how the facing persists. Between two
    ticks the engine may change the body's velocity and the displayed frame;
    a run applies the ticks back to back, so the lemmas here state only
    `facing` and `jumpTimer`, which the controller alone writes, and fields
    that the last tick sets itself. */
module Runs {
  import opened Game

  /** The state after the controller has handled `ticks` in order, from `s`. */
  function Run(s: State, ticks: seq<Tick>): (r: State)
    ensures r.jumpTimer >= s.jumpTimer
    ensures |ticks| > 0 ==> Settled(r)
    decreases |ticks|
  {
    if ticks == [] then s
    else Step(Run(s, ticks[..|ticks| - 1]), ticks[|ticks| - 1])
  }

  /** Whether the jump fired on tick `k` of a run from `s`. */
  predicate FiredAt(s: State, ticks: seq<Tick>, k: nat)
    requires k < |ticks|
  {
    JumpFires(Run(s, ticks[..k]), ticks[k])
  }

  /** The number of ticks of a run on which the jump fired. */
  function Jumps(s: State, ticks: seq<Tick>): nat
    decreases |ticks|
  {
    if ticks == [] then 0
    else Jumps(s, ticks[..|ticks| - 1]) + (if FiredAt(s, ticks, |ticks| - 1) then 1 else 0)
  }

  /** Tick `k` starts from the state the first `k` ticks left behind. */
  lemma RunPrefix(s: State, ticks: seq<Tick>, k: nat)
    requires k < |ticks|
    ensures Run(s, ticks[..k + 1]) == Step(Run(s, ticks[..k]), ticks[k])
  {
    assert ticks[..k + 1][..k] == ticks[..k];
  }

  /** The cooldown timestamp never moves backward along a run. */
  lemma {:induction false} TimerMonotone(s: State, ticks: seq<Tick>, j: nat, k: nat)
    requires j <= k <= |ticks|
    ensures Run(s, ticks[..j]).jumpTimer <= Run(s, ticks[..k]).jumpTimer
    decreases k - j
  {
    if j < k {
      RunPrefix(s, ticks, k - 1);
      TimerMonotone(s, ticks, j, k - 1);
    }
  }

  /** After a jump at time T, no jump fires on any later tick whose clock
      reads T + 650 or less. */
  lemma CooldownBlocksJump(s: State, ticks: seq<Tick>, j: nat, k: nat)
    requires j < k < |ticks|
    requires FiredAt(s, ticks, j)
    requires ticks[k].now <= ticks[j].now + JumpCooldown
    ensures !FiredAt(s, ticks, k)
  {
    RunPrefix(s, ticks, j);
    TimerMonotone(s, ticks, j + 1, k);
  }

  /** Every fired jump leaves the cooldown timestamp at least 651 ms past
      where the previous fired jump left it. */
  lemma JumpGap(s: State, ticks: seq<Tick>, j: nat, k: nat)
    requires j < k < |ticks|
    requires FiredAt(s, ticks, j) && FiredAt(s, ticks, k)
    ensures Run(s, ticks[..k + 1]).jumpTimer >= Run(s, ticks[..j + 1]).jumpTimer + JumpCooldown + 1
  {
    RunPrefix(s, ticks, k);
    TimerMonotone(s, ticks, j + 1, k);
  }

  /** Ticks on which no jump fires leave the cooldown timestamp as it was. */
  lemma {:induction false} QuietTicksKeepTimer(s: State, ticks: seq<Tick>, j: nat, k: nat)
    requires j <= k <= |ticks|
    requires forall m :: j <= m < k ==> !FiredAt(s, ticks, m)
    ensures Run(s, ticks[..k]).jumpTimer == Run(s, ticks[..j]).jumpTimer
    decreases k - j
  {
    if j < k {
      assert !FiredAt(s, ticks, k - 1);
      RunPrefix(s, ticks, k - 1);
      QuietTicksKeepTimer(s, ticks, j, k - 1);
    }
  }

  /** The next jump after one at time T fires exactly on the first tick that
      has SPACEBAR down, the body on the floor, and a clock past T + 650. */
  lemma NextJumpAfterCooldown(s: State, ticks: seq<Tick>, j: nat, k: nat)
    requires j < k < |ticks|
    requires FiredAt(s, ticks, j)
    requires forall m :: j < m < k ==> !FiredAt(s, ticks, m)
    ensures FiredAt(s, ticks, k) <==>
      ticks[k].spacebar && ticks[k].onFloor && ticks[k].now > ticks[j].now + JumpCooldown
  {
    RunPrefix(s, ticks, j);
    QuietTicksKeepTimer(s, ticks, j + 1, k);
  }

  /** Bounds on the cooldown timestamp after a run whose clock stays within
      [lo, hi]: the bounds hold because every fired jump pushes it at least
      651 ms further, and the last one leaves it at most 650 ms past `hi`. */
  lemma {:induction false} TimerAfterJumps(s: State, ticks: seq<Tick>, lo: int, hi: int)
    requires forall k :: 0 <= k < |ticks| ==> lo <= ticks[k].now <= hi
    ensures Jumps(s, ticks) == 0 ==> Run(s, ticks).jumpTimer == s.jumpTimer
    ensures Jumps(s, ticks) > 0 ==>
      lo + JumpCooldown + (Jumps(s, ticks) - 1) * (JumpCooldown + 1) <= Run(s, ticks).jumpTimer <= hi + JumpCooldown
    decreases |ticks|
  {
    if ticks != [] {
      var n := |ticks| - 1;
      var before := ticks[..n];
      assert ticks[..n] == before;
      forall k | 0 <= k < |before| ensures lo <= before[k].now <= hi {
        assert before[k] == ticks[k];
      }
      TimerAfterJumps(s, before, lo, hi);
    }
  }

  /** No double jumps: in a run whose clock stays within [lo, hi], jumps fire
      at most once per 651 ms, counting the first. */
  lemma JumpRate(s: State, ticks: seq<Tick>, lo: int, hi: int)
    requires forall k :: 0 <= k < |ticks| ==> lo <= ticks[k].now <= hi
    requires Jumps(s, ticks) > 0
    ensures (Jumps(s, ticks) - 1) * (JumpCooldown + 1) <= hi - lo
  {
    TimerAfterJumps(s, ticks, lo, hi);
  }

  /** Whether a tick holds a direction key. */
  predicate Steers(t: Tick) {
    t.left || t.right
  }

  /** The facing after a run is the direction of the last tick that held a
      direction key (LEFT winning a tie), or the starting facing if none did. */
  lemma {:induction false} FacingFollowsLastSteer(s: State, ticks: seq<Tick>)
    ensures (forall k :: 0 <= k < |ticks| ==> !Steers(ticks[k])) ==> Run(s, ticks).facing == s.facing
    ensures forall k ::
      (0 <= k < |ticks| && Steers(ticks[k]) && (forall m :: k < m < |ticks| ==> !Steers(ticks[m])))
      ==> Run(s, ticks).facing == (if ticks[k].left then Left else Right)
    decreases |ticks|
  {
    if ticks != [] {
      var n := |ticks| - 1;
      var before := ticks[..n];
      FacingFollowsLastSteer(s, before);
      assert Run(s, ticks) == Step(Run(s, before), ticks[n]);
      forall k | 0 <= k < |ticks| && Steers(ticks[k])
        && (forall m :: k < m < |ticks| ==> !Steers(ticks[m]))
        ensures Run(s, ticks).facing == (if ticks[k].left then Left else Right)
      {
        if k < n {
          assert !Steers(ticks[n]);
          assert before[k] == ticks[k];
          forall m | k < m < |before| ensures !Steers(before[m]) {
            assert before[m] == ticks[m];
          }
        }
      }
      if forall k :: 0 <= k < |ticks| ==> !Steers(ticks[k]) {
        assert !Steers(ticks[n]);
        forall m | 0 <= m < |before| ensures !Steers(before[m]) {
          assert before[m] == ticks[m];
        }
      }
    }
  }

  /** Concrete ticks from the starting state: walking left at 1000 ms; a jump
      at 1000 ms, whose 'jumping' sheet is already reverted when the tick ends;
      the idle tick after it; a press at 1500 ms against a cooldown until
      1650 ms, whatever vertical velocity the engine has left; and a press
      at 1651 ms, just past it. */
  lemma JumpScenarios(vy: int)
    ensures var a := Step(Initial, Tick(true, false, false, true, 1000));
      a.velocityX == -160 && a.facing == Left && a.frame == 0
    ensures var b := Step(Initial, Tick(false, false, true, true, 1000));
      b.velocityY == -120 && b.jumpTimer == 1650 && b.key == Character
    ensures var c := Run(Initial, [Tick(false, false, true, true, 1000), Tick(false, false, false, true, 1001)]);
      c.key == Character && c.jumpTimer == 1650 && c.velocityX == 0
    ensures var d := Step(Initial.(jumpTimer := 1650, velocityY := vy), Tick(false, false, true, true, 1500));
      d.jumpTimer == 1650 && d.velocityY == vy
    ensures var e := Run(Initial, [Tick(false, false, true, true, 1000), Tick(false, false, true, true, 1651)]);
      e.jumpTimer == 2301
  {
  }
}
