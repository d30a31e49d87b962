/** Resource dynamics: a pool that receives a budget and decays in proportion to its size. */
module ResourceDynamics {
  import opened Bits
  import opened Collections

  const DECAY_DENOM_SHIFT: nat := 36
  const DENOM: nat := 0x10_0000_0000
  const RD_MIN_BUDGET: nat := 1
  const RD_MAX_BUDGET: nat := 0xFFF_FFFF
  const RD_MIN_DECAY: nat := 64
  const INT64_LIMIT: nat := 0x8000_0000_0000_0000
  const UINT32_LIMIT: nat := 0x1_0000_0000

  datatype DecayParams = DecayParams(decay: nat, shift: nat)

  datatype UserParams = UserParams(budget: nat, decay: nat)

  datatype SystemParams = SystemParams(resourceUnit: nat, shift: nat)

  datatype DynamicsParams = DynamicsParams(resourceUnit: nat, budget: nat, poolEq: nat, maxPoolSize: nat,
                                           decayParams: DecayParams, minDecay: int)

  /** `rd_compute_pool_decay`; None where the 64-bit conversion throws. */
  function PoolDecay(p: DecayParams, pool: int, dt: nat): Option<int>
    decreases pool < 0
  {
    if pool < 0 then
      match PoolDecay(p, -pool, dt)
      case None => None
      case Some(x) => Some(-x)
    else
      var result := Quot(p.decay * dt * pool, Pow2(p.shift));
      if result >= WORD then None else Some(Min(result, pool))
  }

  function AsInt64(x: nat): int {
    if x % WORD < INT64_LIMIT then x % WORD else x % WORD - WORD
  }

  /** `rd_apply`, with a time step of one. */
  function Apply(rd: DynamicsParams, pool: int): Option<int> {
    match PoolDecay(rd.decayParams, pool, 1)
    case None => None
    case Some(d) =>
      var decay := Max(d, rd.minDecay);
      Some(Max(Min(pool + rd.budget - decay, AsInt64(rd.maxPoolSize)), 0))
  }

  /** The smallest pool whose decay is at least the budget: the budget scaled up, divided, rounded up. */
  function Equilibrium(budget: nat, decay: nat): nat
    requires decay > 0
  {
    Quot(budget * DENOM + decay - 1, decay)
  }

  /** The decay of a non-negative pool in one time unit. */
  function UnitDecay(decay: nat, pool: nat): nat {
    Quot(decay * pool, DENOM)
  }

  lemma DenomIs()
    ensures Pow2(DECAY_DENOM_SHIFT) == DENOM
  {
    Pow2Word();
    Pow2Add(32, 4);
    assert Pow2(2) == 4;
    assert Pow2(4) == 16;
  }

  /** With the one supported shift and a decay rate below 2^32 the conversion never throws, and the cap on
      the decay is never reached. */
  lemma UnitDecayIs(p: DecayParams, pool: nat)
    requires p.shift == DECAY_DENOM_SHIFT && p.decay < UINT32_LIMIT && pool < INT64_LIMIT
    ensures PoolDecay(p, pool, 1) == Some(UnitDecay(p.decay, pool)) && UnitDecay(p.decay, pool) <= pool
    ensures PoolDecay(p, 0 - pool, 1).Some? && PoolDecay(p, 0 - pool, 1).value == 0 - UnitDecay(p.decay, pool)
  {
    hide Quot, Pow2;
    DenomIs();
    var q := UnitDecay(p.decay, pool);
    MulMono(p.decay, DENOM, pool);
    if q > pool {
      MulMono(pool + 1, q, DENOM);
    }
  }

  /** The equilibrium brackets the budget. */
  lemma EquilibriumBounds(budget: nat, decay: nat)
    requires budget >= 1 && decay >= 1
    ensures budget * DENOM <= decay * Equilibrium(budget, decay) <= budget * DENOM + decay - 1
    ensures Equilibrium(budget, decay) >= 1
  {
    hide Quot;
    var e := Equilibrium(budget, decay);
  }

  /** It is the least pool that decays by the budget, and it decays by exactly that. */
  lemma EquilibriumIsLeast(budget: nat, decay: nat, pool: nat)
    requires budget >= 1 && 1 <= decay < DENOM
    ensures UnitDecay(decay, pool) >= budget <==> pool >= Equilibrium(budget, decay)
    ensures UnitDecay(decay, Equilibrium(budget, decay)) == budget
  {
    hide Quot, Equilibrium;
    EquilibriumBounds(budget, decay);
    var e, q := Equilibrium(budget, decay), UnitDecay(decay, pool);
    QuotRem(decay * e, DENOM, budget, decay * e - budget * DENOM);
    if pool >= e {
      MulMono(e, pool, decay);
      if q < budget {
        MulMono(q + 1, budget, DENOM);
      }
    } else {
      MulMono(pool, e - 1, decay);
      if q >= budget {
        MulMono(budget, q, DENOM);
      }
    }
  }

  /** `Undefined`: the source negates the least 64-bit number. */
  datatype SetupResult = Configured(params: DynamicsParams) | UnsupportedShift | AssertionFired | Undefined

  /** A budget so large that even the smallest decay balances it only at 2^63. */
  const HUGE_BUDGET: nat := 0x800_0000

  /** The check at the end of the setup: is the decay at `pool` at least the budget? */
  function BalancedAt(p: DynamicsParams, pool: nat): bool {
    match PoolDecay(p.decayParams, AsInt64(pool), 1)
    case None => false
    case Some(d) => d >= p.budget
  }

  predicate Validated(user: UserParams) {
    RD_MIN_BUDGET <= user.budget <= RD_MAX_BUDGET && RD_MIN_DECAY <= user.decay < UINT32_LIMIT
  }

  /** `rd_validate_user_params`; false where it throws. */
  method ValidateUserParams(user: UserParams) returns (ok: bool)
    ensures ok == Validated(user)
    ensures ok ==> Equilibrium(user.budget, user.decay) + user.budget < INT64_LIMIT
  {
    if user.budget < RD_MIN_BUDGET || user.budget > RD_MAX_BUDGET {
      return false;
    }
    if user.decay < RD_MIN_DECAY || user.decay >= UINT32_LIMIT {
      return false;
    }
    ValidatedFits(user);
    ok := true;
  }

  /** With validated parameters the equilibrium, and the pool one budget above it, fit a signed 64-bit number. */
  lemma ValidatedFits(user: UserParams)
    requires Validated(user)
    ensures Equilibrium(user.budget, user.decay) + user.budget < INT64_LIMIT
  {
    hide Equilibrium;
    var e := Equilibrium(user.budget, user.decay);
    EquilibriumBounds(user.budget, user.decay);
    MulMono(RD_MIN_DECAY, user.decay, e - 1);
    Distribute(e, -1, user.decay);
  }

  /** When the equilibrium fits a signed 64-bit number, as a condition on the parameters. */
  lemma EquilibriumFitsIff(budget: nat, decay: nat)
    requires 1 <= budget <= RD_MAX_BUDGET && 1 <= decay
    ensures Equilibrium(budget, decay) < INT64_LIMIT <==> decay >= 2 || budget < HUGE_BUDGET
    ensures Equilibrium(budget, decay) == INT64_LIMIT <==> decay == 1 && budget == HUGE_BUDGET
  {
    hide Equilibrium;
    var e := Equilibrium(budget, decay);
    EquilibriumBounds(budget, decay);
    if decay >= 2 {
      MulMono(2, decay, e - 1);
      Distribute(e, -1, decay);
    }
  }

  /** `rd_setup_dynamics_params`.  Its closing assertions hold for every decay above one, and for a decay of
      one exactly below the huge budget, which is the one case where the source is undefined. */
  method Setup(user: UserParams, system: SystemParams) returns (r: SetupResult)
    requires 1 <= user.budget <= RD_MAX_BUDGET && 1 <= user.decay < UINT32_LIMIT
    ensures r.UnsupportedShift? <==> system.shift != DECAY_DENOM_SHIFT
    ensures system.shift == DECAY_DENOM_SHIFT ==> (r.Configured? <==> user.decay >= 2 || user.budget < HUGE_BUDGET)
    ensures system.shift == DECAY_DENOM_SHIFT ==> (r.Undefined? <==> user.decay == 1 && user.budget == HUGE_BUDGET)
    ensures r.Configured? ==> var e := Equilibrium(user.budget, user.decay);
              r.params == DynamicsParams(system.resourceUnit, user.budget, e, e, DecayParams(user.decay, system.shift), 0)
  {
    hide Quot, Pow2, Equilibrium;
    var out := DynamicsParams(system.resourceUnit, user.budget, 0, 0, DecayParams(user.decay, system.shift), 0);
    if system.shift != DECAY_DENOM_SHIFT {
      return UnsupportedShift;
    }
    var temp := user.budget;
    temp := temp * DENOM;
    temp := temp + (user.decay - 1);
    temp := Quot(temp, user.decay);
    EquilibriumSize(user.budget, user.decay, temp);
    EquilibriumFitsIff(user.budget, user.decay);
    assert temp < WORD; // the 64-bit conversion does not throw
    out := out.(poolEq := temp);
    out := out.(maxPoolSize := out.poolEq);
    if out.poolEq == INT64_LIMIT {
      return Undefined;
    }
    SetupChecks(out);
    if !BalancedAt(out, out.poolEq) {
      return AssertionFired;
    }
    if BalancedAt(out, out.poolEq - 1) {
      return AssertionFired;
    }
    r := Configured(out);
  }

  /** The assertions do fire for a decay of one, which the validation of user parameters excludes. */
  lemma AssertionsFire()
    ensures Equilibrium(RD_MAX_BUDGET, 1) > INT64_LIMIT && !Validated(UserParams(RD_MAX_BUDGET, 1))
    ensures !BalancedAt(DynamicsParams(0, RD_MAX_BUDGET, Equilibrium(RD_MAX_BUDGET, 1), Equilibrium(RD_MAX_BUDGET, 1),
                                       DecayParams(1, DECAY_DENOM_SHIFT), 0), Equilibrium(RD_MAX_BUDGET, 1))
  {
    hide Equilibrium, BalancedAt;
    var e := Equilibrium(RD_MAX_BUDGET, 1);
    EquilibriumFitsIff(RD_MAX_BUDGET, 1);
    EquilibriumSize(RD_MAX_BUDGET, 1, Quot(RD_MAX_BUDGET * DENOM + (1 - 1), 1));
    SetupChecks(DynamicsParams(0, RD_MAX_BUDGET, e, e, DecayParams(1, DECAY_DENOM_SHIFT), 0));
  }

  /** With validated parameters neither closing assertion can fire. */
  method SetupValidated(user: UserParams, system: SystemParams) returns (r: SetupResult)
    requires Validated(user) && system.shift == DECAY_DENOM_SHIFT
    ensures r.Configured? && r.params.poolEq + user.budget < INT64_LIMIT && Settled(r.params)
  {
    ValidatedFits(user);
    r := Setup(user, system);
  }

  lemma EquilibriumSize(budget: nat, decay: nat, e: nat)
    requires 1 <= budget <= RD_MAX_BUDGET && 1 <= decay
    requires e == Quot(budget * DENOM + (decay - 1), decay)
    ensures e == Equilibrium(budget, decay) && 1 <= e < WORD
  {
    EquilibriumBounds(budget, decay);
    MulMono(1, decay, e - 1);
    Distribute(e, -1, decay);
  }

  lemma AsInt64Is(x: nat)
    requires x < WORD
    ensures AsInt64(x) == if x < INT64_LIMIT then x else x - WORD
  {
  }

  lemma SetupChecks(p: DynamicsParams)
    requires 1 <= p.budget && 1 <= p.decayParams.decay < UINT32_LIMIT && p.decayParams.shift == DECAY_DENOM_SHIFT
    requires p.poolEq == Equilibrium(p.budget, p.decayParams.decay) && 1 <= p.poolEq < WORD && p.poolEq != INT64_LIMIT
    ensures BalancedAt(p, p.poolEq) <==> p.poolEq < INT64_LIMIT
    ensures p.poolEq < INT64_LIMIT ==> !BalancedAt(p, p.poolEq - 1)
  {
    hide Quot, Pow2, Equilibrium, PoolDecay, UnitDecay, AsInt64;
    var e, d := p.poolEq, p.decayParams.decay;
    AsInt64Is(e);
    AsInt64Is(e - 1);
    if e < INT64_LIMIT {
      UnitDecayIs(p.decayParams, e);
      UnitDecayIs(p.decayParams, e - 1);
      EquilibriumIsLeast(p.budget, d, e);
      EquilibriumIsLeast(p.budget, d, e - 1);
    } else {
      UnitDecayIs(p.decayParams, WORD - e);
    }
  }

  // ---------- convergence ----------

  /** Parameters as the setup leaves them, with a minimal decay below the budget. */
  ghost predicate Settled(rd: DynamicsParams) {
    && rd.decayParams.shift == DECAY_DENOM_SHIFT && 1 <= rd.decayParams.decay < UINT32_LIMIT
    && 0 <= rd.minDecay < rd.budget && rd.poolEq == Equilibrium(rd.budget, rd.decayParams.decay) < INT64_LIMIT
    && rd.maxPoolSize == rd.poolEq
  }

  /** A pool that the 64-bit additions of one step can handle. */
  ghost predicate Fits(rd: DynamicsParams, pool: int) {
    0 - INT64_LIMIT < pool && pool + rd.budget < INT64_LIMIT
  }

  /** What one step does, by the region the pool is in: below zero it comes back, below the equilibrium it
      grows, at or above the equilibrium it is there. */
  lemma ApplyIs(rd: DynamicsParams, pool: int)
    requires Settled(rd) && Fits(rd, pool)
    ensures Apply(rd, pool).Some?
    ensures var next := Apply(rd, pool).value;
            && 0 <= next <= rd.poolEq
            && (pool >= rd.poolEq ==> next == rd.poolEq)
            && (0 <= pool < rd.poolEq ==> next > pool)
  {
    hide Quot, Pow2, Equilibrium, PoolDecay;
    var d := rd.decayParams.decay;
    if pool < 0 {
      UnitDecayIs(rd.decayParams, -pool);
    } else {
      UnitDecayIs(rd.decayParams, pool);
      EquilibriumIsLeast(rd.budget, d, pool);
      if pool >= rd.poolEq {
        NoUndershoot(d, rd.poolEq, pool);
      }
    }
  }

  /** What is left after decay does not shrink when the pool grows. */
  lemma NoUndershoot(decay: nat, x: nat, y: nat)
    requires x <= y && decay < DENOM
    ensures x - UnitDecay(decay, x) <= y - UnitDecay(decay, y)
  {
    hide Quot;
    var p, q := UnitDecay(decay, x), UnitDecay(decay, y);
    Distribute(x, y - x, decay);
    MulMono(decay, DENOM, y - x);
    if q > p + (y - x) {
      MulMono(p + (y - x) + 1, q, DENOM);
      Distribute(p, y - x + 1, DENOM);
    }
  }

  /** The pool after `n` steps. */
  function Iterate(rd: DynamicsParams, pool: int, n: nat): Option<int>
    decreases n
  {
    if n == 0 then Some(pool)
    else
      match Iterate(rd, pool, n - 1)
      case None => None
      case Some(p) => Apply(rd, p)
  }

  /** After n steps the pool is at the equilibrium or at least n - 1. */
  lemma {:induction false} IterateClimbs(rd: DynamicsParams, pool: int, n: nat)
    requires Settled(rd) && Fits(rd, pool) && rd.poolEq + rd.budget < INT64_LIMIT
    ensures Iterate(rd, pool, n).Some? && Fits(rd, Iterate(rd, pool, n).value)
    ensures n > 0 ==> var p := Iterate(rd, pool, n).value;
              0 <= p <= rd.poolEq && (p == rd.poolEq || p >= n - 1)
  {
    if n > 0 {
      hide Apply, Equilibrium;
      IterateClimbs(rd, pool, n - 1);
      ApplyIs(rd, Iterate(rd, pool, n - 1).value);
    }
  }

  /** From any starting pool the equilibrium is reached within `poolEq` + 1 steps and never left. */
  lemma Converges(rd: DynamicsParams, pool: int, n: nat)
    requires Settled(rd) && Fits(rd, pool) && rd.poolEq + rd.budget < INT64_LIMIT
    requires n > rd.poolEq
    ensures Iterate(rd, pool, n) == Some(rd.poolEq)
  {
    IterateClimbs(rd, pool, n);
  }

  /** So with validated parameters every pool that one step can handle converges. */
  lemma ConvergesValidated(user: UserParams, rd: DynamicsParams, pool: int, n: nat)
    requires Validated(user) && rd.budget == user.budget && rd.decayParams == DecayParams(user.decay, DECAY_DENOM_SHIFT)
    requires rd.poolEq == rd.maxPoolSize == Equilibrium(user.budget, user.decay) && 0 <= rd.minDecay < rd.budget
    requires Fits(rd, pool) && n > rd.poolEq
    ensures Iterate(rd, pool, n) == Some(rd.poolEq)
  {
    hide Equilibrium, Iterate;
    ValidatedFits(user);
    Converges(rd, pool, n);
  }
}
