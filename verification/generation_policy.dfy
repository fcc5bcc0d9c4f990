/** The generation decision every scheduler tick consults. */
module GenerationPolicy {

  datatype Policy = Click | Always | Hybrid | Demand

  datatype Action = Generate | Defer

  datatype Plan = Reuse | OnDemand | Pregenerate

  datatype Reason =
    | InvalidPacket
    | ExplicitRefresh
    | ExactStored
    | AwaitRefresh
    | WaitForDemand
    | RetryFallback
    | DeferralElapsed
    | MinorChangeDeferred
    | Regenerate

  /** `eligible` is the reuse eligibility the trace reports, not the one that was asked for. */
  datatype Trace = Trace(plan: Plan, action: Action, reason: Reason, eligible: bool)

  /** What the caller knows when it asks for a decision. */
  datatype Facts = Facts(
    exact: bool,
    refresh: bool,
    retryFallback: bool,
    material: bool,
    valid: bool,
    backgroundRequired: bool,
    deferralExpired: bool)

  function PlanFor(policy: Policy, f: Facts): (Plan, Reason) {
    if !f.valid then (OnDemand, InvalidPacket)
    else if f.refresh then (OnDemand, ExplicitRefresh)
    else if policy == Click then
      if f.exact then (Reuse, ExactStored) else (OnDemand, AwaitRefresh)
    else if f.exact && !f.retryFallback then (Reuse, ExactStored)
    else if policy == Demand && !f.backgroundRequired then (OnDemand, WaitForDemand)
    else if f.retryFallback then (Pregenerate, RetryFallback)
    else if policy == Hybrid && !f.material && f.deferralExpired then (Pregenerate, DeferralElapsed)
    else if policy == Hybrid && !f.material then (OnDemand, MinorChangeDeferred)
    else (Pregenerate, Regenerate)
  }

  function Decide(policy: Policy, f: Facts): Trace {
    var (plan, reason) := PlanFor(policy, f);
    Trace(plan,
          if f.valid && (f.refresh || plan == Pregenerate) then Generate else Defer,
          reason,
          f.valid && f.exact)
  }

  /** The simulator never passes the fallback, demand or deferral flags, so they keep their defaults. */
  function SimulatorFacts(exact: bool, refresh: bool, material: bool, valid: bool): Facts {
    Facts(exact, refresh, false, material, valid, true, false)
  }

  /** A stored exact result stops every policy except an explicit refresh, and a packet that is not
      current stops all of them; beyond that only Click and an immaterial change under Hybrid wait. */
  lemma GeneratesExactlyWhen(policy: Policy, exact: bool, refresh: bool, material: bool, valid: bool)
    ensures var t := Decide(policy, SimulatorFacts(exact, refresh, material, valid));
      && (t.action == Generate <==>
          valid && (refresh || (policy != Click && !exact && (policy == Hybrid ==> material))))
      && (t.plan == Reuse ==> exact && t.action == Defer)
      && (t.eligible ==> exact)
  {
  }

  /** When a policy generates ahead of demand: nothing usable is stored or a fallback is to be retried, demand allows it,
      and under Hybrid the change is material or has waited long enough. */
  predicate Ahead(policy: Policy, f: Facts) {
    && f.valid && !f.refresh && policy != Click
    && (f.retryFallback || !f.exact)
    && (policy == Demand ==> f.backgroundRequired)
    && (policy == Hybrid ==> f.retryFallback || f.material || f.deferralExpired)
  }

  /** The whole decision table: plan, action and eligibility for every policy and all facts, and each reason exactly
      when it applies. */
  lemma TableIsExact(policy: Policy, f: Facts)
    ensures var t, open := Decide(policy, f), f.valid && !f.refresh;
      && (t.plan == Pregenerate <==> Ahead(policy, f))
      && (t.plan == Reuse <==> open && f.exact && (policy == Click || !f.retryFallback))
      && (t.action == Generate <==> f.valid && (f.refresh || Ahead(policy, f)))
      && (t.eligible <==> f.valid && f.exact)
      && (t.reason == InvalidPacket <==> !f.valid)
      && (t.reason == ExplicitRefresh <==> f.valid && f.refresh)
      && (t.reason == ExactStored <==> t.plan == Reuse)
      && (t.reason == AwaitRefresh <==> open && policy == Click && !f.exact)
      && (t.reason == WaitForDemand <==> open && policy == Demand && !f.backgroundRequired && (f.retryFallback || !f.exact))
      && (t.reason == RetryFallback <==> Ahead(policy, f) && f.retryFallback)
      && (t.reason == DeferralElapsed <==> Ahead(policy, f) && !f.retryFallback && policy == Hybrid && !f.material)
      && (t.reason == MinorChangeDeferred <==>
            open && policy == Hybrid && !f.exact && !f.retryFallback && !f.material && !f.deferralExpired)
      && (t.reason == Regenerate <==> Ahead(policy, f) && !f.retryFallback && (policy == Hybrid ==> f.material))
  {
  }
}
