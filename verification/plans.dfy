/**
 * Plan limits: how many raffles and campaigns a user may create and the
 * ticket cap shown on the creation form, the creation gate that compares
 * the user's counts against them, and the plan label the dashboard shows.
 * The dashboard keeps its own copy of the limit table; both are modelled.
 */
module Plans {
  import opened Common
  import opened Schema

  datatype Limits = Limits(rifas: nat, campanhas: nat, bilhetes: nat)

  /** What an unrecognised plan string is allowed: nothing. */
  const NoLimits := Limits(0, 0, 0)

  /** The plan a missing profile plan stands for. */
  const DefaultPlan := "economico"

  /** Componentwise `<=`. */
  predicate AtMost(a: Limits, b: Limits) {
    a.rifas <= b.rifas && a.campanhas <= b.campanhas && a.bilhetes <= b.bilhetes
  }

  /** The order of the plans from cheapest to dearest. */
  function Rank(p: Plan): (r: nat)
    ensures r < |Plans| && Plans[r] == p
  {
    match p
    case Economico => 0
    case Padrao => 1
    case Premium => 2
  }

  /** The limit table of the validation hook, keyed by the plan's string. */
  function PlanoLimits(plano: string): (l: Limits)
    ensures plano !in PlanoTypeNames <==> l == NoLimits
    ensures plano in PlanoTypeNames ==> l.rifas == l.campanhas && l.rifas >= 2 && l.bilhetes >= 100000
  {
    match plano
    case "economico" => Limits(2, 2, 100000)
    case "padrao" => Limits(5, 5, 500000)
    case "premium" => Limits(10, 10, 1000000)
    case _ => NoLimits
  }

  /** The dashboard's own copy of the limit table. */
  function DashboardPlanoLimits(plano: string): (l: Limits)
    ensures plano !in PlanoTypeNames <==> l == NoLimits
  {
    match plano
    case "economico" => Limits(2, 2, 100000)
    case "padrao" => Limits(5, 5, 500000)
    case "premium" => Limits(10, 10, 1000000)
    case _ => NoLimits
  }

  /** `profile.plano || "economico"`: the plan string in force, economico when the column is null. */
  function CurrentPlan(plano: Option<Plan>): (s: string)
    ensures s in PlanoTypeNames
    ensures ParsePlan(s) == Some(if plano.Some? then plano.value else Economico)
  {
    match plano
    case Some(p) => PlanName(p)
    case None => DefaultPlan
  }

  /** The limits the hook computes for a profile. */
  function ProfileLimits(plano: Option<Plan>): (l: Limits)
    ensures l != NoLimits && l.rifas > 0 && l.campanhas > 0
    ensures plano.None? ==> l == PlanoLimits("economico")
  {
    PlanoLimits(CurrentPlan(plano))
  }

  /** `canCreateRifa`: the user's raffle count is strictly below the plan's limit. */
  function CanCreateRifa(rifasCount: nat, limits: Limits): bool
  {
    rifasCount < limits.rifas
  }

  /** `canCreateCampanha`: the user's campaign count is strictly below the plan's limit. */
  function CanCreateCampanha(campanhasCount: nat, limits: Limits): bool
  {
    campanhasCount < limits.campanhas
  }

  /** `getPlanoLabel`: the display name of the three plans; any other string unchanged. */
  function PlanoLabel(plano: string): (shown: string)
    ensures plano in PlanoTypeNames ==> shown in ["Econômico", "Padrão", "Premium"] && shown != plano
    ensures plano !in PlanoTypeNames ==> shown == plano
  {
    match plano
    case "economico" => "Econômico"
    case "padrao" => "Padrão"
    case "premium" => "Premium"
    case _ => plano
  }

  /** The dearer the plan, the higher every limit. */
  lemma LimitsMonotone(p: Plan, q: Plan)
    requires Rank(p) <= Rank(q)
    ensures AtMost(PlanoLimits(PlanName(p)), PlanoLimits(PlanName(q)))
  {
  }

  /**
   * The creation gate under the plans: every profile may create its first
   * raffle and campaign, a user at the limit is stopped, and whatever a plan
   * lets through a dearer plan lets through too.
   */
  lemma PlanGate(p: Option<Plan>, q: Plan, count: nat)
    ensures CanCreateRifa(0, ProfileLimits(p)) && CanCreateCampanha(0, ProfileLimits(p))
    ensures !CanCreateRifa(ProfileLimits(p).rifas, ProfileLimits(p))
    ensures !CanCreateCampanha(ProfileLimits(p).campanhas, ProfileLimits(p))
    ensures p.Some? && Rank(p.value) <= Rank(q) && CanCreateRifa(count, ProfileLimits(p)) ==>
              CanCreateRifa(count, ProfileLimits(Some(q)))
    ensures p.Some? && Rank(p.value) <= Rank(q) && CanCreateCampanha(count, ProfileLimits(p)) ==>
              CanCreateCampanha(count, ProfileLimits(Some(q)))
  {
    if p.Some? && Rank(p.value) <= Rank(q) {
      LimitsMonotone(p.value, q);
    }
  }

  /** The dashboard's table and the hook's agree on every string, the zero default included. */
  lemma DashboardAgrees(plano: string)
    ensures DashboardPlanoLimits(plano) == PlanoLimits(plano)
  {
  }

  /** An unrecognised plan string never lets the user create anything. */
  lemma UnknownPlanBlocks(plano: string, rifasCount: nat, campanhasCount: nat)
    requires plano !in PlanoTypeNames
    ensures !CanCreateRifa(rifasCount, PlanoLimits(plano))
    ensures !CanCreateCampanha(campanhasCount, PlanoLimits(plano))
  {
  }

  /** The first `n` items of a list, or all of it when shorter (`slice(0, n)`). */
  function Recent<T>(items: seq<T>, n: nat): (r: seq<T>)
    ensures |r| <= n && |r| <= |items|
    ensures |r| == n || r == items
    ensures forall i :: 0 <= i < |r| ==> r[i] == items[i]
  {
    if |items| <= n then items else items[..n]
  }
}
