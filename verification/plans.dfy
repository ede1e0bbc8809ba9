/** The subscription plans and their monthly credit limits
    (src/services/credits_service.ts, `PLAN_LIMITS` and `getPlanLimits`). */
module Plans {
  import opened Wrappers

  /** A monthly limit. The table's `Infinity` is `Unlimited`, which admits
      every finite count; `Missing` is the `undefined` read from a plan
      object without limits, which admits none (`n < undefined` is false). */
  datatype Limit = Finite(n: nat) | Unlimited | Missing {

    /** Another credit may be used at count `used`: `used < limit`. */
    predicate Admits(used: nat) {
      Unlimited? || (Finite? && used < n)
    }

    /** This limit is no larger than `other`. */
    predicate AtMost(other: Limit) {
      other.Unlimited? || (Finite? && other.Finite? && n <= other.n)
    }
  }

  datatype PlanLimits = PlanLimits(doodle: Limit, equation: Limit)

  /** The two metered features (`CreditType`). */
  datatype CreditType = Doodle | Equation

  const FREE := "free"
  const LITTLE_WIZARD := "little_wizard"
  const WIZARD := "wizard"
  const WIZARD_PRO := "wizard_pro"

  const PLAN_LIMITS: map<string, PlanLimits> := map[
    FREE := PlanLimits(Finite(10), Finite(20)),
    LITTLE_WIZARD := PlanLimits(Finite(20), Finite(30)),
    WIZARD := PlanLimits(Finite(100), Finite(200)),
    WIZARD_PRO := PlanLimits(Unlimited, Unlimited)
  ]

  /** The credit type a request names; anything but the two literals is
      unknown to the ledger. */
  function ParseCreditType(s: string): (t: Option<CreditType>)
    ensures t == Some(Doodle) <==> s == "doodle"
    ensures t == Some(Equation) <==> s == "equation"
  {
    if s == "doodle" then Some(Doodle)
    else if s == "equation" then Some(Equation)
    else None
  }

  /** The literal that names a credit type; parsing it gives the type back. */
  function TypeName(t: CreditType): (s: string)
    ensures ParseCreditType(s) == Some(t)
  {
    match t
    case Doodle => "doodle"
    case Equation => "equation"
  }

  function LimitOf(limits: PlanLimits, t: CreditType): Limit {
    match t
    case Doodle => limits.doodle
    case Equation => limits.equation
  }

  /** The properties every plain object inherits from `Object.prototype`.
      Looked up on the plan table they give a truthy value (a function, or
      the prototype itself for `__proto__`) that has no limits. */
  const INHERITED_NAMES: set<string> := {
    "constructor", "hasOwnProperty", "isPrototypeOf", "propertyIsEnumerable",
    "toLocaleString", "toString", "valueOf", "__proto__",
    "__defineGetter__", "__defineSetter__", "__lookupGetter__", "__lookupSetter__"
  }

  /** The limits of a plan: the table's entry; for an inherited name, the
      inherited value, whose limits read as `undefined`; for any other plan
      string, the free limits, since the lookup gives `undefined`. */
  function GetPlanLimits(plan: string): (l: PlanLimits)
    ensures plan == FREE ==> l == PlanLimits(Finite(10), Finite(20))
    ensures plan == LITTLE_WIZARD ==> l == PlanLimits(Finite(20), Finite(30))
    ensures plan == WIZARD ==> l == PlanLimits(Finite(100), Finite(200))
    ensures plan == WIZARD_PRO ==> l == PlanLimits(Unlimited, Unlimited)
    ensures plan !in PLAN_LIMITS && plan !in INHERITED_NAMES ==> l == PlanLimits(Finite(10), Finite(20))
    ensures l.doodle.Unlimited? <==> plan == WIZARD_PRO
    ensures l.equation.Unlimited? <==> plan == WIZARD_PRO
    ensures l.doodle.Missing? <==> plan in INHERITED_NAMES
    ensures l.equation.Missing? <==> plan in INHERITED_NAMES
  {
    if plan in PLAN_LIMITS then PLAN_LIMITS[plan]
    else if plan in INHERITED_NAMES then PlanLimits(Missing, Missing)
    else PLAN_LIMITS[FREE]
  }

  /** A plan with inherited limits admits no credit of either type, whatever
      the counter. */
  lemma InheritedPlanAdmitsNothing(plan: string, t: CreditType, used: nat)
    requires plan in INHERITED_NAMES
    ensures !LimitOf(GetPlanLimits(plan), t).Admits(used)
  {
  }

  /** The plans in ascending order of price. */
  const TIERS: seq<string> := [FREE, LITTLE_WIZARD, WIZARD, WIZARD_PRO]

  /** A dearer plan never has a smaller limit, for either credit type. */
  lemma LimitsGrowWithTier(i: nat, j: nat, t: CreditType)
    requires i <= j < |TIERS|
    ensures LimitOf(GetPlanLimits(TIERS[i]), t).AtMost(LimitOf(GetPlanLimits(TIERS[j]), t))
  {
  }
}
