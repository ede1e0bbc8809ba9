/** Plan detection (src/services/pricing_service.ts) and the credit status
    endpoint that uses it (src/app/api/credits/route.ts).

    The service calls Clerk's `auth()` and `has({ plan })` at the top level
    of its module, so the three answers are read once, when the module is
    first evaluated on the server, and every later request reuses them. The
    model keeps them as server state: `None` before the first evaluation,
    then the answers for whoever was signed in at that moment. */
module Pricing {
  import opened Wrappers
  import opened Plans
  import opened Credits

  /** The `PricingService` flags, also used for the plans Clerk reports held. */
  datatype PlanFlags = PlanFlags(hasLittleWizard: bool, hasWizard: bool, hasWizardPro: bool)

  /** No two flags are set. */
  predicate AtMostOneFlag(f: PlanFlags) {
    && !(f.hasLittleWizard && f.hasWizard)
    && !(f.hasLittleWizard && f.hasWizardPro)
    && !(f.hasWizard && f.hasWizardPro)
  }

  /** `pricingService`: reports one held plan, checking little_wizard first,
      then wizard, then wizard_pro. */
  function PricingService(held: PlanFlags): (r: PlanFlags)
    ensures AtMostOneFlag(r)
    ensures r.hasLittleWizard <==> held.hasLittleWizard
    ensures r.hasWizard <==> held.hasWizard && !held.hasLittleWizard
    ensures r.hasWizardPro <==> held.hasWizardPro && !held.hasWizard && !held.hasLittleWizard
  {
    if held.hasLittleWizard then PlanFlags(true, false, false)
    else if held.hasWizard then PlanFlags(false, true, false)
    else if held.hasWizardPro then PlanFlags(false, false, true)
    else PlanFlags(false, false, false)
  }

  /** The route's plan string: "free", overridden by wizard_pro, else wizard,
      else little_wizard. */
  function PlanFromFlags(f: PlanFlags): (plan: string)
    ensures plan in PLAN_LIMITS
    ensures plan == FREE <==> !f.hasLittleWizard && !f.hasWizard && !f.hasWizardPro
  {
    if f.hasWizardPro then WIZARD_PRO
    else if f.hasWizard then WIZARD
    else if f.hasLittleWizard then LITTLE_WIZARD
    else FREE
  }

  /** The plan the route resolves from a set of held plans: the two
      opposite precedence orders compose to little_wizard, then wizard, then
      wizard_pro, then free. */
  lemma EffectivePlanPrecedence(held: PlanFlags)
    ensures PlanFromFlags(PricingService(held)) ==
              if held.hasLittleWizard then LITTLE_WIZARD
              else if held.hasWizard then WIZARD
              else if held.hasWizardPro then WIZARD_PRO
              else FREE
  {
  }

  /** On one flag at most, the route's order is irrelevant: it names the flag
      that is set. */
  lemma PlanFromSingleFlag(f: PlanFlags)
    requires AtMostOneFlag(f)
    ensures f.hasLittleWizard ==> PlanFromFlags(f) == LITTLE_WIZARD
    ensures f.hasWizard ==> PlanFromFlags(f) == WIZARD
    ensures f.hasWizardPro ==> PlanFromFlags(f) == WIZARD_PRO
  {
  }

  /** What `GET /api/credits` answers. */
  datatype HttpResponse =
    | Unauthorized401                 // { error: 'Unauthorized' }, status 401
    | CreditsJson(body: CreditStatus)

  /** What the server keeps between requests: the ledger, and the flags the
      pricing module read when it was evaluated (`None` before). */
  datatype Server = Server(store: Store, flags: Option<PlanFlags>)

  /** The flags in force for a request: those read at the first evaluation,
      which is this request's own if none has happened yet. */
  function FlagsInForce(server: Server, held: PlanFlags): PlanFlags {
    if server.flags.Some? then server.flags.value else held
  }

  /** `GET`, as written: importing the route evaluates the pricing module
      once, with the plans `held` by whoever is signed in at that moment;
      later requests reuse those flags. Without a signed-in user, 401 and no
      ledger access; otherwise the credit status for the plan of the flags
      in force, returned as it is. */
  function CreditsGet(server: Server, env: Env, held: PlanFlags): (r: (Server, HttpResponse))
    ensures r.0.flags == Some(FlagsInForce(server, held))
    ensures server.flags.Some? ==> r.0.flags == server.flags
    ensures r.1.Unauthorized401? <==> env.authUserId.None? || env.authUserId.value == ""
    ensures r.1.Unauthorized401? ==> r.0.store == server.store
    ensures r.1.CreditsJson? ==>
              var status := GetUserCreditStatus(server.store, env, env.authUserId.value,
                                                PlanFromFlags(PricingService(FlagsInForce(server, held))));
              status.Success? && r == (Server(status.value.store, r.0.flags), CreditsJson(status.value.value))
  {
    var flags := FlagsInForce(server, held);
    match env.authUserId
    case None => (server.(flags := Some(flags)), Unauthorized401)
    case Some(userId) =>
      if userId == "" then (server.(flags := Some(flags)), Unauthorized401)
      else
        var status := GetUserCreditStatus(server.store, env, userId, PlanFromFlags(PricingService(flags))).value;
        (Server(status.store, Some(flags)), CreditsJson(status.value))
  }

  /** The flags outlive the request that read them: after a wizard_pro user's
      request on a fresh server, a user holding no plan is reported the
      unlimited limits of wizard_pro. */
  lemma FlagsOutliveTheirRequest(store: Store, first: Env, second: Env)
    requires first.authUserId.Some? && first.authUserId.value != ""
    requires second.authUserId.Some? && second.authUserId.value != ""
    ensures var afterFirst := CreditsGet(Server(store, None), first, PlanFlags(false, false, true)).0;
            var answer := CreditsGet(afterFirst, second, PlanFlags(false, false, false)).1;
            answer.CreditsJson? && answer.body.plan == WIZARD_PRO && answer.body.doodleLimit == Unlimited
  {
  }

  /** `GET` with the flags read for each request, from the caller's own
      session: the credit status for the plan the caller holds. */
  function CreditsGetPerRequest(store: Store, env: Env, held: PlanFlags): (r: (Store, HttpResponse))
    ensures r.1.Unauthorized401? <==> env.authUserId.None? || env.authUserId.value == ""
    ensures r.1.Unauthorized401? ==> r.0 == store
    ensures r.1.CreditsJson? ==>
              var status := GetUserCreditStatus(store, env, env.authUserId.value, PlanFromFlags(PricingService(held)));
              status.Success? && r == (status.value.store, CreditsJson(status.value.value))
  {
    match env.authUserId
    case None => (store, Unauthorized401)
    case Some(userId) =>
      if userId == "" then (store, Unauthorized401)
      else
        var status := GetUserCreditStatus(store, env, userId, PlanFromFlags(PricingService(held))).value;
        (status.store, CreditsJson(status.value))
  }

  /** Per request, the report is the caller's own: its plan is the one the
      caller's held plans resolve to, and for each credit type it shows a
      limit the caller is admitted under exactly when the ledger's credit
      check for that plan admits the caller. */
  lemma PerRequestReportIsCallers(store: Store, env: Env, held: PlanFlags, t: CreditType)
    requires env.authUserId.Some? && env.authUserId.value != ""
    ensures var r := CreditsGetPerRequest(store, env, held);
            var plan := PlanFromFlags(PricingService(held));
            var check := CanUseCredit(store, env, env.authUserId.value, plan, TypeName(t)).value;
            var limit := r.1.body.LimitFor(t);
            && r.1.CreditsJson? && r.1.body.plan == plan
            && r.0 == check.store
            && (check.value <==> limit.Unlimited? || (limit.Finite? && r.1.body.UsedOf(t) < limit.n))
  {
    StatusAgreesWithCheck(store, env, env.authUserId.value, PlanFromFlags(PricingService(held)), t);
  }

  /** The two agree on the request that evaluates the module, and on every
      request whose caller holds the plans read then. */
  lemma PerRequestAgreesWhenFlagsMatch(server: Server, env: Env, held: PlanFlags)
    requires server.flags.None? || server.flags == Some(held)
    ensures CreditsGet(server, env, held).1 == CreditsGetPerRequest(server.store, env, held).1
    ensures CreditsGet(server, env, held).0.store == CreditsGetPerRequest(server.store, env, held).0
  {
  }
}
