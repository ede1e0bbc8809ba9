/** The background-job handlers of src/inngest/functions.ts that drive the
    credit ledger: `handleUserAuth`, `handleCreditCheck` and
    `handlePaymentSuccess`. Each takes the event's data and returns the new
    store with the object the handler returns; errors thrown by the ledger are
    caught and turned into response objects, never rethrown. Calls run one
    after another. */
module CreditHandlers {
  import opened Wrappers
  import opened JsBuiltins
  import opened Plans
  import opened Credits

  /** The objects the handlers return. `StatusError` is `handleUserAuth`'s
      `{ status: "error", error }`; `Error` is `{ error, details? }`. */
  datatype Response =
    | Status(status: string)
    | StatusError(message: string)
    | Error(error: string, details: Option<string>)

  const INITIALIZED := "initialized"
  const CREDIT_INCREMENTED := "credit incremented"
  const PLAN_UPDATED := "plan updated"
  const MISSING_CREDIT_DATA := "Missing required data: userId, plan, or type"
  const MISSING_PAYMENT_DATA := "Missing required data: userId or newPlan"
  const LIMIT_REACHED := "Credit limit reached"
  const AUTH_REQUIRED := "Authentication required"
  const CHECK_FAILED := "Credit check failed"
  const UPDATE_FAILED := "Plan update failed"

  /** The catch block shared by two handlers: a message mentioning
      "Unauthorized" anywhere becomes "Authentication required" without
      details; any other message is reported under `fallback` with the
      message as details. */
  function ErrorResponse(message: string, fallback: string): (r: Response)
    ensures r.Error?
    ensures r.details.None? <==> Includes(message, "Unauthorized")
    ensures r.details.None? ==> r.error == AUTH_REQUIRED
    ensures r.details.Some? ==> r.error == fallback && r.details.value == message
  {
    if Includes(message, "Unauthorized") then Error(AUTH_REQUIRED, None)
    else Error(fallback, Some(message))
  }

  /** Every refusal of the ledger reaches the caller as "Authentication
      required". */
  lemma LedgerRefusalAsksForAuthentication(fallback: string)
    ensures ErrorResponse(UNAUTHORIZED, fallback) == Error(AUTH_REQUIRED, None)
  {
    assert UNAUTHORIZED[..|"Unauthorized"|] == "Unauthorized";
    StartsWithIncludes(UNAUTHORIZED, "Unauthorized");
  }

  /** `handleUserAuth`: a new user's account is set up through the reset check
      with plan "free"; a failure is reported, not rethrown. */
  function HandleUserAuth(store: Store, env: Env, userId: UserId): (r: (Store, Response))
    ensures r.1 == Status(INITIALIZED) <==> ValidateAuth(env, userId)
    ensures r.1 == Status(INITIALIZED) ==> userId in r.0 && r.0[userId].plan == FREE
    ensures r.1 != Status(INITIALIZED) ==> r == (store, StatusError(UNAUTHORIZED))
  {
    match CheckAndResetCredits(store, env, userId, FREE)
    case Success(step) => (step.store, Status(INITIALIZED))
    case Failure(message) => (store, StatusError(message))
  }

  /** `handleCreditCheck`: with all three fields present, a credit is taken
      (the counter raised once) exactly when the ledger admits it. */
  function HandleCreditCheck(store: Store, env: Env, userId: Option<string>, plan: Option<string>,
                             typ: Option<string>): (r: (Store, Response))
    ensures !Truthy(userId) || !Truthy(plan) || !Truthy(typ) ==>
              r == (store, Error(MISSING_CREDIT_DATA, None))
    ensures Truthy(userId) && Truthy(plan) && Truthy(typ) && !ValidateAuth(env, userId.value) ==>
              r == (store, Error(AUTH_REQUIRED, None))
    ensures Truthy(userId) && Truthy(plan) && Truthy(typ) && ValidateAuth(env, userId.value) ==>
              var allowed := CanUseCredit(store, env, userId.value, plan.value, typ.value).value;
              && (r.1 == Status(CREDIT_INCREMENTED) <==> allowed.value)
              && (allowed.value ==> r.0 == IncrementCredit(allowed.store, env, userId.value, plan.value, typ.value).value.store)
              && (!allowed.value ==> r == (allowed.store, Error(LIMIT_REACHED, None)))
  {
    if !Truthy(userId) || !Truthy(plan) || !Truthy(typ) then
      (store, Error(MISSING_CREDIT_DATA, None))
    else
      match CanUseCredit(store, env, userId.value, plan.value, typ.value)
      case Failure(message) =>
        LedgerRefusalAsksForAuthentication(CHECK_FAILED);
        (store, ErrorResponse(message, CHECK_FAILED))
      case Success(allowed) =>
        if !allowed.value then (allowed.store, Error(LIMIT_REACHED, None))
        else
          var incremented := IncrementCredit(allowed.store, env, userId.value, plan.value, typ.value).value;
          (incremented.store, Status(CREDIT_INCREMENTED))
  }

  /** `handlePaymentSuccess`: the reset check is run with the new plan, which
      then is the stored plan. */
  function HandlePaymentSuccess(store: Store, env: Env, userId: Option<string>, newPlan: Option<string>): (r: (Store, Response))
    ensures !Truthy(userId) || !Truthy(newPlan) ==> r == (store, Error(MISSING_PAYMENT_DATA, None))
    ensures r.1 == Status(PLAN_UPDATED) <==> Truthy(userId) && Truthy(newPlan) && ValidateAuth(env, userId.value)
    ensures r.1 == Status(PLAN_UPDATED) ==> userId.value in r.0 && r.0[userId.value].plan == newPlan.value
    ensures Truthy(userId) && Truthy(newPlan) && !ValidateAuth(env, userId.value) ==>
              r == (store, Error(AUTH_REQUIRED, None))
  {
    if !Truthy(userId) || !Truthy(newPlan) then
      (store, Error(MISSING_PAYMENT_DATA, None))
    else
      match CheckAndResetCredits(store, env, userId.value, newPlan.value)
      case Success(step) => (step.store, Status(PLAN_UPDATED))
      case Failure(message) =>
        LedgerRefusalAsksForAuthentication(UPDATE_FAILED);
        (store, ErrorResponse(message, UPDATE_FAILED))
  }

  /** After "plan updated", the account is settled on the new plan: a
      credit check at the same instant resets nothing, and admits a type
      exactly when the new plan's limit admits the counter the update left. */
  lemma PaymentThenCheck(store: Store, env: Env, userId: UserId, newPlan: string, t: CreditType)
    requires ValidateAuth(env, userId) && MonthMovesForward(env) && newPlan != ""
    ensures var paid := HandlePaymentSuccess(store, env, Some(userId), Some(newPlan));
            var check := CanUseCredit(paid.0, env, userId, newPlan, TypeName(t)).value;
            && paid.1 == Status(PLAN_UPDATED)
            && check.store == paid.0
            && (check.value <==> LimitOf(GetPlanLimits(newPlan), t).Admits(paid.0[userId].Used(t)))
  {
    var paid := HandlePaymentSuccess(store, env, Some(userId), Some(newPlan));
    CheckAndResetIdempotent(store, env, userId, newPlan);
    assert paid.0 == CheckAndResetCredits(store, env, userId, newPlan).value.store;
  }

  // ---------------------------------------------------------------------
  // Sequential credit checks never exceed a finite limit

  /** `n` credit-check events for the same user, plan and type handled one
      after another at the same instant: the final store and how many of them
      took a credit. */
  function RunCreditChecks(store: Store, env: Env, userId: UserId, plan: string, typ: string, n: nat): (Store, nat)
    decreases n
  {
    if n == 0 then (store, 0)
    else
      var first := HandleCreditCheck(store, env, Some(userId), Some(plan), Some(typ));
      var rest := RunCreditChecks(first.0, env, userId, plan, typ, n - 1);
      (rest.0, rest.1 + (if first.1 == Status(CREDIT_INCREMENTED) then 1 else 0))
  }

  /** After a handled credit check the caller's account is settled: it carries
      the requested plan, no reset is due, and the reset check leaves it
      alone; its counter is the post-reset one, plus one if a credit was
      taken. */
  lemma CreditCheckSettles(store: Store, env: Env, userId: UserId, plan: string, typ: string, t: CreditType)
    requires ValidateAuth(env, userId) && MonthMovesForward(env) && plan != ""
    requires ParseCreditType(typ) == Some(t)
    ensures var r := HandleCreditCheck(store, env, Some(userId), Some(plan), Some(typ));
            var c := CheckAndResetCredits(store, env, userId, plan).value.value.Used(t);
            && userId in r.0
            && CheckAndResetCredits(r.0, env, userId, plan) == Success(Step(r.0, r.0[userId]))
            && r.0[userId].Used(t) == c + (if r.1 == Status(CREDIT_INCREMENTED) then 1 else 0)
            && (r.1 == Status(CREDIT_INCREMENTED) <==> LimitOf(GetPlanLimits(plan), t).Admits(c))
  {
    var r := HandleCreditCheck(store, env, Some(userId), Some(plan), Some(typ));
    var checked := CheckAndResetCredits(store, env, userId, plan).value;
    assert !ResetDue(env, checked.value);
    assert Loaded(r.0, env, userId, plan) == r.0[userId];
  }

  /** Handled one after another, credit checks take at most as many credits as
      the finite limit leaves after the first reset check, and so never more
      than the limit itself. */
  lemma {:induction false} SequentialChecksRespectLimit(store: Store, env: Env, userId: UserId, plan: string,
                                                         typ: string, t: CreditType, limit: nat, n: nat)
    requires ValidateAuth(env, userId) && MonthMovesForward(env) && plan != ""
    requires ParseCreditType(typ) == Some(t)
    requires LimitOf(GetPlanLimits(plan), t) == Finite(limit)
    ensures var c := CheckAndResetCredits(store, env, userId, plan).value.value.Used(t);
            RunCreditChecks(store, env, userId, plan, typ, n).1 <= (if c < limit then limit - c else 0)
    ensures RunCreditChecks(store, env, userId, plan, typ, n).1 <= limit
    decreases n
  {
    if n > 0 {
      var first := HandleCreditCheck(store, env, Some(userId), Some(plan), Some(typ));
      CreditCheckSettles(store, env, userId, plan, typ, t);
      SequentialChecksRespectLimit(first.0, env, userId, plan, typ, t, limit, n - 1);
    }
  }

  /** Running the account setup over an existing paid account stores plan
      "free" in it: the handler relies on being called only at sign-up. */
  lemma UserAuthStoresFreePlan(store: Store, env: Env, userId: UserId)
    requires ValidateAuth(env, userId) && userId in store && store[userId].plan == WIZARD
    ensures HandleUserAuth(store, env, userId).0[userId].plan == FREE
  {
  }
}
