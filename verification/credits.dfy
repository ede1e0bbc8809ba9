/** The per-user credit ledger of src/services/credits_service.ts.

    Persistence is a map from user id to account; a call takes the store and
    returns the new store with its result. Clerk's `auth()` is the
    `authUserId` of the environment (`None` when it yields no user or throws),
    `new Date()` is `now`, and date-fns `addMonths(t, 1)` is the function
    `oneMonthAfter`, left abstract. A thrown `Error` is a `Failure` carrying
    its message; a failing call leaves the store as it was. */
module Credits {
  import opened Wrappers
  import opened Plans

  type UserId = string
  type Timestamp = int

  /** A `userCredits` row. */
  datatype Account = Account(plan: string, doodleCredits: nat, equationCredits: nat, lastReset: Timestamp) {

    /** The counter of one credit type. */
    function Used(t: CreditType): nat {
      match t
      case Doodle => doodleCredits
      case Equation => equationCredits
    }
  }

  type Store = map<UserId, Account>

  /** What a ledger call observes of the world. */
  datatype Env = Env(authUserId: Option<UserId>, now: Timestamp, oneMonthAfter: Timestamp -> Timestamp)

  /** A successful call: the store afterwards and the value returned. */
  datatype Step<T> = Step(store: Store, value: T)

  type Reply<T> = Result<Step<T>, string>

  const UNAUTHORIZED := "Unauthorized" + ": User must be authenticated to access credits"

  /** The month after `now` does not lie before `now`, as holds of calendar
      month addition. */
  predicate MonthMovesForward(env: Env) {
    env.oneMonthAfter(env.now) >= env.now
  }

  /** `validateAuth`: the authenticated id is present, non-empty and equal to
      the id asked about. */
  predicate ValidateAuth(env: Env, userId: UserId) {
    env.authUserId == Some(userId) && userId != ""
  }

  /** The account a call works on: the stored one, or the record lazy creation
      would insert. */
  function Loaded(store: Store, env: Env, userId: UserId, plan: string): Account {
    if userId in store then store[userId] else Account(plan, 0, 0, env.now)
  }

  /** `isAfter(now, addMonths(lastReset, 1))`: strictly more than a month has
      passed since the last reset. */
  predicate ResetDue(env: Env, a: Account) {
    env.now > env.oneMonthAfter(a.lastReset)
  }

  /** `getOrCreateUserCredits`: the caller's record, inserted with zero
      counters, the given plan and `lastReset = now` on first access. */
  function GetOrCreateUserCredits(store: Store, env: Env, userId: UserId, plan: string): (r: Reply<Account>)
    ensures r.Success? <==> ValidateAuth(env, userId)
    ensures r.Failure? ==> r.error == UNAUTHORIZED
    ensures r.Success? ==> userId in r.value.store && r.value.store == store[userId := r.value.value]
    ensures r.Success? && userId in store ==> r.value.store == store
    ensures r.Success? && userId !in store ==> r.value.value == Account(plan, 0, 0, env.now)
  {
    if !ValidateAuth(env, userId) then Failure(UNAUTHORIZED)
    else if userId in store then Success(Step(store, store[userId]))
    else
      var created := Account(plan, 0, 0, env.now);
      Success(Step(store[userId := created], created))
  }

  /** `checkAndResetCredits`: after lazy creation, a due reset zeroes both
      counters, stamps `now` and takes the given plan; otherwise only a
      differing plan is replaced. */
  function CheckAndResetCredits(store: Store, env: Env, userId: UserId, plan: string): (r: Reply<Account>)
    ensures r.Success? <==> ValidateAuth(env, userId)
    ensures r.Failure? ==> r.error == UNAUTHORIZED
    ensures r.Success? ==> r.value.store == store[userId := r.value.value]
    // whichever branch is taken, the stored plan is the one supplied
    ensures r.Success? ==> r.value.value.plan == plan
    ensures r.Success? && ResetDue(env, Loaded(store, env, userId, plan)) ==>
              r.value.value == Account(plan, 0, 0, env.now)
    ensures r.Success? && !ResetDue(env, Loaded(store, env, userId, plan)) ==>
              r.value.value == Loaded(store, env, userId, plan).(plan := plan)
  {
    var loaded :- GetOrCreateUserCredits(store, env, userId, plan);
    var a := loaded.value;
    if ResetDue(env, a) then
      var reset := Account(plan, 0, 0, env.now);
      Success(Step(loaded.store[userId := reset], reset))
    else if a.plan != plan then
      var updated := a.(plan := plan);
      Success(Step(loaded.store[userId := updated], updated))
    else
      Success(loaded)
  }

  /** `canUseCredit`: after the reset check, a known credit type may be used
      when its counter is below the limit of the given plan, always when that
      limit is unlimited; an unknown type never may. */
  function CanUseCredit(store: Store, env: Env, userId: UserId, plan: string, typ: string): (r: Reply<bool>)
    ensures r.Success? <==> ValidateAuth(env, userId)
    ensures r.Failure? ==> r.error == UNAUTHORIZED
    ensures r.Success? ==>
              var checked := CheckAndResetCredits(store, env, userId, plan).value;
              && r.value.store == checked.store
              && (r.value.value <==>
                    ParseCreditType(typ).Some? &&
                    LimitOf(GetPlanLimits(plan), ParseCreditType(typ).value).Admits(checked.value.Used(ParseCreditType(typ).value)))
  {
    if !ValidateAuth(env, userId) then Failure(UNAUTHORIZED)
    else
      var checked := CheckAndResetCredits(store, env, userId, plan).value;
      var limits := GetPlanLimits(plan);
      var allowed :=
        if typ == "doodle" then limits.doodle.Admits(checked.value.doodleCredits)
        else if typ == "equation" then limits.equation.Admits(checked.value.equationCredits)
        else false;
      Success(Step(checked.store, allowed))
  }

  /** `incrementCredit`: after the reset check, the counter of the named type
      goes up by one; the other counter, the plan and `lastReset` stay. */
  function IncrementCredit(store: Store, env: Env, userId: UserId, plan: string, typ: string): (r: Reply<()>)
    ensures r.Success? <==> ValidateAuth(env, userId)
    ensures r.Failure? ==> r.error == UNAUTHORIZED
    ensures r.Success? ==>
              var checked := CheckAndResetCredits(store, env, userId, plan).value;
              userId in r.value.store &&
              var a := r.value.store[userId];
              && r.value.store == checked.store[userId := a]
              && a.plan == checked.value.plan
              && a.lastReset == checked.value.lastReset
              && (forall t :: a.Used(t) == checked.value.Used(t) + (if ParseCreditType(typ) == Some(t) then 1 else 0))
  {
    if !ValidateAuth(env, userId) then Failure(UNAUTHORIZED)
    else
      var checked := CheckAndResetCredits(store, env, userId, plan).value;
      var a := checked.value;
      if typ == "doodle" then
        Success(Step(checked.store[userId := a.(doodleCredits := a.doodleCredits + 1)], ()))
      else if typ == "equation" then
        Success(Step(checked.store[userId := a.(equationCredits := a.equationCredits + 1)], ()))
      else
        Success(Step(checked.store, ()))
  }

  /** The usage report shown in the UI. */
  datatype CreditStatus = CreditStatus(doodleUsed: nat, doodleLimit: Limit, equationUsed: nat, equationLimit: Limit, plan: string) {

    /** The reported count of one credit type. */
    function UsedOf(t: CreditType): nat {
      match t
      case Doodle => doodleUsed
      case Equation => equationUsed
    }

    /** The reported limit of one credit type. */
    function LimitFor(t: CreditType): Limit {
      match t
      case Doodle => doodleLimit
      case Equation => equationLimit
    }
  }

  /** `getUserCreditStatus`: the post-reset counters, the limits of the given
      plan, and that plan echoed back. */
  function GetUserCreditStatus(store: Store, env: Env, userId: UserId, plan: string): (r: Reply<CreditStatus>)
    ensures r.Success? <==> ValidateAuth(env, userId)
    ensures r.Failure? ==> r.error == UNAUTHORIZED
    ensures r.Success? ==>
              var checked := CheckAndResetCredits(store, env, userId, plan).value;
              && r.value.store == checked.store
              && r.value.value.doodleUsed == checked.value.doodleCredits
              && r.value.value.equationUsed == checked.value.equationCredits
              && r.value.value.doodleLimit == GetPlanLimits(plan).doodle
              && r.value.value.equationLimit == GetPlanLimits(plan).equation
              && r.value.value.plan == plan
  {
    if !ValidateAuth(env, userId) then Failure(UNAUTHORIZED)
    else
      var checked := CheckAndResetCredits(store, env, userId, plan).value;
      var limits := GetPlanLimits(plan);
      Success(Step(checked.store, CreditStatus(checked.value.doodleCredits, limits.doodle,
                                               checked.value.equationCredits, limits.equation, plan)))
  }

  // ---------------------------------------------------------------------
  // Properties of the ledger

  /** A first access never resets: the new record has zero counters, the given
      plan and `lastReset = now`. */
  lemma FirstAccessStartsEmpty(store: Store, env: Env, userId: UserId, plan: string)
    requires ValidateAuth(env, userId) && MonthMovesForward(env)
    requires userId !in store
    ensures CheckAndResetCredits(store, env, userId, plan).value.value == Account(plan, 0, 0, env.now)
  {
  }

  /** Checking twice at the same instant is checking once: a reset stamps
      `now`, which is not more than a month before `now`. */
  lemma CheckAndResetIdempotent(store: Store, env: Env, userId: UserId, plan: string)
    requires ValidateAuth(env, userId) && MonthMovesForward(env)
    ensures var once := CheckAndResetCredits(store, env, userId, plan).value;
            CheckAndResetCredits(once.store, env, userId, plan) == Success(once)
  {
    var once := CheckAndResetCredits(store, env, userId, plan).value;
    assert Loaded(once.store, env, userId, plan) == once.value;
  }

  /** A reset is the only way counters go down, and it only happens once the
      month is over. */
  lemma CountersDropOnlyOnReset(store: Store, env: Env, userId: UserId, plan: string, t: CreditType)
    requires ValidateAuth(env, userId) && userId in store
    ensures var after := CheckAndResetCredits(store, env, userId, plan).value.value;
            after.Used(t) < store[userId].Used(t) ==>
              ResetDue(env, store[userId]) && after.Used(t) == 0 && after.lastReset == env.now
  {
  }

  /** The unlimited plan admits every known credit type whatever the counters
      (say, after ten thousand increments). */
  lemma UnlimitedPlanAlwaysAdmits(store: Store, env: Env, userId: UserId, typ: string)
    requires ValidateAuth(env, userId)
    requires typ == "doodle" || typ == "equation"
    ensures CanUseCredit(store, env, userId, WIZARD_PRO, typ).value.value
  {
  }

  /** The report and the check agree: asked at the same instant, a credit
      type is admitted exactly when its reported limit is unlimited or a
      finite number above its reported count; and both leave the same store. */
  lemma StatusAgreesWithCheck(store: Store, env: Env, userId: UserId, plan: string, t: CreditType)
    requires ValidateAuth(env, userId)
    ensures var status := GetUserCreditStatus(store, env, userId, plan).value;
            var check := CanUseCredit(store, env, userId, plan, TypeName(t)).value;
            var limit := status.value.LimitFor(t);
            && status.store == check.store
            && (check.value <==> limit.Unlimited? || (limit.Finite? && status.value.UsedOf(t) < limit.n))
  {
  }

  /** A free account that has used its ten doodle credits is refused; once
      more than a month has passed since its last reset, the same request
      resets it and is admitted. */
  lemma FreeQuotaAndMonthlyReset(env: Env, userId: UserId, lastReset: Timestamp)
    requires ValidateAuth(env, userId)
    ensures var store := map[userId := Account(FREE, 10, 0, lastReset)];
            var r := CanUseCredit(store, env, userId, FREE, "doodle").value;
            && (!ResetDue(env, store[userId]) ==> !r.value && r.store == store)
            && (ResetDue(env, store[userId]) ==> r.value && r.store[userId] == Account(FREE, 0, 0, env.now))
  {
  }
}
