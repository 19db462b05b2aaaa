/** The premium membership and e-wallet: premium columns of the users table,
    a signup bonus, a one-time level-2 prize, wallet purchases, and the
    append-only subscription, commission and e-wallet ledgers. Money is in
    whole pesos; dates are day numbers; SQL NULL is `None`. */
module Premium {
  import opened Util

  /** The premium columns of one users-table row. */
  datatype UserRow = UserRow(
    isPremium: Option<int>,
    premiumStart: Option<int>,
    premiumEnd: Option<int>,
    totalEarnings: Option<int>,
    commissionLevel: Option<int>,
    ewalletBalance: Option<int>,
    signupBonusClaimed: Option<int>)

  /** The values `ALTER TABLE users ADD COLUMN … DEFAULT …` gives a row. */
  const DefaultRow: UserRow := UserRow(Some(0), None, None, Some(0), Some(1), Some(0), Some(0))

  /** What `get_user_premium_status` returns for a known user. */
  datatype PremiumStatus = PremiumStatus(
    isPremium: bool,
    premiumStart: Option<int>,
    premiumEnd: Option<int>,
    totalEarnings: int,
    commissionLevel: int,
    ewalletBalance: int,
    signupBonusClaimed: bool)

  /** A line of ewallet_transactions.csv. */
  datatype LedgerEntry = LedgerEntry(
    userId: int, username: string, transactionType: string, amount: int,
    description: string, balanceBefore: int, balanceAfter: int, timestamp: string)

  /** A line of commissions.csv. */
  datatype Commission = Commission(
    userId: int, username: string, amount: int, source: string, level: int,
    earningsMilestone: int, dateEarned: int, status: string)

  /** A line of premium_subscriptions.csv. */
  datatype Subscription = Subscription(
    userId: int, username: string, subscriptionType: string, startDate: int,
    endDate: int, monthlyFee: int, paymentStatus: string, createdAt: string)

  datatype PremiumState = PremiumState(
    users: map<int, UserRow>,
    subscriptions: seq<Subscription>,
    commissions: seq<Commission>,
    ledger: seq<LedgerEntry>)

  const SignupBonus: int := 200
  const MonthlyFee: int := 299
  const SubscriptionDays: int := 30
  const Level2Milestone: int := 260000
  const Level2Prize: int := 20000

  /** Python truthiness of a column value. */
  predicate Truthy(v: Option<int>)
  {
    v.Some? && v.value != 0
  }

  /** `value or default`: a NULL or a zero gives the default. */
  function OrDefault(v: Option<int>, d: int): int
  {
    if Truthy(v) then v.value else d
  }

  /** `column + amount` in SQL: NULL stays NULL. */
  function AddSql(v: Option<int>, amount: int): (r: Option<int>)
    ensures r.None? <==> v.None?
    ensures v.Some? ==> r.value == v.value + amount
  {
    if v.Some? then Some(v.value + amount) else None
  }

  /** `get_user_premium_status`: None for an unknown id; otherwise the row,
      with NULL (or zero) earnings and balance read as 0 and a NULL (or
      zero) level read as 1. */
  function Status(s: PremiumState, userId: int): (r: Option<PremiumStatus>)
    ensures r.None? <==> userId !in s.users
    ensures r.Some? ==>
      var row := s.users[userId];
      (row.totalEarnings.None? ==> r.value.totalEarnings == 0) &&
      (row.commissionLevel.None? ==> r.value.commissionLevel == 1) &&
      (row.ewalletBalance.None? ==> r.value.ewalletBalance == 0) &&
      (Truthy(row.ewalletBalance) ==> r.value.ewalletBalance == row.ewalletBalance.value) &&
      (r.value.signupBonusClaimed <==> Truthy(row.signupBonusClaimed))
  {
    if userId !in s.users then None
    else
      var row := s.users[userId];
      Some(PremiumStatus(Truthy(row.isPremium), row.premiumStart, row.premiumEnd,
                         OrDefault(row.totalEarnings, 0), OrDefault(row.commissionLevel, 1),
                         OrDefault(row.ewalletBalance, 0), Truthy(row.signupBonusClaimed)))
  }

  /** The wallet balance the status reports, 0 for an unknown user. */
  function ReportedBalance(s: PremiumState, userId: int): int
  {
    if userId in s.users then OrDefault(s.users[userId].ewalletBalance, 0) else 0
  }

  /** Transaction types that add to the wallet; every other type subtracts. */
  predicate IsCredit(transactionType: string)
  {
    transactionType == "bonus" || transactionType == "commission" || transactionType == "deposit"
  }

  /** `add_ewallet_transaction`'s entry. The balance before is read from the
      committed table, so an update made in the same call is not yet seen. */
  function LedgerRow(s: PremiumState, userId: int, username: string, transactionType: string,
                     amount: int, description: string, now: string): (e: LedgerEntry)
    ensures e.userId == userId && e.transactionType == transactionType && e.amount == amount
    ensures e.balanceBefore == ReportedBalance(s, userId)
    ensures IsCredit(transactionType) ==> e.balanceAfter == e.balanceBefore + amount
    ensures !IsCredit(transactionType) ==> e.balanceAfter == e.balanceBefore - amount
  {
    var st := Status(s, userId);
    var before := if st.Some? then st.value.ewalletBalance else 0;
    var after := if IsCredit(transactionType) then before + amount else before - amount;
    LedgerEntry(userId, username, transactionType, amount, description, before, after, now)
  }

  function AddEwalletTransaction(s: PremiumState, userId: int, username: string, transactionType: string,
                                 amount: int, description: string, now: string): (r: PremiumState)
    ensures r.users == s.users && r.subscriptions == s.subscriptions && r.commissions == s.commissions
    ensures r.ledger == s.ledger + [LedgerRow(s, userId, username, transactionType, amount, description, now)]
  {
    s.(ledger := s.ledger + [LedgerRow(s, userId, username, transactionType, amount, description, now)])
  }

  // --------------------------------------------------------- operations

  datatype Step = Step(state: PremiumState, ok: bool)

  /** `claim_signup_bonus`. Refused only when the status says the bonus was
      claimed; otherwise the row (if any) gets +200 and the flag, and a
      bonus entry is written. */
  function ClaimBonusStep(s: PremiumState, userId: int, username: string, now: string): Step
  {
    var st := Status(s, userId);
    if st.Some? && st.value.signupBonusClaimed then Step(s, false)
    else
      var users := if userId in s.users then
        s.users[userId := s.users[userId].(ewalletBalance := AddSql(s.users[userId].ewalletBalance, SignupBonus),
                                           signupBonusClaimed := Some(1))]
      else s.users;
      Step(AddEwalletTransaction(s, userId, username, "bonus", SignupBonus,
                                 "Signup bonus - Free 200 pesos", now).(users := users), true)
  }

  /** `subscribe_premium`: marks the row premium from today for 30 days and
      records the subscription at the monthly fee. */
  function SubscribeStep(s: PremiumState, userId: int, username: string, subscriptionType: string,
                            today: int, now: string): Step
  {
    var endDate := today + SubscriptionDays;
    var users := if userId in s.users then
      s.users[userId := s.users[userId].(isPremium := Some(1), premiumStart := Some(today), premiumEnd := Some(endDate))]
    else s.users;
    var sub := Subscription(userId, username, subscriptionType, today, endDate, MonthlyFee, "active", now);
    Step(s.(users := users, subscriptions := s.subscriptions + [sub]), true)
  }

  /** `add_earnings`. Comparing a NULL with a number raises, which rolls the
      update back and reports failure. Reaching 260000 below level 2 promotes
      to level 2 with a 20000 prize, a commission line and a ledger entry. */
  function EarningsStep(s: PremiumState, userId: int, username: string, amount: int,
                       today: int, now: string): Step
  {
    if userId !in s.users then Step(s, true)
    else
      var row := s.users[userId];
      var total := AddSql(row.totalEarnings, amount);
      if total.None? then Step(s, false)
      else if total.value >= Level2Milestone && row.commissionLevel.None? then Step(s, false)
      else if total.value >= Level2Milestone && row.commissionLevel.value < 2 then
        var row' := row.(totalEarnings := total, commissionLevel := Some(2),
                         ewalletBalance := AddSql(row.ewalletBalance, Level2Prize));
        var c := Commission(userId, username, Level2Prize, "level_upgrade", 2, Level2Milestone, today, "approved");
        var logged := AddEwalletTransaction(s, userId, username, "commission", Level2Prize,
                                            "Level 2 Achievement Prize - 20,000 pesos", now);
        Step(logged.(users := s.users[userId := row'], commissions := s.commissions + [c]), true)
      else
        Step(s.(users := s.users[userId := row.(totalEarnings := total)]), true)
  }

  /** `use_ewallet_for_purchase`: refused for an unknown user or when the
      reported balance is below the amount; otherwise the amount is taken
      from the wallet and a purchase entry is written. */
  function PurchaseStep(s: PremiumState, userId: int, username: string, amount: int,
                                 description: string, now: string): Step
  {
    var st := Status(s, userId);
    if st.None? || st.value.ewalletBalance < amount then Step(s, false)
    else
      var row := s.users[userId];
      var users := s.users[userId := row.(ewalletBalance := AddSql(row.ewalletBalance, -amount))];
      Step(AddEwalletTransaction(s, userId, username, "purchase", amount, description, now).(users := users), true)
  }

  // ------------------------------------------------------------ lemmas

  /** A user who has not claimed gets exactly +200 and the flag, and one
      bonus entry from the old balance to the new one; a user who has
      claimed is refused and nothing changes. */
  lemma ClaimEffect(s: PremiumState, userId: int, username: string, now: string)
    requires userId in s.users
    ensures var r := ClaimBonusStep(s, userId, username, now);
      var row := s.users[userId];
      (Truthy(row.signupBonusClaimed) ==> !r.ok && r.state == s) &&
      (!Truthy(row.signupBonusClaimed) ==>
         r.ok &&
         r.state.users.Keys == s.users.Keys &&
         r.state.users[userId].ewalletBalance == AddSql(row.ewalletBalance, SignupBonus) &&
         r.state.users[userId].signupBonusClaimed == Some(1) &&
         r.state.users[userId].totalEarnings == row.totalEarnings &&
         (forall u :: u in s.users && u != userId ==> r.state.users[u] == s.users[u]) &&
         |r.state.ledger| == |s.ledger| + 1 && r.state.ledger[..|s.ledger|] == s.ledger &&
         r.state.ledger[|s.ledger|].transactionType == "bonus" &&
         r.state.ledger[|s.ledger|].balanceAfter == OrDefault(row.ewalletBalance, 0) + SignupBonus)
  {
  }

  /** The bonus is paid at most once: a second claim by a known user is
      refused and changes nothing. */
  lemma ClaimOnce(s: PremiumState, userId: int, username: string, now: string, now2: string)
    requires userId in s.users
    ensures var first := ClaimBonusStep(s, userId, username, now);
      var second := ClaimBonusStep(first.state, userId, username, now2);
      !second.ok && second.state == first.state
  {
    ClaimEffect(s, userId, username, now);
    var first := ClaimBonusStep(s, userId, username, now);
    ClaimEffect(first.state, userId, username, now2);
  }

  /** For an id with no row the claim still succeeds: no row changes, yet a
      bonus entry from 0 to 200 is written for that id. */
  lemma ClaimUnknownUser(s: PremiumState, userId: int, username: string, now: string)
    requires userId !in s.users
    ensures var r := ClaimBonusStep(s, userId, username, now);
      r.ok && r.state.users == s.users &&
      r.state.ledger == s.ledger + [LedgerEntry(userId, username, "bonus", SignupBonus,
                                                "Signup bonus - Free 200 pesos", 0, SignupBonus, now)]
  {
  }

  /** Adding earnings to a known row with recorded earnings adds exactly the
      amount; the promotion happens exactly when the new total reaches 260000
      below level 2, and then the level becomes 2, the balance rises by 20000
      and one commission line with milestone 260000 is added. */
  lemma AddEarningsEffect(s: PremiumState, userId: int, username: string, amount: int, today: int, now: string)
    requires userId in s.users && s.users[userId].totalEarnings.Some?
    requires s.users[userId].commissionLevel.Some?
    ensures var r := EarningsStep(s, userId, username, amount, today, now);
      var row := s.users[userId];
      var total := row.totalEarnings.value + amount;
      var promoted := total >= Level2Milestone && row.commissionLevel.value < 2;
      r.ok &&
      r.state.users.Keys == s.users.Keys &&
      r.state.users[userId].totalEarnings == Some(total) &&
      (forall u :: u in s.users && u != userId ==> r.state.users[u] == s.users[u]) &&
      (promoted ==>
         r.state.users[userId].commissionLevel == Some(2) &&
         r.state.users[userId].ewalletBalance == AddSql(row.ewalletBalance, Level2Prize) &&
         r.state.commissions == s.commissions +
           [Commission(userId, username, Level2Prize, "level_upgrade", 2, Level2Milestone, today, "approved")] &&
         |r.state.ledger| == |s.ledger| + 1 &&
         r.state.ledger[|s.ledger|].balanceAfter == OrDefault(row.ewalletBalance, 0) + Level2Prize) &&
      (!promoted ==>
         r.state.users[userId] == row.(totalEarnings := Some(total)) &&
         r.state.commissions == s.commissions && r.state.ledger == s.ledger)
  {
  }

  /** A NULL in the earnings, or in the level once the milestone is reached,
      makes the comparison raise: the call fails and nothing changes. */
  lemma AddEarningsNullFails(s: PremiumState, userId: int, username: string, amount: int, today: int, now: string)
    requires userId in s.users
    requires s.users[userId].totalEarnings.None? ||
             (s.users[userId].commissionLevel.None? && s.users[userId].totalEarnings.value + amount >= Level2Milestone)
    ensures EarningsStep(s, userId, username, amount, today, now) == Step(s, false)
  {
  }

  /** The earnings of a sequence of `add_earnings` calls for one user. */
  function EarningsRun(s: PremiumState, userId: int, username: string, amounts: seq<int>,
                       today: int, now: string): PremiumState
    decreases |amounts|
  {
    if amounts == [] then s
    else EarningsRun(EarningsStep(s, userId, username, amounts[0], today, now).state,
                     userId, username, amounts[1..], today, now)
  }

  /** The user can no longer be promoted: no row, a NULL level, or level 2 or more. */
  predicate Settled(s: PremiumState, userId: int)
  {
    userId in s.users ==>
      s.users[userId].commissionLevel.None? || s.users[userId].commissionLevel.value >= 2
  }

  lemma {:induction false} SettledRunNoCommission(s: PremiumState, userId: int, username: string,
                                                  amounts: seq<int>, today: int, now: string)
    requires Settled(s, userId)
    ensures EarningsRun(s, userId, username, amounts, today, now).commissions == s.commissions
    decreases |amounts|
  {
    if amounts != [] {
      var next := EarningsStep(s, userId, username, amounts[0], today, now).state;
      assert Settled(next, userId);
      assert next.commissions == s.commissions;
      SettledRunNoCommission(next, userId, username, amounts[1..], today, now);
    }
  }

  /** Because promotion needs a level below 2 and sets it to 2, any sequence
      of `add_earnings` calls pays the level-2 commission at most once. */
  lemma {:induction false} PromotionAtMostOnce(s: PremiumState, userId: int, username: string,
                                               amounts: seq<int>, today: int, now: string)
    ensures var r := EarningsRun(s, userId, username, amounts, today, now);
      |s.commissions| <= |r.commissions| <= |s.commissions| + 1 && r.commissions[..|s.commissions|] == s.commissions
    ensures Settled(s, userId) ==> EarningsRun(s, userId, username, amounts, today, now).commissions == s.commissions
    decreases |amounts|
  {
    if Settled(s, userId) {
      SettledRunNoCommission(s, userId, username, amounts, today, now);
    } else if amounts != [] {
      var next := EarningsStep(s, userId, username, amounts[0], today, now).state;
      if next.commissions == s.commissions {
        PromotionAtMostOnce(next, userId, username, amounts[1..], today, now);
      } else {
        assert Settled(next, userId);
        SettledRunNoCommission(next, userId, username, amounts[1..], today, now);
      }
    }
  }

  /** A purchase is refused, changing nothing, for an unknown user or a
      balance below the amount; otherwise the balance falls by exactly the
      amount, never below zero, and a purchase entry is written. */
  lemma PurchaseEffect(s: PremiumState, userId: int, username: string, amount: int, description: string, now: string)
    ensures var r := PurchaseStep(s, userId, username, amount, description, now);
      ((userId !in s.users || ReportedBalance(s, userId) < amount) ==> !r.ok && r.state == s) &&
      (userId in s.users && ReportedBalance(s, userId) >= amount ==>
         r.ok &&
         r.state.users[userId].ewalletBalance == AddSql(s.users[userId].ewalletBalance, -amount) &&
         (s.users[userId].ewalletBalance.Some? ==> r.state.users[userId].ewalletBalance.value >= 0) &&
         (forall u :: u in s.users && u != userId ==> r.state.users[u] == s.users[u]) &&
         r.state.commissions == s.commissions &&
         r.state.ledger == s.ledger + [LedgerRow(s, userId, username, "purchase", amount, description, now)])
  {
  }

  /** A subscription's end date is 30 days after its start. */
  lemma SubscribeEffect(s: PremiumState, userId: int, username: string, subscriptionType: string, today: int, now: string)
    ensures var r := SubscribeStep(s, userId, username, subscriptionType, today, now);
      r.ok && r.state.ledger == s.ledger && r.state.commissions == s.commissions &&
      r.state.subscriptions == s.subscriptions +
        [Subscription(userId, username, subscriptionType, today, today + 30, 299, "active", now)] &&
      (userId in s.users ==>
         Truthy(r.state.users[userId].isPremium) &&
         r.state.users[userId].premiumEnd == Some(today + 30) &&
         r.state.users[userId].premiumStart == Some(today) &&
         r.state.users[userId].ewalletBalance == s.users[userId].ewalletBalance)
  {
  }

  // ---------------------------------------------- ledger agrees with rows

  /** The balance after the last ledger entry of a user, 0 when there is none. */
  function LastBalance(ledger: seq<LedgerEntry>, userId: int): int
    decreases |ledger|
  {
    if ledger == [] then 0
    else
      var n := |ledger| - 1;
      if ledger[n].userId == userId then ledger[n].balanceAfter else LastBalance(ledger[..n], userId)
  }

  /** Every recorded wallet balance equals the balance after its user's
      latest ledger entry (0 before the first). */
  predicate LedgerAgrees(s: PremiumState)
  {
    forall u :: u in s.users && s.users[u].ewalletBalance.Some? ==>
      LastBalance(s.ledger, u) == s.users[u].ewalletBalance.value
  }

  lemma LastBalanceAppend(ledger: seq<LedgerEntry>, e: LedgerEntry, u: int)
    ensures LastBalance(ledger + [e], u) == if e.userId == u then e.balanceAfter else LastBalance(ledger, u)
  {
    assert (ledger + [e])[..|ledger|] == ledger;
  }

  /** A fresh table with default rows and no entries agrees. */
  lemma DefaultRowsAgree(users: map<int, UserRow>)
    requires forall u :: u in users ==> users[u] == DefaultRow
    ensures LedgerAgrees(PremiumState(users, [], [], []))
  {
  }

  /** Every operation keeps the ledger in agreement with the balances. */
  lemma OperationsKeepLedgerAgreement(s: PremiumState, userId: int, username: string, amount: int,
                                      subscriptionType: string, description: string, today: int, now: string)
    requires LedgerAgrees(s)
    ensures LedgerAgrees(ClaimBonusStep(s, userId, username, now).state)
    ensures LedgerAgrees(EarningsStep(s, userId, username, amount, today, now).state)
    ensures LedgerAgrees(PurchaseStep(s, userId, username, amount, description, now).state)
    ensures LedgerAgrees(SubscribeStep(s, userId, username, subscriptionType, today, now).state)
  {
    ClaimKeepsAgreement(s, userId, username, now);
    EarningsKeepAgreement(s, userId, username, amount, today, now);
    PurchaseKeepsAgreement(s, userId, username, amount, description, now);
  }

  lemma ClaimKeepsAgreement(s: PremiumState, userId: int, username: string, now: string)
    requires LedgerAgrees(s)
    ensures LedgerAgrees(ClaimBonusStep(s, userId, username, now).state)
  {
    var c := ClaimBonusStep(s, userId, username, now).state;
    if c != s {
      var e := LedgerRow(s, userId, username, "bonus", SignupBonus, "Signup bonus - Free 200 pesos", now);
      assert c.ledger == s.ledger + [e];
      forall u | u in c.users && c.users[u].ewalletBalance.Some?
        ensures LastBalance(c.ledger, u) == c.users[u].ewalletBalance.value
      {
        LastBalanceAppend(s.ledger, e, u);
      }
    }
  }

  lemma EarningsKeepAgreement(s: PremiumState, userId: int, username: string, amount: int, today: int, now: string)
    requires LedgerAgrees(s)
    ensures LedgerAgrees(EarningsStep(s, userId, username, amount, today, now).state)
  {
    var a := EarningsStep(s, userId, username, amount, today, now).state;
    if a.ledger != s.ledger {
      var e := LedgerRow(s, userId, username, "commission", Level2Prize, "Level 2 Achievement Prize - 20,000 pesos", now);
      assert a.ledger == s.ledger + [e];
      forall u | u in a.users && a.users[u].ewalletBalance.Some?
        ensures LastBalance(a.ledger, u) == a.users[u].ewalletBalance.value
      {
        LastBalanceAppend(s.ledger, e, u);
      }
    }
  }

  lemma PurchaseKeepsAgreement(s: PremiumState, userId: int, username: string, amount: int, description: string, now: string)
    requires LedgerAgrees(s)
    ensures LedgerAgrees(PurchaseStep(s, userId, username, amount, description, now).state)
  {
    var p := PurchaseStep(s, userId, username, amount, description, now).state;
    if p != s {
      var e := LedgerRow(s, userId, username, "purchase", amount, description, now);
      assert p.ledger == s.ledger + [e];
      forall u | u in p.users && p.users[u].ewalletBalance.Some?
        ensures LastBalance(p.ledger, u) == p.users[u].ewalletBalance.value
      {
        LastBalanceAppend(s.ledger, e, u);
      }
    }
  }

  // ---------------------------------------------------- mutable database

  /** The users table and the three ledgers as they change in place. */
  class PremiumDb {
    var users: map<int, UserRow>
    var subscriptions: seq<Subscription>
    var commissions: seq<Commission>
    var ledger: seq<LedgerEntry>

    function State(): PremiumState
      reads this
    {
      PremiumState(users, subscriptions, commissions, ledger)
    }

    /** Premium columns at their defaults for the given users; empty ledgers. */
    constructor (ids: set<int>)
      ensures State() == PremiumState(map u | u in ids :: DefaultRow, [], [], [])
      ensures LedgerAgrees(State())
    {
      users := map u | u in ids :: DefaultRow;
      subscriptions := [];
      commissions := [];
      ledger := [];
    }

    method AppendLedger(userId: int, username: string, transactionType: string, amount: int,
                        description: string, committed: PremiumState, now: string)
      modifies this
      ensures State() == old(State()).(ledger := old(ledger) +
                [LedgerRow(committed, userId, username, transactionType, amount, description, now)])
    {
      ledger := ledger + [LedgerRow(committed, userId, username, transactionType, amount, description, now)];
    }

    method ClaimSignupBonus(userId: int, username: string, now: string) returns (ok: bool)
      modifies this
      ensures Step(State(), ok) == ClaimBonusStep(old(State()), userId, username, now)
    {
      var committed := State();
      var st := Status(committed, userId);
      if st.Some? && st.value.signupBonusClaimed {
        return false;
      }
      if userId in users {
        var row := users[userId];
        users := users[userId := row.(ewalletBalance := AddSql(row.ewalletBalance, SignupBonus),
                                      signupBonusClaimed := Some(1))];
      }
      AppendLedger(userId, username, "bonus", SignupBonus, "Signup bonus - Free 200 pesos", committed, now);
      return true;
    }

    method SubscribePremium(userId: int, username: string, subscriptionType: string, today: int, now: string)
      returns (ok: bool)
      modifies this
      ensures Step(State(), ok) == SubscribeStep(old(State()), userId, username, subscriptionType, today, now)
    {
      var endDate := today + SubscriptionDays;
      if userId in users {
        users := users[userId := users[userId].(isPremium := Some(1), premiumStart := Some(today),
                                                premiumEnd := Some(endDate))];
      }
      subscriptions := subscriptions +
        [Subscription(userId, username, subscriptionType, today, endDate, MonthlyFee, "active", now)];
      return true;
    }

    method AddEarnings(userId: int, username: string, amount: int, today: int, now: string) returns (ok: bool)
      modifies this
      ensures Step(State(), ok) == EarningsStep(old(State()), userId, username, amount, today, now)
    {
      if userId !in users {
        return true;
      }
      var committed := State();
      var row := users[userId];
      var total := AddSql(row.totalEarnings, amount);
      if total.None? || (total.value >= Level2Milestone && row.commissionLevel.None?) {
        return false;
      }
      if total.value >= Level2Milestone && row.commissionLevel.value < 2 {
        users := users[userId := row.(totalEarnings := total, commissionLevel := Some(2),
                                      ewalletBalance := AddSql(row.ewalletBalance, Level2Prize))];
        commissions := commissions +
          [Commission(userId, username, Level2Prize, "level_upgrade", 2, Level2Milestone, today, "approved")];
        AppendLedger(userId, username, "commission", Level2Prize,
                     "Level 2 Achievement Prize - 20,000 pesos", committed, now);
        return true;
      }
      users := users[userId := row.(totalEarnings := total)];
      return true;
    }

    method UseEwalletForPurchase(userId: int, username: string, amount: int, description: string, now: string)
      returns (ok: bool)
      modifies this
      ensures Step(State(), ok) == PurchaseStep(old(State()), userId, username, amount, description, now)
    {
      var committed := State();
      var st := Status(committed, userId);
      if st.None? || st.value.ewalletBalance < amount {
        return false;
      }
      var row := users[userId];
      users := users[userId := row.(ewalletBalance := AddSql(row.ewalletBalance, -amount))];
      AppendLedger(userId, username, "purchase", amount, description, committed, now);
      return true;
    }
  }
}
