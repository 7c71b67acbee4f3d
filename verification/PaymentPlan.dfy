/** payment_plan.py: equal monthly payments that clear a card.

    Money is in whole cents, the APR is a real percentage. The search is
    written against any predicate `clears` on payments; `MonthlyWalk` is the
    walk that ships with the module and the one `Plan` uses here. */
module PaymentPlan {
  import opened Wrappers
  import opened Rounding
  import opened Arithmetic

  const MAX_MONTHS := 600
  const SEARCH_LIMIT := 1_000_000_000_000

  // ------------------------------------------------------------- the walk

  datatype Loan = Loan(balance: int, apr: real, charges: int)

  function Rate(loan: Loan): (r: real)
    ensures 0.0 <= r
  {
    (if loan.apr > 0.0 then loan.apr else 0.0) / 1200.0
  }

  function Charges(loan: Loan): (c: nat) {
    if loan.charges > 0 then loan.charges else 0
  }

  function Interest(loan: Loan, owed: int): int {
    if owed > 0 then RoundedShare(Rate(loan), owed) else 0
  }

  /** What a payment has to cover to leave the card at exactly zero. */
  function Due(loan: Loan, owed: int): int {
    owed + Interest(loan, owed) + Charges(loan)
  }

  /** What is owed after `months` equal payments. */
  function Owed(loan: Loan, payment: int, months: nat): int {
    if months == 0 then loan.balance
    else Due(loan, Owed(loan, payment, months - 1)) - payment
  }

  function InterestPaid(loan: Loan, payment: int, months: nat): int {
    if months == 0 then 0
    else InterestPaid(loan, payment, months - 1) + Interest(loan, Owed(loan, payment, months - 1))
  }

  /** A month in plain numbers: a twelfth of the yearly rate on what is owed, to the
      nearest cent and to an even one from halfway, then the charges and the payment. */
  ghost predicate IsAMonth(loan: Loan, payment: int, owed: int, next: int) {
    var charges := if loan.charges > 0 then loan.charges else 0;
    var added := next - owed - charges + payment;
    var exactly := if owed > 0 && loan.apr > 0.0 then owed as real * loan.apr / 1200.0 else 0.0;
    && -0.5 <= exactly - added as real <= 0.5
    && (exactly - added as real == 0.5 || exactly - added as real == -0.5 ==> added % 2 == 0)
  }

  lemma MonthIs(loan: Loan, payment: int, owed: int)
    ensures IsAMonth(loan, payment, owed, Due(loan, owed) - payment)
  {
    if owed > 0 && loan.apr > 0.0 {
      InterestRounds(loan, owed);
    } else if owed > 0 {
      FreeInterest(loan, owed);
    }
  }

  lemma InterestRounds(loan: Loan, owed: int)
    requires owed > 0 && loan.apr > 0.0
    ensures
      var (exactly, added) := (owed as real * loan.apr / 1200.0, Interest(loan, owed));
      && -0.5 <= exactly - added as real <= 0.5
      && (exactly - added as real == 0.5 || exactly - added as real == -0.5 ==> added % 2 == 0)
  {
    assert Rate(loan) == loan.apr / 1200.0;
    Twelfth(loan.apr, Rate(loan), owed);
  }

  lemma Twelfth(apr: real, rate: real, owed: int)
    requires rate == apr / 1200.0
    ensures Share(rate, owed) == owed as real * apr / 1200.0
  {
  }

  /** One month after another, from the balance on. */
  ghost predicate AreMonths(loan: Loan, payment: int, after: seq<int>) {
    forall i :: 0 <= i < |after| ==>
      IsAMonth(loan, payment, if i == 0 then loan.balance else after[i - 1], after[i])
  }

  /** A month's figures leave one answer only. */
  lemma OnlyOneMonth(loan: Loan, payment: int, owed: int, next: int, other: int)
    requires IsAMonth(loan, payment, owed, next) && IsAMonth(loan, payment, owed, other)
    ensures next == other
  {
  }

  /** The interest of so many months is what the payments came to, charges apart, beyond
      what they brought the balance down. */
  ghost predicate IsInterestOf(loan: Loan, payment: int, months: nat, left: int, interest: int) {
    interest == months * (payment - if loan.charges > 0 then loan.charges else 0) - (loan.balance - left)
  }

  lemma {:induction false} InterestIs(loan: Loan, payment: int, months: nat)
    ensures IsInterestOf(loan, payment, months, Owed(loan, payment, months), InterestPaid(loan, payment, months))
  {
    if months > 0 {
      InterestIs(loan, payment, months - 1);
      var each := payment - if loan.charges > 0 then loan.charges else 0;
      assert months * each == (months - 1) * each + each;
    }
  }

  /** `after` is what is owed after each payment made, stopping at the first
      month that leaves nothing owed when `stop` says so. */
  method MonthlyWalk(loan: Loan, payment: int, months: nat, stop: bool)
    returns (after: seq<int>, interest: int)
    ensures |after| <= months
    ensures forall i :: 0 <= i < |after| ==> after[i] == Owed(loan, payment, i + 1)
    ensures interest == InterestPaid(loan, payment, |after|)
    ensures AreMonths(loan, payment, after)
    ensures |after| > 0 ==> IsInterestOf(loan, payment, |after|, after[|after| - 1], interest)
    ensures |after| < months ==> stop && |after| > 0 && after[|after| - 1] <= 0
    ensures stop ==> forall i :: 0 <= i < |after| - 1 ==> after[i] > 0
  {
    after, interest := [], 0;
    var owed := loan.balance;
    for month := 0 to months
      invariant |after| == month && owed == Owed(loan, payment, month)
      invariant forall i :: 0 <= i < month ==> after[i] == Owed(loan, payment, i + 1)
      invariant interest == InterestPaid(loan, payment, month)
      invariant stop ==> forall i :: 0 <= i < month ==> after[i] > 0
    {
      var charge := Interest(loan, owed);
      interest := interest + charge;
      owed := owed + charge + Charges(loan) - payment;
      after := after + [owed];
      if stop && owed <= 0 {
        WalkedMonths(loan, payment, after);
        return;
      }
    }
    WalkedMonths(loan, payment, after);
  }

  lemma {:induction false} WalkedMonths(loan: Loan, payment: int, after: seq<int>)
    requires forall i :: 0 <= i < |after| ==> after[i] == Owed(loan, payment, i + 1)
    ensures |after| > 0 ==>
              IsInterestOf(loan, payment, |after|, after[|after| - 1], InterestPaid(loan, payment, |after|))
    ensures AreMonths(loan, payment, after)
  {
    InterestIs(loan, payment, |after|);
    forall i | 0 <= i < |after|
      ensures IsAMonth(loan, payment, if i == 0 then loan.balance else after[i - 1], after[i])
    {
      assert i > 0 ==> after[i - 1] == Owed(loan, payment, i - 1 + 1);
      MonthIs(loan, payment, if i == 0 then loan.balance else after[i - 1]);
    }
  }

  lemma InterestMonotone(loan: Loan, less: int, more: int)
    requires less <= more
    ensures 0 <= Interest(loan, less) <= Interest(loan, more)
  {
    if less > 0 {
      RoundedShareMonotone(Rate(loan), 0, less);
    }
    if more > 0 {
      RoundedShareMonotone(Rate(loan), if less > 0 then less else 0, more);
    }
  }

  /** How far apart two payments have come: `gap` wider every month. */
  function Widened(months: nat, gap: nat): (w: nat)
    ensures months > 0 ==> gap <= w
  {
    if months == 0 then 0 else Widened(months - 1, gap) + gap
  }

  lemma {:induction false} WidenedIs(months: nat, gap: nat)
    ensures Widened(months, gap) == months * gap
  {
    if months > 0 {
      WidenedIs(months - 1, gap);
      assert months * gap == (months - 1) * gap + gap;
    }
  }

  /** A cent more each month leaves at least a cent a month less owed:
      the gap never closes, whatever the interest rounds to. */
  lemma {:induction false} GapWidens(loan: Loan, less: int, more: int, months: nat)
    requires less <= more
    ensures Owed(loan, more, months) + Widened(months, more - less) <= Owed(loan, less, months)
  {
    if months > 0 {
      GapWidens(loan, less, more, months - 1);
      InterestMonotone(loan, Owed(loan, more, months - 1), Owed(loan, less, months - 1));
    }
  }

  lemma PaidMoreOwesLess(loan: Loan, less: int, more: int, months: nat)
    requires less <= more
    ensures Owed(loan, more, months) + months * (more - less) <= Owed(loan, less, months)
    ensures Owed(loan, more, months) <= Owed(loan, less, months)
  {
    GapWidens(loan, less, more, months);
    WidenedIs(months, more - less);
  }

  lemma WalkStrictlyDecreasing(loan: Loan, less: int, more: int, months: nat)
    requires less < more && months > 0
    ensures Owed(loan, more, months) < Owed(loan, less, months)
  {
    GapWidens(loan, less, more, months);
  }

  predicate Clears(loan: Loan, payment: int, months: nat) {
    months > 0 && Owed(loan, payment, months) <= 0
  }

  ghost predicate Monotone(clears: int -> bool) {
    forall less, more :: less <= more && clears(less) ==> clears(more)
  }

  function ClearsIn(loan: Loan, months: nat): int -> bool {
    payment => Clears(loan, payment, months)
  }

  lemma ClearsInMonotone(loan: Loan, months: nat)
    ensures Monotone(ClearsIn(loan, months))
  {
    forall less, more | less <= more && ClearsIn(loan, months)(less)
      ensures ClearsIn(loan, months)(more)
    {
      GapWidens(loan, less, more, months);
    }
  }

  /** The search never looks in vain: enough money clears any card. */
  lemma SomePaymentClears(loan: Loan, months: nat, payment: int)
    requires months > 0
    requires 0 <= payment && Owed(loan, 0, months) <= payment
    ensures Clears(loan, payment, months)
  {
    GapWidens(loan, 0, payment, months);
  }

  /** Once a payment has cleared a card it goes on clearing it, so the fewest
      months is a threshold and not a gap: a payment too small to cover the
      monthly charges never clears anything owed. */
  lemma {:induction false} StaysCleared(loan: Loan, payment: int, months: nat, later: nat)
    requires loan.balance > 0
    requires Clears(loan, payment, months) && months <= later
    ensures Clears(loan, payment, later)
  {
    if payment < Charges(loan) {
      NeverClears(loan, payment, months);
    } else if months < later {
      StaysCleared(loan, payment, months, later - 1);
    }
  }

  lemma {:induction false} NeverClears(loan: Loan, payment: int, months: nat)
    requires loan.balance > 0 && payment < Charges(loan)
    ensures Owed(loan, payment, months) > 0
  {
    if months > 0 {
      NeverClears(loan, payment, months - 1);
      InterestMonotone(loan, 0, Owed(loan, payment, months - 1));
    }
  }

  // ----------------------------------------------------------- the search

  /** The first payment of the doubling series that reaches `goal`, or the
      last one inside the search limit. */
  function Reach(high: nat, goal: int): (r: nat)
    requires 0 < high <= SEARCH_LIMIT
    ensures high <= r <= SEARCH_LIMIT
    ensures goal <= r || SEARCH_LIMIT < 2 * r
    decreases SEARCH_LIMIT - high
  {
    if high >= goal || high + high > SEARCH_LIMIT then high else Reach(high + high, goal)
  }

  lemma ReachStep(high: nat, goal: int)
    requires 0 < high <= SEARCH_LIMIT
    ensures high >= goal || high + high > SEARCH_LIMIT ==> Reach(high, goal) == high
    ensures high < goal && high + high <= SEARCH_LIMIT ==> Reach(high, goal) == Reach(high + high, goal)
  {
  }

  /** The payment the doubling stops at if nothing before it clears. */
  function LastTried(ceiling: Option<int>): (r: nat)
    ensures 100 <= r <= SEARCH_LIMIT
  {
    Reach(100, if ceiling.Some? then ceiling.value else SEARCH_LIMIT)
  }

  ghost predicate IsLeast(clears: int -> bool, payment: int) {
    && 1 <= payment && clears(payment)
    && forall less :: 1 <= less < payment ==> !clears(less)
  }

  /** The second loop: halve the gap until one cent is left of it. */
  method Bisect(clears: int -> bool, from: nat, to: int) returns (high: int)
    requires Monotone(clears)
    requires from < to && clears(to) && (from > 0 ==> !clears(from))
    ensures IsLeast(clears, high)
  {
    var low := from;
    high := to;
    while high - low > 1
      invariant 0 <= low < high
      invariant clears(high) && (low > 0 ==> !clears(low))
    {
      var mid := (low + high) / 2;
      if clears(mid) {
        high := mid;
      } else {
        low := mid;
      }
    }
  }

  /** The first loop: double until something clears, or give up. */
  method Double(clears: int -> bool, ceiling: Option<int>) returns (low: int, high: int, found: bool)
    requires Monotone(clears)
    ensures found ==> 0 <= low < high && clears(high) && (low > 0 ==> !clears(low))
    ensures found <==> clears(LastTried(ceiling))
  {
    low, high := 0, 100;
    ghost var goal := if ceiling.Some? then ceiling.value else SEARCH_LIMIT;
    ghost var top := Reach(high, goal);
    assert top == LastTried(ceiling);
    while !clears(high)
      invariant 0 <= low < high <= SEARCH_LIMIT
      invariant low > 0 ==> !clears(low)
      invariant high <= top && Reach(high, goal) == top
      decreases SEARCH_LIMIT - high
    {
      ReachStep(high, goal);
      if ceiling.Some? && high >= ceiling.value {
        var limit := ceiling.value;
        if !clears(limit) {
          return low, high, false;
        }
        // Never reached: a payment at least the ceiling has just failed.
        high := limit;
        break;
      }
      low, high := high, high * 2;
      if high > SEARCH_LIMIT {
        return low, high, false;
      }
    }
    found := true;
  }

  /** least_payment: doubling, then bisection. `None` exactly when the last
      payment the doubling would try does not clear. */
  method LeastPayment(clears: int -> bool, ceiling: Option<int>) returns (least: Option<int>)
    requires Monotone(clears)
    ensures least.Some? ==> IsLeast(clears, least.value)
    ensures least.Some? <==> clears(LastTried(ceiling))
    ensures least.Some? && ceiling.Some? && ceiling.value >= 1 && clears(ceiling.value)
            ==> least.value <= ceiling.value
  {
    var low, high, found := Double(clears, ceiling);
    if !found {
      return None;
    }
    var payment := Bisect(clears, low, high);
    return Some(payment);
  }

  // ------------------------------------------------------------- the plan

  datatype Mode = MaximumPayment | NumberOfMonths | OtherMode

  datatype Refusal =
    | NothingOwed | NotWholeMonths | TooManyMonths | CouldNotWorkOut
    | NotPositive | NeverPaysOff | TooLong | NoMode

  datatype PlanResult =
    | Refused(why: Refusal)
    | Planned(payment: int, months: nat, lastPayment: int, interest: int)

  /** Paying `payment` every month but the last, and `last` then, ends at zero. */
  ghost predicate EndsAtZero(loan: Loan, payment: int, months: nat, last: int) {
    months > 0 && Due(loan, Owed(loan, payment, months - 1)) - last == 0
  }

  /** The month a payment first clears the card in. */
  ghost predicate FirstClears(loan: Loan, payment: int, months: nat) {
    Clears(loan, payment, months) && forall k :: 0 <= k < months ==> !Clears(loan, payment, k)
  }

  /** The dollars a person types, as whole cents. */
  function Cents(dollars: real): int {
    RoundHalfEven(dollars * 100.0)
  }

  lemma NoFewerMonths(loan: Loan, ceiling: int, months: nat, payment: int, fewer: nat)
    requires FirstClears(loan, ceiling, months)
    requires payment <= ceiling && fewer < months
    ensures !Clears(loan, payment, fewer)
  {
    assert !Clears(loan, ceiling, fewer);
    GapWidens(loan, payment, ceiling, fewer);
  }

  /** The last payment of a plan that clears is what is then due. It is real
      money exactly when the month before leaves more than the charges to go. */
  lemma LastPaymentPositive(loan: Loan, payment: int, months: nat)
    requires Clears(loan, payment, months)
    ensures Due(loan, Owed(loan, payment, months - 1)) <= payment
    ensures Due(loan, Owed(loan, payment, months - 1)) > 0
            <==> Owed(loan, payment, months - 1) + Charges(loan) > 0
  {
    InterestMonotone(loan, Owed(loan, payment, months - 1), Owed(loan, payment, months - 1));
  }

  lemma {:induction false} InterestPaidNonNegative(loan: Loan, payment: int, months: nat)
    ensures 0 <= InterestPaid(loan, payment, months)
  {
    if months > 0 {
      InterestPaidNonNegative(loan, payment, months - 1);
      InterestMonotone(loan, Owed(loan, payment, months - 1), Owed(loan, payment, months - 1));
    }
  }

  /** What the months mode promises for a whole number of months in range. */
  ghost predicate IsMonthsPlan(loan: Loan, months: nat, payment: int) {
    && IsLeast(ClearsIn(loan, months), payment)
    && Clears(loan, payment, months)
  }

  /** What a month sooner would have to reach for the last payment to be
      nothing: the last month's charges paid ahead as well. */
  function PaidAhead(loan: Loan, months: nat): int -> bool {
    payment => Owed(loan, payment, months) + Charges(loan) <= 0
  }

  lemma {:induction false} SameLeast(clears: int -> bool, reaches: int -> bool, payment: int)
    requires forall x :: clears(x) == reaches(x)
    ensures IsLeast(clears, payment) == IsLeast(reaches, payment)
  {
  }

  /** The last payment of a plan by months is real money exactly when being
      done a month sooner, charges and all, would have cost more a month. */
  lemma LastPaymentIsMoney(loan: Loan, months: nat, payment: int)
    requires loan.balance > 0 && IsMonthsPlan(loan, months, payment)
    ensures Due(loan, Owed(loan, payment, months - 1)) > 0
            <==> !(months >= 2 && IsLeast(PaidAhead(loan, months - 1), payment))
    ensures loan.charges <= 0 ==>
      (Due(loan, Owed(loan, payment, months - 1)) > 0
       <==> !(months >= 2 && IsMonthsPlan(loan, months - 1, payment)))
  {
    LastPaymentPositive(loan, payment, months);
    var ahead := PaidAhead(loan, months - 1);
    assert ahead(payment) <==> Owed(loan, payment, months - 1) + Charges(loan) <= 0;
    if ahead(payment) {
      forall less | 1 <= less < payment ensures !ahead(less) {
        assert !ClearsIn(loan, months)(less);
        InterestMonotone(loan, Owed(loan, less, months - 1), Owed(loan, less, months - 1));
      }
    }
    if loan.charges <= 0 && months >= 2 {
      SameLeast(ahead, ClearsIn(loan, months - 1), payment);
    }
  }

  /** The same said of the two searches: with no charges, the last payment is
      real money exactly when a month fewer costs more a month. */
  lemma SoonerCostsMore(loan: Loan, months: nat, payment: int, sooner: int)
    requires loan.balance > 0 && loan.charges <= 0 && months >= 2
    requires IsMonthsPlan(loan, months, payment) && IsMonthsPlan(loan, months - 1, sooner)
    ensures Due(loan, Owed(loan, payment, months - 1)) > 0 <==> payment < sooner
  {
    LastPaymentIsMoney(loan, months, payment);
    StaysCleared(loan, sooner, months - 1, months);
    assert ClearsIn(loan, months)(sooner);
    assert payment <= sooner;
    if payment < sooner {
      assert !ClearsIn(loan, months - 1)(payment);
      assert !IsMonthsPlan(loan, months - 1, payment);
    } else {
      assert IsMonthsPlan(loan, months - 1, payment);
    }
  }

  /** What the maximum mode promises for a ceiling that clears in time. */
  ghost predicate IsMaximumPlan(loan: Loan, ceiling: int, months: nat, payment: int) {
    && payment <= ceiling
    && FirstClears(loan, ceiling, months)
    && FirstClears(loan, payment, months)
    && (IsLeast(ClearsIn(loan, months), payment)
        || (payment == ceiling && !Clears(loan, LastTried(Some(ceiling)), months)))
  }

  method FewestMonths(loan: Loan, ceiling: int) returns (months: nat, grows: bool)
    requires loan.balance > 0
    ensures months > 0 ==> FirstClears(loan, ceiling, months)
    ensures months > 0 <==> Clears(loan, ceiling, MAX_MONTHS)
    ensures grows ==> months == 0 && Owed(loan, ceiling, MAX_MONTHS) >= Owed(loan, ceiling, 1)
    ensures months == 0 && !grows ==> Owed(loan, ceiling, MAX_MONTHS) < Owed(loan, ceiling, 1)
  {
    var owed, _ := MonthlyWalk(loan, ceiling, MAX_MONTHS, true);
    assert owed[|owed| - 1] == Owed(loan, ceiling, |owed|);
    if owed[|owed| - 1] > 0 {
      return 0, |owed| > 1 && owed[|owed| - 1] >= owed[0];
    }
    forall k | 0 <= k < |owed| ensures !Clears(loan, ceiling, k) {
      if k > 0 {
        assert owed[k - 1] == Owed(loan, ceiling, k);
      }
    }
    StaysCleared(loan, ceiling, |owed|, MAX_MONTHS);
    return |owed|, false;
  }

  method LeastForMaximum(loan: Loan, ceiling: int, months: nat) returns (payment: int)
    requires loan.balance > 0 && FirstClears(loan, ceiling, months)
    ensures IsMaximumPlan(loan, ceiling, months, payment)
    ensures Owed(loan, payment, months - 1) > 0
  {
    ClearsInMonotone(loan, months);
    var least := LeastPayment(ClearsIn(loan, months), Some(ceiling));
    payment := if least.Some? then least.value else ceiling;
    assert ClearsIn(loan, months)(ceiling);
    assert ClearsIn(loan, months)(payment);
    if ceiling < 1 {
      NothingClearsNothing(loan, ceiling, months);
    }
    FirstClearsCarries(loan, ceiling, months, payment);
  }

  lemma FirstClearsCarries(loan: Loan, ceiling: int, months: nat, payment: int)
    requires loan.balance > 0 && payment <= ceiling
    requires FirstClears(loan, ceiling, months) && Clears(loan, payment, months)
    ensures FirstClears(loan, payment, months)
    ensures Owed(loan, payment, months - 1) > 0
  {
    forall k | 0 <= k < months ensures !Clears(loan, payment, k) {
      NoFewerMonths(loan, ceiling, months, payment, k);
    }
    assert !Clears(loan, payment, months - 1);
  }

  lemma NothingClearsNothing(loan: Loan, payment: int, months: nat)
    requires loan.balance > 0 && payment <= 0
    ensures !Clears(loan, payment, months)
  {
    if payment < Charges(loan) {
      NeverClears(loan, payment, months);
    } else {
      NeverClearsUnpaid(loan, months);
    }
  }

  lemma {:induction false} NeverClearsUnpaid(loan: Loan, months: nat)
    requires loan.balance > 0
    ensures Owed(loan, 0, months) > 0
  {
    if months > 0 {
      NeverClearsUnpaid(loan, months - 1);
      InterestMonotone(loan, 0, Owed(loan, 0, months - 1));
    }
  }

  method LeastForMonths(loan: Loan, months: nat) returns (least: Option<int>)
    requires months > 0
    ensures least.Some? ==> IsMonthsPlan(loan, months, least.value)
    ensures least.Some? <==> Clears(loan, LastTried(None), months)
  {
    ClearsInMonotone(loan, months);
    least := LeastPayment(ClearsIn(loan, months), None);
    assert least.Some? ==> ClearsIn(loan, months)(least.value);
    assert ClearsIn(loan, months)(LastTried(None)) == Clears(loan, LastTried(None), months);
  }

  /** The full payment in the last month overshoots; the last one is what is due. */
  method Settle(loan: Loan, payment: int, months: nat) returns (plan: PlanResult)
    requires Clears(loan, payment, months)
    ensures plan.Planned? && plan.payment == payment && plan.months == months
    ensures plan.lastPayment <= payment
    ensures EndsAtZero(loan, payment, months, plan.lastPayment)
    ensures plan.lastPayment > 0 <==> Owed(loan, payment, months - 1) + Charges(loan) > 0
    ensures plan.interest == InterestPaid(loan, payment, months)
  {
    var owed, interest := MonthlyWalk(loan, payment, months, false);
    var over := if owed[|owed| - 1] < 0 then owed[|owed| - 1] else 0;
    assert owed[|owed| - 1] == Owed(loan, payment, months);
    LastPaymentPositive(loan, payment, months);
    InterestPaidNonNegative(loan, payment, months);
    plan := Planned(payment, months, payment + over, if interest > 0 then interest else 0);
  }

  /** What is answered when somebody names a number of months. */
  ghost predicate MonthsAnswer(loan: Loan, value: real, plan: PlanResult) {
    var months := value.Floor;
    if months < 1 || months as real != value then plan == Refused(NotWholeMonths)
    else if months > MAX_MONTHS then plan == Refused(TooManyMonths)
    else if !Clears(loan, LastTried(None), months) then plan == Refused(CouldNotWorkOut)
    else
      && plan.Planned? && plan.months == months && IsMonthsPlan(loan, months, plan.payment)
      && (plan.lastPayment > 0 <==> !(months >= 2 && IsLeast(PaidAhead(loan, months - 1), plan.payment)))
  }

  /** What is answered when somebody names the most they can pay. */
  ghost predicate MaximumAnswer(loan: Loan, value: real, plan: PlanResult) {
    var ceiling := Cents(value);
    if value <= 0.0 then plan == Refused(NotPositive)
    else if !Clears(loan, ceiling, MAX_MONTHS) then
      plan == Refused(if Owed(loan, ceiling, MAX_MONTHS) >= Owed(loan, ceiling, 1) then NeverPaysOff else TooLong)
    else
      plan.Planned? && IsMaximumPlan(loan, ceiling, plan.months, plan.payment) && 0 < plan.lastPayment
  }

  ghost predicate EndsExactly(loan: Loan, plan: PlanResult) {
    plan.Planned? ==>
      && plan.lastPayment <= plan.payment
      && EndsAtZero(loan, plan.payment, plan.months, plan.lastPayment)
      && plan.interest == InterestPaid(loan, plan.payment, plan.months)
  }

  method PlanForMonths(loan: Loan, value: real) returns (plan: PlanResult)
    requires loan.balance > 0
    ensures MonthsAnswer(loan, value, plan) && EndsExactly(loan, plan)
  {
    var months := value.Floor;
    if months < 1 || months as real != value {
      return Refused(NotWholeMonths);
    }
    if months > MAX_MONTHS {
      return Refused(TooManyMonths);
    }
    var least := LeastForMonths(loan, months);
    if least.None? {
      return Refused(CouldNotWorkOut);
    }
    plan := Settle(loan, least.value, months);
    LastPaymentIsMoney(loan, months, least.value);
  }

  method PlanForMaximum(loan: Loan, value: real) returns (plan: PlanResult)
    requires loan.balance > 0
    ensures MaximumAnswer(loan, value, plan) && EndsExactly(loan, plan)
  {
    if value <= 0.0 {
      return Refused(NotPositive);
    }
    var ceiling := Cents(value);
    var months, grows := FewestMonths(loan, ceiling);
    if months == 0 {
      return Refused(if grows then NeverPaysOff else TooLong);
    }
    var payment := LeastForMaximum(loan, ceiling, months);
    plan := Settle(loan, payment, months);
  }

  /** What the doubling tries last with no ceiling: over eight thousand million a month. */
  lemma LastTriedIs()
    ensures LastTried(None) == 858_993_459_200
  {
    FourDoublings(100);
    FourDoublings(1_600);
    FourDoublings(25_600);
    FourDoublings(409_600);
    FourDoublings(6_553_600);
    FourDoublings(104_857_600);
    FourDoublings(1_677_721_600);
    FourDoublings(26_843_545_600);
    ReachStep(429_496_729_600, SEARCH_LIMIT);
    ReachStep(858_993_459_200, SEARCH_LIMIT);
  }

  lemma FourDoublings(high: nat)
    requires 0 < high && 16 * high <= SEARCH_LIMIT
    ensures Reach(high, SEARCH_LIMIT) == Reach(16 * high, SEARCH_LIMIT)
  {
    ReachStep(high, SEARCH_LIMIT);
    ReachStep(2 * high, SEARCH_LIMIT);
    ReachStep(4 * high, SEARCH_LIMIT);
    ReachStep(8 * high, SEARCH_LIMIT);
  }

  /** A plan paid out: the months as they go, the last payment leaving nothing, and
      interest for all that was paid beyond the balance and the charges. */
  lemma PlanPaidOut(loan: Loan, plan: PlanResult) returns (after: seq<int>)
    requires plan.Planned? && EndsExactly(loan, plan)
    ensures |after| == plan.months - 1 && AreMonths(loan, plan.payment, after)
    ensures IsAMonth(loan, plan.lastPayment, if after == [] then loan.balance else after[|after| - 1], 0)
    ensures plan.interest
         == (plan.months - 1) * plan.payment + plan.lastPayment - loan.balance
            - plan.months * (if loan.charges > 0 then loan.charges else 0)
  {
    var months, charges := plan.months, if loan.charges > 0 then loan.charges else 0;
    after := seq(months - 1, i requires 0 <= i < months - 1 => Owed(loan, plan.payment, i + 1));
    WalkedMonths(loan, plan.payment, after);
    MonthIs(loan, plan.lastPayment, Owed(loan, plan.payment, months - 1));
    InterestIs(loan, plan.payment, months);
    Altogether(months, plan.payment, charges);
  }

  lemma Altogether(months: int, payment: int, charges: int)
    ensures months * (payment - charges) == (months - 1) * payment + payment - months * charges
  {
  }

  /** In one month: the balance, its interest and its charges. */
  lemma OneMonthPlan(loan: Loan, payment: int)
    requires loan.balance > 0 && IsMonthsPlan(loan, 1, payment)
    ensures IsAMonth(loan, payment, loan.balance, 0)
  {
    AfterOneMonth(loan, payment);
    AfterOneMonth(loan, payment - 1);
    assert payment > 1 ==> !ClearsIn(loan, 1)(payment - 1);
    MonthIs(loan, payment, loan.balance);
  }

  lemma AfterOneMonth(loan: Loan, payment: int)
    requires loan.balance > 0
    ensures ClearsIn(loan, 1)(payment) <==> Due(loan, loan.balance) <= payment
    ensures Due(loan, loan.balance) >= loan.balance
  {
    assert Owed(loan, payment, 0) == loan.balance;
    InterestMonotone(loan, loan.balance, loan.balance);
  }

  method Plan(loan: Loan, mode: Mode, value: real) returns (plan: PlanResult)
    ensures plan == Refused(NothingOwed) <==> loan.balance <= 0
    ensures plan == Refused(NoMode) <==> loan.balance > 0 && mode == OtherMode
    ensures plan == Refused(NotWholeMonths)
            <==> loan.balance > 0 && mode == NumberOfMonths && (value < 1.0 || value.Floor as real != value)
    ensures plan == Refused(TooManyMonths)
            <==> loan.balance > 0 && mode == NumberOfMonths && value.Floor as real == value && value > 600.0
    ensures plan == Refused(NotPositive) <==> loan.balance > 0 && mode == MaximumPayment && value <= 0.0
    ensures plan.Planned? && mode == NumberOfMonths ==> plan.months as real == value
    ensures plan.Planned? && mode == MaximumPayment ==>
              plan.payment as real <= value * 100.0 + 0.5 && plan.months <= 600
    ensures loan.balance > 0 ==>
      match mode
      case NumberOfMonths => MonthsAnswer(loan, value, plan)
      case MaximumPayment => MaximumAnswer(loan, value, plan)
      case OtherMode => plan == Refused(NoMode)
    ensures EndsExactly(loan, plan)
  {
    if loan.balance <= 0 {
      return Refused(NothingOwed);
    }
    match mode {
      case NumberOfMonths => plan := PlanForMonths(loan, value);
      case MaximumPayment => plan := PlanForMaximum(loan, value);
      case OtherMode => return Refused(NoMode);
    }
  }

  /** In the maximum mode no payment the person could make clears the card sooner. */
  lemma MaximumPlanIsFastest(loan: Loan, ceiling: int, months: nat, payment: int, other: int, fewer: nat)
    requires IsMaximumPlan(loan, ceiling, months, payment)
    requires other <= ceiling && Clears(loan, other, fewer)
    ensures months <= fewer
  {
    if fewer < months {
      NoFewerMonths(loan, ceiling, months, other, fewer);
    }
  }

  /** Asking for more time never asks for more money a month. */
  lemma MoreMonthsCostNoMoreAMonth(loan: Loan, months: nat, payment: int, longer: nat, relaxed: int)
    requires loan.balance > 0 && months <= longer
    requires IsMonthsPlan(loan, months, payment) && IsMonthsPlan(loan, longer, relaxed)
    ensures relaxed <= payment
  {
    StaysCleared(loan, payment, months, longer);
    assert ClearsIn(loan, longer)(payment);
  }

  lemma {:induction false} FreeLoan(loan: Loan, payment: int, months: nat)
    requires loan.apr <= 0.0 && loan.charges <= 0
    ensures Owed(loan, payment, months) == loan.balance - months * payment
  {
    if months > 0 {
      FreeLoan(loan, payment, months - 1);
      FreeInterest(loan, Owed(loan, payment, months - 1));
      assert months * payment == (months - 1) * payment + payment;
    }
  }

  /** With neither interest nor charges the condition is plain division: the
      balance in equal parts rounded up, and a last part worth paying. */
  lemma FreePlan(loan: Loan, months: nat, payment: int)
    requires loan.balance > 0 && loan.apr <= 0.0 && loan.charges <= 0
    requires IsMonthsPlan(loan, months, payment)
    ensures payment == (loan.balance + months - 1) / months
    ensures EndsAtZero(loan, payment, months, loan.balance - (months - 1) * payment)
  {
    FreeLoan(loan, payment, months - 1);
    FreeLoan(loan, payment, months);
    FreeInterest(loan, Owed(loan, payment, months - 1));
    FreeLoan(loan, payment - 1, months);
    assert payment > 1 ==> !ClearsIn(loan, months)(payment - 1);
    var over := loan.balance + months - 1 - payment * months;
    assert months * (payment - 1) == payment * months - months;
    DivisionUnique(loan.balance + months - 1, months, payment, over);
  }

  /** A thousand over fifty years: 1.67 a month, and 0.33 back at the end. */
  lemma ThousandOverFiftyYears(payment: int)
    requires IsMonthsPlan(Loan(100_000, 0.0, 0), 600, payment)
    ensures payment == 167 && EndsAtZero(Loan(100_000, 0.0, 0), payment, 600, -33)
  {
    FreePlan(Loan(100_000, 0.0, 0), 600, payment);
  }

  lemma FreeInterest(loan: Loan, owed: int)
    requires loan.apr <= 0.0
    ensures Interest(loan, owed) == 0
  {
    if owed > 0 {
      ShareMonotone(0.0, 0, owed);
      assert Share(Rate(loan), owed) == 0.0;
    }
  }
}
