/**
  The Customer model: the stored record and its derived loyalty tier.

  Money is counted in integer cents (the `annualSpend` column is a decimal
  with two fraction digits) and instants are integers on one time line.
  Calendar month arithmetic belongs to the date library; the classifier is
  handed the instants "now", "six months ago" and "twelve months ago".
 */
module CustomerModel {

  datatype Option<T> = None | Some(value: T)

  type Cents = int
  type Instant = int

  /** Spend below 1000.00 is always Silver. */
  const GoldFloor: Cents := 100000
  /** Spend of 10000.00 or more is the Platinum band. */
  const PlatinumFloor: Cents := 1000000

  datatype Tier = Silver | Gold | Platinum

  /** The labels the tier is reported under. */
  function Label(t: Tier): string
  {
    match t
    case Silver => "Silver"
    case Gold => "Gold"
    case Platinum => "Platinum"
  }

  function ParseLabel(s: string): (t: Option<Tier>)
    ensures t.Some? ==> Label(t.value) == s
  {
    if s == "Silver" then Some(Silver)
    else if s == "Gold" then Some(Gold)
    else if s == "Platinum" then Some(Platinum)
    else None
  }

  /** Every tier is reported under its own label, and the label reads back. */
  lemma LabelRoundTrip(t: Tier, u: Tier)
    ensures ParseLabel(Label(t)) == Some(t)
    ensures Label(t) == Label(u) ==> t == u
  {
  }

  /** One stored customer row, without the audit timestamps. */
  datatype Customer = Customer(
    id: string,
    name: string,
    email: string,
    annualSpend: Option<Cents>,
    lastPurchaseDate: Option<Instant>)

  /** The wall clock at the moment the tier is computed, with the two
      recency thresholds already computed by calendar arithmetic. */
  datatype Clock = Clock(now: Instant, sixMonthsAgo: Instant, twelveMonthsAgo: Instant)

  predicate Ordered(clock: Clock)
  {
    clock.twelveMonthsAgo <= clock.sixMonthsAgo <= clock.now
  }

  /** Parsing the stored date; a missing date parses to the current time,
      which is what the date library gives for a null argument. */
  function ParsedDate(date: Option<Instant>, now: Instant): Instant
  {
    match date
    case Some(d) => d
    case None => now
  }

  function Rank(t: Tier): nat
  {
    match t
    case Silver => 0
    case Gold => 1
    case Platinum => 2
  }

  /** Reference definition: the conditions a customer must meet to be
      eligible for each tier. Silver needs nothing. */
  predicate Qualifies(t: Tier, spend: Option<Cents>, purchase: Instant, clock: Clock)
  {
    match t
    case Silver => true
    case Gold =>
      spend.Some? && GoldFloor <= spend.value < PlatinumFloor && purchase >= clock.twelveMonthsAgo
    case Platinum =>
      spend.Some? && spend.value >= PlatinumFloor && purchase >= clock.sixMonthsAgo
  }

  /** The tier rule: the highest tier whose conditions the customer meets.
      The last purchase date is only parsed once spend has passed the
      Silver test. */
  function TierOf(spend: Option<Cents>, date: Option<Instant>, clock: Clock): (t: Tier)
    ensures Qualifies(t, spend, ParsedDate(date, clock.now), clock)
    ensures forall u: Tier :: Rank(u) > Rank(t) ==> !Qualifies(u, spend, ParsedDate(date, clock.now), clock)
  {
    if spend.None? || spend.value < GoldFloor then Silver
    else
      var purchase := ParsedDate(date, clock.now);
      if spend.value >= PlatinumFloor && purchase >= clock.sixMonthsAgo then Platinum
      else if spend.value >= GoldFloor && spend.value < PlatinumFloor && purchase >= clock.twelveMonthsAgo then Gold
      else Silver
  }

  /** The rule as written against a mutable date object: subtracting six
      months changes the clock itself, and that subtraction happens only when
      the spend test before it in the conjunction succeeds. The Gold test
      subtracts twelve more months from whatever the clock then holds. */
  function TierAsWritten(spend: Option<Cents>, date: Option<Instant>, now: Instant,
                         subMonths: (Instant, nat) -> Instant): Tier
  {
    if spend.None? || spend.value < GoldFloor then Silver
    else
      var purchase := ParsedDate(date, now);
      // `a && b(clock.subMonths(6))`: the right side runs only when `a` holds
      var clock := if spend.value >= PlatinumFloor then subMonths(now, 6) else now;
      if spend.value >= PlatinumFloor && purchase >= clock then Platinum
      else if spend.value >= GoldFloor && spend.value < PlatinumFloor && purchase >= subMonths(clock, 12) then Gold
      else Silver
  }

  /** The clock the rule effectively uses: both windows measured from the
      unmodified current time. */
  function ClockAt(now: Instant, subMonths: (Instant, nat) -> Instant): Clock
  {
    Clock(now, subMonths(now, 6), subMonths(now, 12))
  }

  /** The Gold window is twelve months back from the real current time, not
      eighteen: the mutating six-month subtraction only runs on a path where
      the Gold branch fails on its spend test before touching the clock. */
  lemma GoldWindowFromUnmodifiedNow(spend: Option<Cents>, date: Option<Instant>, now: Instant,
                                    subMonths: (Instant, nat) -> Instant)
    ensures TierAsWritten(spend, date, now, subMonths) == TierOf(spend, date, ClockAt(now, subMonths))
    ensures TierAsWritten(spend, date, now, subMonths) == Gold ==>
              ParsedDate(date, now) >= subMonths(now, 12)
  {
  }

  /** Null or sub-1000.00 spend is Silver whatever the date. */
  lemma LowSpendIsSilver(spend: Option<Cents>, date: Option<Instant>, clock: Clock)
    requires spend.None? || spend.value < GoldFloor
    ensures TierOf(spend, date, clock) == Silver
  {
  }

  /** Spend of 10000.00 or more with a purchase on or after the six-month
      threshold is Platinum. */
  lemma RecentHighSpendIsPlatinum(spend: Cents, purchase: Instant, clock: Clock)
    requires spend >= PlatinumFloor && purchase >= clock.sixMonthsAgo
    ensures TierOf(Some(spend), Some(purchase), clock) == Platinum
  {
  }

  /** Spend in [1000.00, 10000.00) with a purchase on or after the twelve-month
      threshold is Gold. */
  lemma RecentMidSpendIsGold(spend: Cents, purchase: Instant, clock: Clock)
    requires GoldFloor <= spend < PlatinumFloor && purchase >= clock.twelveMonthsAgo
    ensures TierOf(Some(spend), Some(purchase), clock) == Gold
  {
  }

  /** High spend with a purchase older than six months falls to Silver and
      never to Gold, however recent the purchase is within twelve months. */
  lemma StaleHighSpendIsSilver(spend: Cents, purchase: Instant, clock: Clock)
    requires spend >= PlatinumFloor && purchase < clock.sixMonthsAgo
    ensures TierOf(Some(spend), Some(purchase), clock) == Silver
  {
  }

  /** Mid spend with a purchase older than twelve months is Silver. */
  lemma StaleMidSpendIsSilver(spend: Cents, purchase: Instant, clock: Clock)
    requires GoldFloor <= spend < PlatinumFloor && purchase < clock.twelveMonthsAgo
    ensures TierOf(Some(spend), Some(purchase), clock) == Silver
  {
  }

  /** Platinum and Gold each pin the spend to their own band. */
  lemma TierImpliesSpendBand(spend: Option<Cents>, date: Option<Instant>, clock: Clock)
    ensures TierOf(spend, date, clock) == Platinum ==> spend.Some? && spend.value >= PlatinumFloor
    ensures TierOf(spend, date, clock) == Gold ==> spend.Some? && GoldFloor <= spend.value < PlatinumFloor
  {
  }

  /** A missing purchase date parses to the current time, so a customer with
      spend of at least 1000.00 and no recorded purchase is never Silver. */
  lemma MissingDateCountsAsRecent(spend: Cents, clock: Clock)
    requires Ordered(clock) && spend >= GoldFloor
    ensures TierOf(Some(spend), None, clock) == (if spend >= PlatinumFloor then Platinum else Gold)
  {
  }

  /** A later purchase never lowers the tier. */
  lemma LaterPurchaseNeverLowersTier(spend: Option<Cents>, p: Instant, q: Instant, clock: Clock)
    requires p <= q
    ensures Rank(TierOf(spend, Some(p), clock)) <= Rank(TierOf(spend, Some(q), clock))
  {
  }

  /** Higher spend can lower the tier: a purchase eight months ago is Gold at
      9999.99 but Silver at 10000.00, because Platinum's window is shorter and
      the Gold band stops at 10000.00. */
  lemma HigherSpendCanLowerTier()
    ensures exists clock: Clock, purchase: Instant ::
      Ordered(clock) &&
      TierOf(Some(PlatinumFloor - 1), Some(purchase), clock) == Gold &&
      TierOf(Some(PlatinumFloor), Some(purchase), clock) == Silver
  {
    var clock := Clock(12, 6, 0);
    assert TierOf(Some(PlatinumFloor - 1), Some(4), clock) == Gold;
    assert TierOf(Some(PlatinumFloor), Some(4), clock) == Silver;
    assert Ordered(clock) &&
      TierOf(Some(PlatinumFloor - 1), Some(4), clock) == Gold &&
      TierOf(Some(PlatinumFloor), Some(4), clock) == Silver;
  }
}
