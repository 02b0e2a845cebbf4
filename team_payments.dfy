/**
 * The checkout-session request built when a team subscription is purchased. The
 * payment processor's API is not modelled: what is modelled is the request record
 * handed to it, built from the four arguments and the configuration.
 */
module TeamPayments {
  import opened Wrappers

  datatype BillingFrequency = Monthly | Yearly

  /** The configuration: the two price ids read from the environment (unset variables
      are undefined) and the application's base URL. */
  datatype Config = Config(monthlyPriceId: Option<string>, yearlyPriceId: Option<string>, calUrl: string)

  datatype LineItem = LineItem(price: Option<string>, quantity: int)

  datatype TeamMetadata = TeamMetadata(teamId: nat)

  datatype SubscriptionData = SubscriptionData(metadata: TeamMetadata)

  datatype CheckoutSessionRequest = CheckoutSessionRequest(
    mode: string,
    successUrl: string,
    cancelUrl: string,
    lineItems: seq<LineItem>,
    customerEmail: string,
    metadata: TeamMetadata,
    paymentMethodTypes: seq<string>,
    subscriptionData: SubscriptionData)

  // ---------------------------------------------------------------------------
  // Decimal rendering of the team id, as a template literal renders an integer below 10^21

  predicate IsDigit(c: char)
  {
    '0' <= c <= '9'
  }

  predicate AllDigits(s: string)
  {
    forall i | 0 <= i < |s| :: IsDigit(s[i])
  }

  function DigitChar(d: nat): (c: char)
    requires d < 10
    ensures IsDigit(c) && c as int - '0' as int == d
  {
    ('0' as int + d) as char
  }

  /** The decimal digits of `n`: at least one, and no leading zero. */
  function Decimal(n: nat): (s: string)
    ensures |s| > 0 && AllDigits(s)
    ensures s[0] == '0' ==> s == "0"
  {
    if n < 10 then [DigitChar(n)] else Decimal(n / 10) + [DigitChar(n % 10)]
  }

  /** The number a string of digits denotes. */
  function DecimalValue(s: string): nat
    requires AllDigits(s)
  {
    if s == [] then 0 else DecimalValue(s[..|s| - 1]) * 10 + (s[|s| - 1] as int - '0' as int)
  }

  lemma {:induction false} DecimalRoundTrip(n: nat)
    ensures DecimalValue(Decimal(n)) == n
  {
    var s := Decimal(n);
    if n >= 10 {
      DecimalRoundTrip(n / 10);
      assert s[..|s| - 1] == Decimal(n / 10);
    }
  }

  /** Different ids render differently. */
  lemma DecimalInjective(m: nat, n: nat)
    requires Decimal(m) == Decimal(n)
    ensures m == n
  {
    DecimalRoundTrip(m);
    DecimalRoundTrip(n);
  }

  // ---------------------------------------------------------------------------
  // The redirect URLs

  const TeamsPath := "/settings/teams/"
  const ProfilePath := "/profile"
  const CancelPath := "/settings/profile"

  /** The team id a success URL for `base` names, if it is one. */
  function TeamIdFromSuccessUrl(base: string, url: string): Option<nat>
  {
    var prefix := base + TeamsPath;
    if |url| > |prefix| + |ProfilePath| && url[..|prefix|] == prefix
      && url[|url| - |ProfilePath|..] == ProfilePath && AllDigits(url[|prefix|..|url| - |ProfilePath|])
    then Some(DecimalValue(url[|prefix|..|url| - |ProfilePath|]))
    else None
  }

  /** The team's profile page under `base`; the team id can be read back from it. */
  function SuccessUrl(base: string, teamId: nat): (url: string)
    ensures url == base + TeamsPath + Decimal(teamId) + ProfilePath
    ensures TeamIdFromSuccessUrl(base, url) == Some(teamId)
  {
    var url := base + TeamsPath + Decimal(teamId) + ProfilePath;
    var prefix := base + TeamsPath;
    assert url[..|prefix|] == prefix;
    assert url[|url| - |ProfilePath|..] == ProfilePath;
    assert url[|prefix|..|url| - |ProfilePath|] == Decimal(teamId);
    DecimalRoundTrip(teamId);
    url
  }

  // ---------------------------------------------------------------------------
  // The request

  /**
   * The request for a team subscription: one line item priced by the frequency's id
   * and sized by `seats` (taken as given, without any check), the team id in the
   * session's and the subscription's metadata, card payment only.
   */
  function CheckoutRequest(teamId: nat, billingFrequency: BillingFrequency, seats: int, email: string, config: Config)
    : (r: CheckoutSessionRequest)
    ensures r.mode == "subscription"
    ensures r.successUrl == SuccessUrl(config.calUrl, teamId)
    ensures r.cancelUrl == config.calUrl + CancelPath
    ensures |r.lineItems| == 1 && r.lineItems[0].quantity == seats
    ensures billingFrequency == Monthly ==> r.lineItems[0].price == config.monthlyPriceId
    ensures billingFrequency == Yearly ==> r.lineItems[0].price == config.yearlyPriceId
    ensures r.customerEmail == email
    ensures r.metadata.teamId == teamId && r.subscriptionData.metadata.teamId == teamId
    ensures r.paymentMethodTypes == ["card"]
  {
    CheckoutSessionRequest(
      mode := "subscription",
      successUrl := SuccessUrl(config.calUrl, teamId),
      cancelUrl := config.calUrl + CancelPath,
      lineItems := [LineItem(
        price := if billingFrequency == Monthly then config.monthlyPriceId else config.yearlyPriceId,
        quantity := seats)],
      customerEmail := email,
      metadata := TeamMetadata(teamId),
      paymentMethodTypes := ["card"],
      subscriptionData := SubscriptionData(TeamMetadata(teamId)))
  }

  /** The cancel URL is the same for every team, frequency, seat count and email. */
  lemma CancelUrlIgnoresPurchase(t1: nat, f1: BillingFrequency, n1: int, m1: string,
                                 t2: nat, f2: BillingFrequency, n2: int, m2: string, config: Config)
    ensures CheckoutRequest(t1, f1, n1, m1, config).cancelUrl == CheckoutRequest(t2, f2, n2, m2, config).cancelUrl
  {
  }

  /** Purchases for different teams never share a success URL. */
  lemma SuccessUrlNamesTeam(t1: nat, f1: BillingFrequency, n1: int, m1: string,
                            t2: nat, f2: BillingFrequency, n2: int, m2: string, config: Config)
    requires t1 != t2
    ensures CheckoutRequest(t1, f1, n1, m1, config).successUrl != CheckoutRequest(t2, f2, n2, m2, config).successUrl
  {
    var u1 := CheckoutRequest(t1, f1, n1, m1, config).successUrl;
    var u2 := CheckoutRequest(t2, f2, n2, m2, config).successUrl;
    assert TeamIdFromSuccessUrl(config.calUrl, u1) != TeamIdFromSuccessUrl(config.calUrl, u2);
  }

  /** Team 42, monthly, three seats: the monthly price, quantity 3, and team 42's profile page. */
  lemma ExampleMonthlyTeam42(config: Config)
    ensures var r := CheckoutRequest(42, Monthly, 3, "a@b.com", config);
      && r.lineItems == [LineItem(config.monthlyPriceId, 3)]
      && r.successUrl == config.calUrl + "/settings/teams/42/profile"
      && r.cancelUrl == config.calUrl + "/settings/profile"
      && r.metadata == TeamMetadata(42) && r.subscriptionData.metadata == TeamMetadata(42)
  {
    assert Decimal(42) == "42";
  }
}
