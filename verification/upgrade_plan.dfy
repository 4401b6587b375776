/**
 * The plan-upgrade page: a fixed table of three plans, each with a call-to-action
 * button that is disabled for the current plan and otherwise dispatches on its
 * text, and a back button that goes back exactly one history entry.
 */
module UpgradePlan {

  datatype Plan = Plan(name: string, price: string, features: seq<string>, cta: string, highlight: bool)

  const CurrentPlanCta := "Current Plan"
  const UpgradeCta := "Upgrade to Pro"
  const ContactSalesCta := "Contact Sales"

  const SalesMailto := "mailto:sales@realestateai.com"
  const ComingSoon := "Upgrade process coming soon!"

  const Plans := [
    Plan("Basic", "Free",
         ["List up to 3 properties", "Basic analytics", "Email support"],
         CurrentPlanCta, false),
    Plan("Pro", "₹499/mo",
         ["Unlimited property listings", "Advanced analytics", "Priority email support", "Featured agent badge"],
         UpgradeCta, true),
    Plan("Enterprise", "Contact Us",
         ["Custom solutions", "Dedicated account manager", "API access", "Premium support"],
         ContactSalesCta, false)
  ]

  /** The button's `disabled` attribute. */
  predicate Disabled(p: Plan) {
    p.cta == CurrentPlanCta
  }

  /** What pressing a button does to the browser. */
  datatype Effect =
    | NoEffect
    | SetLocation(url: string)
    | Alert(message: string)
    | HistoryGo(delta: int)

  /** Pressing a plan's button: a disabled button does not fire; otherwise
      "Contact Sales" opens the sales mail address, "Upgrade to Pro" only shows
      the coming-soon alert, and any other text does nothing. */
  function Press(p: Plan): (r: Effect)
    ensures Disabled(p) ==> r == NoEffect
    ensures r.SetLocation? <==> p.cta == ContactSalesCta
    ensures r.Alert? <==> p.cta == UpgradeCta
    ensures r.SetLocation? ==> r.url == SalesMailto
    ensures r.Alert? ==> r.message == ComingSoon
    ensures !r.HistoryGo?
  {
    if Disabled(p) then NoEffect
    else if p.cta == ContactSalesCta then SetLocation(SalesMailto)
    else if p.cta == UpgradeCta then Alert(ComingSoon)
    else NoEffect
  }

  /** The back button: exactly one step back in the history, wherever that leads;
      unlike every plan button, it moves in the history. */
  function Back(): (r: Effect)
    ensures r == HistoryGo(-1)
    ensures forall i | 0 <= i < |Plans| :: r != Press(Plans[i])
  {
    HistoryGo(-1)
  }

  /** Plan names are pairwise distinct. */
  lemma NamesUnique()
    ensures forall i, j | 0 <= i < j < |Plans| :: Plans[i].name != Plans[j].name
  {
  }

  /** Exactly one plan is highlighted, and it is Pro. */
  lemma OnlyProHighlighted()
    ensures forall i | 0 <= i < |Plans| :: Plans[i].highlight <==> Plans[i].name == "Pro"
    ensures |set i | 0 <= i < |Plans| && Plans[i].highlight| == 1
  {
    assert (set i | 0 <= i < |Plans| && Plans[i].highlight) == {1};
  }

  /** Only the Basic plan's button is disabled; Pro's only alerts and
      Enterprise's opens the sales mail address. */
  lemma PlanButtons()
    ensures forall i | 0 <= i < |Plans| :: Disabled(Plans[i]) <==> Plans[i].name == "Basic"
    ensures Press(Plans[0]) == NoEffect
    ensures Press(Plans[1]) == Alert(ComingSoon)
    ensures Press(Plans[2]) == SetLocation(SalesMailto)
  {
  }
}
