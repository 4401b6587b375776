/**
 * The Buyer/Owner switch of the registration page: its own selected label, and
 * the backend role it reports to the page through `onSelect`.
 */
module RegisterToggle {
  import Session

  const BuyerLabel := "Buyer"
  const OwnerLabel := "Owner"

  /** The two buttons, in display order. */
  const Labels := [BuyerLabel, OwnerLabel]

  const InitialLabel := BuyerLabel

  const UserRole := "user"
  const AgentRole := Session.AgentRole

  /** The UI-label to backend-role mapping: "Buyer" is a user, anything else an agent. */
  function BackendRole(name: string): (r: string)
    ensures r == UserRole <==> name == BuyerLabel
    ensures r == AgentRole <==> name != BuyerLabel
  {
    if name == BuyerLabel then UserRole else AgentRole
  }

  /** The label whose button reports `role`; the inverse of BackendRole on the
      two buttons. */
  function LabelFor(role: string): string {
    if role == UserRole then BuyerLabel else OwnerLabel
  }

  /** The outcome of a click: the new selected label, and the one value passed to
      `onSelect`. */
  datatype Toggled = Toggled(selected: string, emitted: string)

  /** `handleToggle(newRole)`: select the clicked label and report its backend role
      exactly once. */
  function HandleToggle(clicked: string): (r: Toggled)
    ensures r.selected == clicked
    ensures r.emitted == UserRole || r.emitted == AgentRole
    ensures r.emitted == UserRole <==> clicked == BuyerLabel
  {
    Toggled(clicked, BackendRole(clicked))
  }

  /** The two buttons and the two backend roles correspond one to one. */
  lemma LabelRoleRoundTrip()
    ensures forall i | 0 <= i < |Labels| :: LabelFor(BackendRole(Labels[i])) == Labels[i]
    ensures forall role | role == UserRole || role == AgentRole :: BackendRole(LabelFor(role)) == role
    ensures BackendRole(Labels[0]) != BackendRole(Labels[1])
  {
  }
}
