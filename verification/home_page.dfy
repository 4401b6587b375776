/**
 * The landing page's handlers: navigation buttons, the call and WhatsApp links
 * opened with `window.open`, the support contacts and their click dispatch, and
 * the quick-contact modal.
 */
module HomePage {
  import opened Wrappers
  import opened Text
  import UriComponent
  import Session

  /** What a handler does outside the component's own state. */
  datatype Effect =
    | Navigate(to: string)
    | OpenWindow(url: string, target: string)

  const PredictPath := "/predict"
  const PropertiesPath := "/properties"
  const ContactPath := "/contact"

  const CallScheme := "tel:"
  const WhatsAppBase := "https://wa.me/"
  const TextParam := "?text="
  const WhatsAppMessage :=
    "Hi, I'm interested in knowing more about your properties and services from the DreamHome website."

  /** The numbers wired directly into buttons. */
  const SalesNumber := "+91 98000 12345"
  const WhatsAppNumber := "+91 98000 67890"
  const EmergencyNumber := "+91 98000 11111"

  /** A support contact as the modal lists it (icon, hours and description are
      display text only). */
  datatype Contact = Contact(kind: string, number: string)

  const SupportContacts := [
    Contact("Sales & General Inquiries", SalesNumber),
    Contact("Customer Support", "+91 98000 54321"),
    Contact("WhatsApp Support", WhatsAppNumber),
    Contact("Technical Support", "+91 98000 98765")
  ]

  /** The four featured-listing cards' link targets: the listings page with a
      filter query. */
  const FeaturedQueries := ["?location=Whitefield&bhk=3", "?location=Koramangala&bhk=4", "?sort=newest", "?max_price=50"]
  const FeaturedLinks := [
    PropertiesPath + FeaturedQueries[0], PropertiesPath + FeaturedQueries[1],
    PropertiesPath + FeaturedQueries[2], PropertiesPath + FeaturedQueries[3]
  ]

  /** The three service cards' link targets, in display order. */
  const ServiceLinks := [PredictPath, PropertiesPath, ContactPath]

  /** `handleCallNumber`: the number verbatim, spaces included, behind `tel:`, in
      the same tab. */
  function CallNumber(number: string): (r: Effect)
    ensures r.OpenWindow? && r.target == "_self"
    ensures |r.url| == |CallScheme| + |number|
    ensures StartsWith(r.url, CallScheme) && r.url[|CallScheme|..] == number
  {
    OpenWindow(CallScheme + number, "_self")
  }

  /** The wa.me url for a number and a message: the number with its first `+`
      removed, then the message URI-encoded as the `text` query. */
  function WhatsAppUrl(number: string, message: string): (r: string)
    ensures StartsWith(r, WhatsAppBase)
  {
    var route := WhatsAppBase + RemoveFirst(number, '+');
    assert StartsWith(route, WhatsAppBase);
    route + TextParam + UriComponent.Encode(message)
  }

  /** `handleWhatsApp`: the wa.me url carrying the fixed greeting, in a new tab. */
  function WhatsApp(number: string): (r: Effect)
    ensures r.OpenWindow? && r.target == "_blank"
    ensures StartsWith(r.url, WhatsAppBase)
  {
    OpenWindow(WhatsAppUrl(number, WhatsAppMessage), "_blank")
  }

  /** Removing a character never introduces another one. */
  lemma RemoveFirstKeepsOut(s: string, c: char, d: char)
    requires d !in s
    ensures d !in RemoveFirst(s, c)
  {
    RemoveFirstCutsFirst(s, c);
    if c in s {
      var i := IndexOf(s, c);
      var t := RemoveFirst(s, c);
      forall k | 0 <= k < |t| ensures t[k] != d {
        if k < i {
          assert t[k] == s[k];
        } else {
          assert t[k] == s[k + 1];
        }
      }
    }
  }

  /** The cut at the first `?` or `#` that gives an in-app link target its path
      also splits this external url into its address and its query.

      A wa.me url splits into the route `https://wa.me/<number without its first
      plus>` and a `text` query that decodes back to the message: only the first
      `+` is dropped, while spaces and any later `+` stay in the number. */
  lemma WhatsAppUrlParts(number: string, message: string)
    requires '?' !in number && '#' !in number
    ensures var url := WhatsAppUrl(number, message);
            var path := Session.PathOf(url);
            && path == WhatsAppBase
                      + (if '+' in number
                         then number[..IndexOf(number, '+')] + number[IndexOf(number, '+') + 1..]
                         else number)
            && url[|path|..] == TextParam + UriComponent.Encode(message)
            && UriComponent.Decode(url[|path| + |TextParam|..]) == Some(message)
  {
    var url := WhatsAppUrl(number, message);
    var route := WhatsAppBase + RemoveFirst(number, '+');
    var encoded := UriComponent.Encode(message);
    assert Session.PathOf(url) == route && url[|route|..] == TextParam + encoded by {
      WhatsAppRoute(number, message);
    }
    assert RemoveFirst(number, '+') ==
      if '+' in number
      then number[..IndexOf(number, '+')] + number[IndexOf(number, '+') + 1..]
      else number
    by {
      RemoveFirstCutsFirst(number, '+');
    }
    assert url[|route| + |TextParam|..] == (TextParam + encoded)[|TextParam|..] == encoded;
    UriComponent.DecodeEncode(message);
  }

  /** The address part of a wa.me url, cut as a link target's path is, is the
      route before `?text=`. */
  lemma WhatsAppRoute(number: string, message: string)
    requires '?' !in number && '#' !in number
    ensures var route := WhatsAppBase + RemoveFirst(number, '+');
            var url := WhatsAppUrl(number, message);
            && Session.PathOf(url) == route
            && url[|route|..] == TextParam + UriComponent.Encode(message)
  {
    var route := WhatsAppBase + RemoveFirst(number, '+');
    var query := TextParam + UriComponent.Encode(message);
    assert WhatsAppUrl(number, message) == route + query;
    assert Session.PathOf(route + query) == route by {
      RouteKeepsPath(number);
      assert Session.EndsPath(query[0]);
      Session.PathBeforeQuery(route, query);
    }
  }

  /** The route part of a wa.me url has neither `?` nor `#` when the number has
      neither. */
  lemma RouteKeepsPath(number: string)
    requires '?' !in number && '#' !in number
    ensures var route := WhatsAppBase + RemoveFirst(number, '+');
            '?' !in route && '#' !in route
  {
    var rest := RemoveFirst(number, '+');
    RemoveFirstKeepsOut(number, '+', '?');
    RemoveFirstKeepsOut(number, '+', '#');
    OutOfConcat(WhatsAppBase, rest, '?');
    OutOfConcat(WhatsAppBase, rest, '#');
  }

  /** A character absent from both halves is absent from their concatenation. */
  lemma OutOfConcat(a: string, b: string, d: char)
    requires d !in a && d !in b
    ensures d !in a + b
  {
    forall k | 0 <= k < |a + b| ensures (a + b)[k] != d {
      if k < |a| {
        assert (a + b)[k] == a[k];
      } else {
        assert (a + b)[k] == b[k - |a|];
      }
    }
  }

  /** The handler's url routes to the number without its first `+` and carries
      the fixed greeting, which decodes back unchanged. */
  lemma WhatsAppCarriesGreeting(number: string)
    requires '?' !in number && '#' !in number
    ensures var url := WhatsApp(number).url;
            var path := Session.PathOf(url);
            && path == WhatsAppBase + RemoveFirst(number, '+')
            && UriComponent.Decode(url[|path| + |TextParam|..]) == Some(WhatsAppMessage)
  {
    WhatsAppRoute(number, WhatsAppMessage);
    WhatsAppUrlParts(number, WhatsAppMessage);
  }

  /** A modal row click: WhatsApp when the contact's type mentions "WhatsApp",
      a call otherwise. */
  function ContactClick(c: Contact): (r: Effect)
    ensures Occurs(c.kind, "WhatsApp") ==> r == WhatsApp(c.number)
    ensures !Occurs(c.kind, "WhatsApp") ==> r == CallNumber(c.number)
  {
    if Includes(c.kind, "WhatsApp") then WhatsApp(c.number) else CallNumber(c.number)
  }

  /** A string that lacks the first character of `sub` does not contain `sub`. */
  lemma FirstCharAbsent(s: string, sub: string)
    requires |sub| > 0 && sub[0] !in s
    ensures !Occurs(s, sub)
  {
  }

  /** Of the four support contacts only "WhatsApp Support" opens a chat; each
      other row dials its own number. */
  lemma OnlyWhatsAppSupportChats(i: nat)
    requires i < |SupportContacts|
    ensures i == 2 ==> ContactClick(SupportContacts[i]) == WhatsApp(WhatsAppNumber)
    ensures i != 2 ==> ContactClick(SupportContacts[i]) == CallNumber(SupportContacts[i].number)
  {
    if i == 0 {
      LabelDials("Sales & General Inquiries", SalesNumber);
    } else if i == 1 {
      LabelDials("Customer Support", "+91 98000 54321");
    } else if i == 2 {
      ChatRowChats(SupportContacts[2]);
    } else {
      LabelDials("Technical Support", "+91 98000 98765");
    }
  }

  /** The three rows without WhatsApp in their label dial. */
  lemma LabelDials(kind: string, number: string)
    requires kind in {"Sales & General Inquiries", "Customer Support", "Technical Support"}
    ensures ContactClick(Contact(kind, number)) == CallNumber(number)
  {
    assert 'W' !in kind;
    DialRowDials(Contact(kind, number));
  }

  /** A row whose label names WhatsApp opens the chat with the row's number. */
  lemma ChatRowChats(c: Contact)
    requires OccursAt(c.kind, "WhatsApp", 0)
    ensures ContactClick(c) == WhatsApp(c.number)
  {
  }

  /** A row whose label has no capital W dials the row's number. */
  lemma DialRowDials(c: Contact)
    requires 'W' !in c.kind
    ensures ContactClick(c) == CallNumber(c.number)
  {
    FirstCharAbsent(c.kind, "WhatsApp");
  }

  /** The user actions the page handles. `FeaturedCard(i)` and `ServiceLink(i)`
      are the links of the `i`-th featured-listing and service card; `Backdrop`, `Card`, `ContactRow`, `CloseButton` and
      `FullContactPage` are parts of the quick-contact modal. */
  datatype Event =
    | GetStarted
    | BrowseProperties
    | QuickContact
    | CallButton(number: string)
    | WhatsAppButton(number: string)
    | FeaturedCard(i: nat)
    | ServiceLink(i: nat)
    | Backdrop
    | Card
    | ContactRow(i: nat)
    | CloseButton
    | FullContactPage

  predicate InModal(e: Event) {
    e.Backdrop? || e.Card? || e.ContactRow? || e.CloseButton? || e.FullContactPage?
  }

  /** The in-app paths the page navigates to. */
  predicate IsPageLink(to: string) {
    to == PredictPath || to == PropertiesPath || to == ContactPath || to in FeaturedLinks
  }

  /** The page's state after an event, and the effect it causes, if any. */
  datatype Reaction = Reaction(showContactModal: bool, effect: Option<Effect>)

  /** One event against the modal flag `show`. The modal's elements exist only
      while it is shown, and an event naming a row or card that does not exist
      does nothing. A click on the card stops there, so it does not reach the
      backdrop; the contact rows sit inside the card and leave the modal open. */
  function Handle(show: bool, e: Event): (r: Reaction)
    ensures r.showContactModal <==> e.QuickContact? || (show && !e.Backdrop? && !e.CloseButton?)
    ensures InModal(e) && !show ==> r.effect.None?
    ensures r.effect.Some? && r.effect.value.Navigate? ==> IsPageLink(r.effect.value.to)
    ensures e.ContactRow? && show && e.i < |SupportContacts| ==>
              r.effect == Some(ContactClick(SupportContacts[e.i]))
  {
    match e
    case GetStarted => Reaction(show, Some(Navigate(PredictPath)))
    case BrowseProperties => Reaction(show, Some(Navigate(PropertiesPath)))
    case QuickContact => Reaction(true, None)
    case CallButton(n) => Reaction(show, Some(CallNumber(n)))
    case WhatsAppButton(n) => Reaction(show, Some(WhatsApp(n)))
    case FeaturedCard(i) =>
      if i < |FeaturedLinks| then Reaction(show, Some(Navigate(FeaturedLinks[i]))) else Reaction(show, None)
    case ServiceLink(i) =>
      if i < |ServiceLinks| then Reaction(show, Some(Navigate(ServiceLinks[i]))) else Reaction(show, None)
    case Backdrop => Reaction(false, None)
    case Card => Reaction(show, None)
    case ContactRow(i) =>
      if show && i < |SupportContacts| then Reaction(show, Some(ContactClick(SupportContacts[i])))
      else Reaction(show, None)
    case CloseButton => Reaction(false, None)
    case FullContactPage => Reaction(show, if show then Some(Navigate(ContactPath)) else None)
  }

  /** The modal flag after a sequence of events. */
  function ShowAfter(show: bool, events: seq<Event>): bool
    decreases |events|
  {
    if |events| == 0 then show
    else Handle(ShowAfter(show, events[..|events| - 1]), events[|events| - 1]).showContactModal
  }

  predicate Closes(e: Event) {
    e.Backdrop? || e.CloseButton?
  }

  /** No event of `events` from position `from` on closes the modal. */
  predicate NotClosedFrom(events: seq<Event>, from: int) {
    forall j | from <= j < |events| && 0 <= j :: !Closes(events[j])
  }

  /** The modal is open after a run of events exactly when it was open at the
      start or opened by the quick-contact button, and neither the backdrop nor
      the Close button was clicked since. */
  lemma {:induction false} ModalOpenIffNotClosedSince(show: bool, events: seq<Event>)
    ensures ShowAfter(show, events) <==>
      (show && NotClosedFrom(events, 0)) ||
      (exists i | 0 <= i < |events| :: events[i].QuickContact? && NotClosedFrom(events, i + 1))
    decreases |events|
  {
    if |events| > 0 {
      var n := |events| - 1;
      var pre := events[..n];
      ModalOpenIffNotClosedSince(show, pre);
      ShowAfterLast(show, events);
      var e := events[n];
      if e.QuickContact? {
        assert events[n].QuickContact? && NotClosedFrom(events, n + 1);
      } else if !Closes(e) {
        OpenedSinceKept(show, events);
      } else {
        assert !NotClosedFrom(events, 0);
        forall i | 0 <= i < |events| && events[i].QuickContact? ensures !NotClosedFrom(events, i + 1) {
          assert i != n;
        }
      }
    }
  }

  /** The flag after a run is the last event applied to the flag before it. */
  lemma ShowAfterLast(show: bool, events: seq<Event>)
    requires |events| > 0
    ensures var n := |events| - 1;
      ShowAfter(show, events) <==>
        events[n].QuickContact? || (ShowAfter(show, events[..n]) && !Closes(events[n]))
  {
  }

  /** An event that neither opens nor closes the modal extends every "opened and
      not closed since" witness, and removing it keeps one. */
  lemma OpenedSinceKept(show: bool, events: seq<Event>)
    requires |events| > 0
    requires !events[|events| - 1].QuickContact? && !Closes(events[|events| - 1])
    ensures var pre := events[..|events| - 1];
      && ((show && NotClosedFrom(pre, 0)) <==> (show && NotClosedFrom(events, 0)))
      && ((exists i | 0 <= i < |pre| :: pre[i].QuickContact? && NotClosedFrom(pre, i + 1)) <==>
          (exists i | 0 <= i < |events| :: events[i].QuickContact? && NotClosedFrom(events, i + 1)))
  {
    var n := |events| - 1;
    var pre := events[..n];
    assert forall j | 0 <= j < n :: pre[j] == events[j];
    if exists i | 0 <= i < |pre| :: pre[i].QuickContact? && NotClosedFrom(pre, i + 1) {
      var i :| 0 <= i < |pre| && pre[i].QuickContact? && NotClosedFrom(pre, i + 1);
      assert events[i].QuickContact? && NotClosedFrom(events, i + 1);
    }
    if exists i | 0 <= i < |events| :: events[i].QuickContact? && NotClosedFrom(events, i + 1) {
      var i :| 0 <= i < |events| && events[i].QuickContact? && NotClosedFrom(events, i + 1);
      assert i < n;
      assert pre[i].QuickContact? && NotClosedFrom(pre, i + 1);
    }
  }
}
