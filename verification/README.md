# RealEstateAI front end: pages, navigation and routing

A Dafny model of the client-side logic of the RealEstateAI web application, a
React single-page front end for a Bengaluru real-estate site. The model covers:

- the navigation bar, including
  - the redirect of signed-out visitors to `/login`;
  - the rule that hides the bar on the login and register pages;
  - the role-dependent Dashboard link, Resources menu and greeting;
  - the hover state machine of the Resources dropdown;
  - the logout handler;
- the application's route table (`App.js`), with the router's ranking of a static path over `/property/:id` over `*`;
- the login and registration pages' submit handlers, written as ordered step lists;
- the Buyer/Owner switch of the registration page;
- the profile editing form: field updates, the validator and the submit handler;
- the price-trend map page, including
  - the locality table;
  - the selected-locality lookup and its fallback;
  - the clamped price-to-radius scale with `Math.round`;
  - the growth figure and the investment suggestion;
- the landing page's handlers, including
  - the `tel:` and `wa.me` links;
  - the support-contact dispatch;
  - the quick-contact modal;
  - the featured-listing, service and navigation links;
- the plan-upgrade page's buttons.

The JavaScript library behaviour these pages rely on is modelled explicitly in
`text.dfy` and `uri_component.dfy`:

- `trim` and the regular-expression class `\s`;
- `includes`, `indexOf`, and `replace` with a string pattern, which removes only the first occurrence;
- `encodeURIComponent`: UTF-8 followed by upper-case `%XX` escapes, proved to invert through a matching decoder.

The model is made of pure functions over immutable datatypes:

- Event handlers are either functions from the current state to the next state and an effect, or ordered lists of steps that are folded over the page state (`steps.dfy`).
- Effects the pages hand to the browser are data: `navigate`, `window.open`, `window.location`, `alert` and `history.go`.
- The backend's answer to a request is a parameter: `Outcome` is either a resolved value or a rejection with a message. On the login page, what happens after the answer arrives is a parameter too (`AfterResolve`): the rest of the `try` block completes, or reading the response throws, or the context's `login` throws.

Files: `wrappers.dfy` (Option), `text.dfy`, `uri_component.dfy`, `session.dfy`,
`api.dfy`, `steps.dfy`, `routes.dfy`, `navbar.dfy`, `login_page.dfy`,
`register_toggle.dfy`, `register_page.dfy`, `email_pattern.dfy`,
`profile_edit.dfy`, `price_map.dfy`, `home_page.dfy`, `upgrade_plan.dfy`, and
`site_checks.dfy`. The last file holds cross-page facts: every link the pages
render, looked up in the route table.

## Model

| member | source | states |
|---|---|---|
| Navbar.AuthRedirect | frontend/src/components/Common/Navbar.js:30-35 | a redirect fires iff the session check is done, nobody is signed in and the path is neither `/login` nor `/register`; it always goes to `/login`, replacing the history entry |
| Navbar.IsVisible | frontend/src/components/Common/Navbar.js:59-68 | the bar is hidden iff nobody is signed in and the page is `/login` or `/register` |
| Navbar.DashboardPath | frontend/src/components/Common/Navbar.js:54 | the Dashboard link goes to `/agent-dashboard` iff the user's role is `agent`, otherwise to `/dashboard`; a missing user or role counts as not an agent |
| Navbar.ResourceLinks | frontend/src/components/Common/Navbar.js:148-194 | the dropdown shows EMI calculator and buying guides iff the user is not an agent and selling guides iff they are, never both kinds; it always shows the three common entries (4 entries for an agent, 5 otherwise) |
| Navbar.GreetingFor | frontend/src/components/Common/Navbar.js:221-223 | the greeting is "Owner"/"Agent" iff the role is `agent`, and "Buyer"/"User" otherwise |
| Navbar.RoleViewsAgree | frontend/src/components/Common/Navbar.js:54-223 | the three role-dependent views agree for every user: the "Agent" badge, the `/agent-dashboard` link and the Selling Guides entry appear together or not at all |
| Navbar.Links | frontend/src/components/Common/Navbar.js:84-246 | the rendered links start with the logo; a signed-in user's end with the Dashboard link to their dashboard path, and a visitor sees just the logo and the Login link |
| Navbar.ResourcesShownIffOpen | frontend/src/components/Common/Navbar.js:102-194 | a signed-in user sees the three main links always, and each Resources entry exactly while the dropdown is open |
| Navbar.LoginLinkIffVisitor | frontend/src/components/Common/Navbar.js:218-244 | the `/login?role=user` link is shown iff nobody is signed in |
| Navbar.Hover | frontend/src/components/Common/Navbar.js:38-52 | entering the button or the dropdown opens the menu; leaving the wrapper keeps it open only if it was open and the pointer went into the dropdown; leaving the dropdown keeps it open only if the pointer went back to the button |
| Navbar.OpenIffEnteredAndKept | frontend/src/components/Common/Navbar.js:127-145 | after any sequence of mouse events the menu is open iff it was opened (initially or by an enter event) and every later event only moved the pointer between the button and the dropdown |
| Navbar.HandleLogout | frontend/src/components/Common/Navbar.js:17-27 | logout first navigates to `/login` with replace, then schedules the context's logout |
| Navbar.RedirectSettles | frontend/src/components/Common/Navbar.js:30-35 | once the redirect has landed, it does not fire again and the bar is hidden there: no redirect loop |
| Navbar.RedirectOnlyFromVisiblePages | frontend/src/components/Common/Navbar.js:29-68 | whenever the redirect fires, the page it leaves still shows the bar |
| Navbar.LogoutLandsOnLogin | frontend/src/components/Common/Navbar.js:17-35 | after logout completes, on the page the handler navigated to, the bar is hidden and the redirect does not fire |
| Routes.FirstMatchSpec | frontend/src/App.js:43-75 | the lookup within one preference level finds nothing iff no route matches at that level, and otherwise returns the element of the first matching route |
| Routes.ResolveInSpec | frontend/src/App.js:43-75 | a table renders nothing iff no route matches; otherwise it renders the route the ranking picks, an exact path over `/property/:id` over `*` and the earlier route within a rank |
| Routes.Resolve | frontend/src/App.js:43-75 | the application's table renders something for every path, since `*` matches everything |
| Routes.PatternsDistinct | frontend/src/App.js:46-74 | no two routes of the table share a path pattern |
| Routes.ExactPathResolves | frontend/src/App.js:46-71 | every static path of the table renders that route's own element |
| Routes.UnknownPathIsNotFound | frontend/src/App.js:74 | a path that is neither a static path nor `/property/<segment>` renders the 404 heading |
| Routes.PropertyPathResolves | frontend/src/App.js:53 | `/property/<id>` renders the property detail page for every non-empty id without `/` |
| Routes.OnlyDashboardsGuarded | frontend/src/App.js:67-71 | only `/dashboard` is behind the signed-in guard and only `/agent-dashboard` is behind the agent guard; the profile and plan pages listed with them are open |
| Session.PathOf | frontend/src/pages/HomePage.js:296-320 | the router matches a link target such as `/properties?sort=newest` by its path part: the longest prefix with neither `?` nor `#`, followed either by nothing or by the `?` or `#` that starts the query or the fragment |
| Session.PathBeforeQuery | frontend/src/components/Common/Navbar.js:240 | a target written as a path without `?` or `#`, plus a query or fragment starting with `?` or `#`, routes by the path alone |
| SiteChecks.NavbarLinksRoute | frontend/src/components/Common/Navbar.js:84-240 | for every user and either state of the dropdown, every link the bar renders reaches a real page of the route table (not the 404 heading) |
| SiteChecks.DashboardLinkRoutes | frontend/src/App.js:68-69 | the Dashboard link reaches the agent dashboard behind the agent guard for an agent, and the user dashboard behind the signed-in guard for everyone else |
| SiteChecks.LoginLinkRoutes | frontend/src/components/Common/Navbar.js:240 | the visitor's `/login?role=user` link renders the login page |
| SiteChecks.AuthFlowTargetsRoute | frontend/src/pages/LoginPage.js:26 | the post-login target `/` and the redirect and logout target `/login` are pages of the table |
| AuthPageLinks.AuthPageLinksResolve | frontend/src/pages/LoginPage.js:318-323 | the login page's `/register` link reaches its page, while its forgotten-password link `/forgot` has no route and shows the 404 heading |
| AuthPageLinks.SignInLinkResolves | frontend/src/pages/RegisterPage.js:151 | the registration page's `/login` link reaches the login page |
| Api.ErrorText | frontend/src/pages/LoginPage.js:28 | the error shown is the error's message when it is non-empty, and the fallback text otherwise; with a non-empty fallback it is never empty |
| LoginPage.IsAgentLogin | frontend/src/pages/LoginPage.js:17 | the agent flag is set iff `role=agent` occurs anywhere in the query string |
| LoginPage.RoleText | frontend/src/pages/LoginPage.js:18 | the role line reads "Owner / Agent" iff `role=agent` occurs in the query string, and "Buyer / Owner" otherwise |
| LoginPage.HandleLogin | frontend/src/pages/LoginPage.js:20-32 | the handler shows the spinner, clears the error and calls the API. If the whole `try` block completes, it saves the session and then navigates to `/` with replace. If the request fails, the response cannot be read, or the context's `login` throws, it sets that error's text and does not navigate; the session is saved only when `login` was reached. It ends by turning the spinner off |
| LoginPage.LoginSettles | frontend/src/pages/LoginPage.js:20-32 | from any state, after the handler: the spinner is off; an error is set iff something in the `try` block threw, and it is that error's message or the fallback |
| LoginPage.LoginBannerIffThrown | frontend/src/pages/LoginPage.js:262-271 | the error banner, which renders only for a non-empty error, is shown after the handler iff something in the `try` block threw, and always after a failed request |
| RegisterToggle.BackendRole | frontend/src/components/Forms/RegisterToggle.js:11-16 | the backend role is `user` iff the label is "Buyer", and `agent` for any other label |
| RegisterToggle.HandleToggle | frontend/src/components/Forms/RegisterToggle.js:8-17 | a click selects the clicked label and reports exactly one backend role: `user` iff "Buyer" was clicked |
| RegisterToggle.LabelRoleRoundTrip | frontend/src/components/Forms/RegisterToggle.js:5-17 | the two buttons and the two backend roles correspond one to one: label to role to label, and role to label to role |
| RegisterPage.SelectRole | frontend/src/pages/RegisterPage.js:140 | the switch's report sets the page's role and changes nothing else |
| RegisterPage.Payload | frontend/src/pages/RegisterPage.js:20 | the payload has the form's keys plus `role`; `role` is the selected role, overriding any form field of that name; every other field is kept |
| RegisterPage.HandleRegister | frontend/src/pages/RegisterPage.js:15-40 | the handler resets the banner, the error and the spinner, then sends the payload. On success it shows success and schedules the move to `/login` with replace. On failure it sets the error text, clears success and schedules nothing. It ends by turning the spinner off |
| RegisterPage.RegisterSettles | frontend/src/pages/RegisterPage.js:15-40 | after the handler: the spinner is off, success is shown iff the request succeeded, an error is set iff it failed, and the role is untouched |
| RegisterPage.RegisterBannerIffRejected | frontend/src/pages/RegisterPage.js:117-127 | the error banner, which renders only for a non-empty error, is shown after the handler iff the request failed |
| RegisterPage.SubmittedRoleFromToggle | frontend/src/pages/RegisterPage.js:140-144 | whatever label was clicked, the submitted role is the one that label stands for and one of the two backend roles; the initial role agrees with the initial label |
| EmailPattern.ValidIffMatches | frontend/src/pages/ProfileEditPage.js:50 | the character-level e-mail check accepts exactly the strings the regular expression `^[^@\s]+@[^@\s]+\.[^@\s]+$` matches |
| EmailPattern.IsValidEmail | frontend/src/pages/ProfileEditPage.js:50 | an accepted address has at least five characters and neither starts nor ends with `@` |
| Text.BlankIffAllSpace | frontend/src/pages/ProfileEditPage.js:48-55 | `!s.trim()` holds exactly when every character of `s` is white space |
| Text.Trim | frontend/src/pages/ProfileEditPage.js:48-55 | what `trim()` returns is no longer than the string and neither starts nor ends with white space |
| Text.TrimIsInnerPiece | frontend/src/pages/ProfileEditPage.js:48-55 | what `trim()` returns is a contiguous piece of the string, with only white space before and after it |
| Text.Includes | frontend/src/pages/HomePage.js:576 | `includes` is true iff the substring occurs at some offset |
| Text.RemoveFirstCutsFirst | frontend/src/pages/HomePage.js:115 | `replace('+', '')` leaves a string without `+` unchanged and otherwise removes exactly the first `+`, keeping everything else |
| Text.IndexOf | frontend/src/pages/HomePage.js:115 | `indexOf` gives -1 iff the character is absent, and otherwise a position holding it with no earlier occurrence |
| Text.RemoveFirst | frontend/src/pages/HomePage.js:115 | `replace('+', '')` shortens the string by one character iff it contains `+`, and leaves the length alone otherwise |
| ProfileEdit.Set | frontend/src/pages/ProfileEditPage.js:30 | the named field takes the new value and every other field keeps its value |
| ProfileEdit.HandleChange | frontend/src/pages/ProfileEditPage.js:29-32 | a change sets the field, sets that field's error to the empty string, and leaves the other fields, the other errors and the banner as they were |
| ProfileEdit.Validate | frontend/src/pages/ProfileEditPage.js:46-58 | validation passes iff it records no error. A required field is in error iff it is blank, with its "is required" message. The e-mail is in error iff it is blank ("Email is required") or fails the pattern ("Invalid email"). No other field is ever in error |
| ProfileEdit.HandleSubmit | frontend/src/pages/ProfileEditPage.js:60-65 | submit always records the validator's errors; it shows the success banner only when validation passed, and otherwise leaves the banner as it was |
| ProfileEdit.ExpireSuccess | frontend/src/pages/ProfileEditPage.js:64 | the timer clears the banner and nothing else |
| ProfileEdit.ValidIffFieldsFilled | frontend/src/pages/ProfileEditPage.js:46-58 | a profile is accepted iff every required field has a non-space character and the e-mail matches the regular expression |
| ProfileEdit.BlankEmailIsRequired | frontend/src/pages/ProfileEditPage.js:49 | a blank e-mail is reported as missing, never as malformed |
| ProfileEdit.PaddedEmailIsInvalid | frontend/src/pages/ProfileEditPage.js:49-50 | a valid e-mail with a leading or trailing space passes the trimmed required check but is reported "Invalid email", because the pattern tests the untrimmed value |
| ProfileEdit.DefaultUserSubmits | frontend/src/pages/ProfileEditPage.js:6-19 | the shipped default profile validates, so submitting the untouched form shows the success banner |
| PriceMap.Find | frontend/src/pages/MapPage.js:170 | the lookup finds nothing iff no entry has the key, and otherwise returns the first entry with it |
| PriceMap.Selected | frontend/src/pages/MapPage.js:170 | the selected locality is a table entry: the one with the key when there is one, otherwise the first entry |
| PriceMap.Clamp | frontend/src/pages/MapPage.js:184 | the clamped price lies in [7000, 12000] and equals the price when it is already inside |
| PriceMap.Round | frontend/src/pages/MapPage.js:186 | `Math.round` gives the integer within half of the value, rounding halves up |
| PriceMap.RadiusFromPrice | frontend/src/pages/MapPage.js:178-187 | the radius lies in [6, 16]: 6 at or below 7000, 16 at or above 12000, and within half of the exact linear scale between them |
| PriceMap.RadiusMonotone | frontend/src/pages/MapPage.js:178-187 | a higher price never gets a smaller marker |
| PriceMap.MarkerRadius | frontend/src/pages/MapPage.js:225 | each marker's radius, taken from its latest price, lies in [6, 16] |
| PriceMap.MarkerMatchesInfoCard | frontend/src/pages/MapPage.js:225 | each marker is sized from the same price that the info card shows as "Current Avg" (line 277) once that entry is selected |
| PriceMap.CurrentAvg | frontend/src/pages/MapPage.js:276-278 | the "Current Avg" figure is the selected locality's latest price, which is at least every price in its chart |
| PriceMap.TableTrendsWellFormed | frontend/src/pages/MapPage.js:32-153 | every locality has the six months June to November in order, with strictly rising prices |
| PriceMap.GrowthPositive | frontend/src/pages/MapPage.js:173-175 | a well-formed series that opens at a positive price shows positive growth |
| PriceMap.TableGrowthPositive | frontend/src/pages/MapPage.js:173-175 | every locality's first price is below its last, so the growth shown is positive |
| PriceMap.GrowthPercent | frontend/src/pages/MapPage.js:173-175 | the growth is the change from first to last price as a percentage of the first, and for a positive first price it is positive iff the price rose |
| PriceMap.KeysUnique | frontend/src/pages/MapPage.js:32-153 | no two localities share a key |
| PriceMap.ClickLocality | frontend/src/pages/MapPage.js:233 | clicking the marker or the quick button of an entry makes that entry the one shown |
| PriceMap.SelectedKeyAlwaysInTable | frontend/src/pages/MapPage.js:257 | from a state whose key is in the table, after any clicks the key is still in the table, so the fallback never applies |
| PriceMap.InitialKeyInTable | frontend/src/pages/MapPage.js:169 | the initial key names the first table entry |
| PriceMap.Suggestion | frontend/src/pages/MapPage.js:313-321 | the four named keys each get their own advice, and the default advice is given iff the key is none of them |
| PriceMap.AdviceReachable | frontend/src/pages/MapPage.js:313-321 | each of the four advised keys is the key of a table row, so its advice can be reached by a click; every other row shows the default advice, and some row does |
| UriComponent.Utf8RoundTrip | frontend/src/pages/HomePage.js:115 | decoding the UTF-8 bytes the encoder produces for a character gives back that character |
| UriComponent.DecodeEncode | frontend/src/pages/HomePage.js:115 | `decodeURIComponent(encodeURIComponent(s)) == s` for every string |
| UriComponent.Encode | frontend/src/pages/HomePage.js:115 | `encodeURIComponent` writes at least one character per input character and leaves a string of unreserved characters unchanged |
| UriComponent.OverlongRejected | frontend/src/pages/HomePage.js:115 | the decoder used to state the round trip rejects overlong UTF-8 escapes such as `%C0%80`, as `decodeURIComponent` does |
| UriComponent.EncodeChars | frontend/src/pages/HomePage.js:115 | every character the encoder emits is unreserved (letters, digits, `-_.!~*'()`) or `%`, so the encoded message cannot end the `text` query |
| HomePage.CallNumber | frontend/src/pages/HomePage.js:109-111 | a call opens `tel:` followed by the number verbatim, spaces included, in the same tab |
| HomePage.WhatsApp | frontend/src/pages/HomePage.js:113-116 | WhatsApp opens a `https://wa.me/` url in a new tab |
| HomePage.WhatsAppUrl | frontend/src/pages/HomePage.js:115 | the url starts with `https://wa.me/`; its parts are pinned by the lemmas below |
| HomePage.WhatsAppUrlParts | frontend/src/pages/HomePage.js:115 | the url's route is `https://wa.me/` plus the number with only its first `+` cut out; its query is `?text=` plus the encoded message, which decodes back to the message |
| HomePage.WhatsAppCarriesGreeting | frontend/src/pages/HomePage.js:113-116 | the handler's url routes to the number without its first `+` and carries the fixed greeting unchanged |
| HomePage.ContactClick | frontend/src/pages/HomePage.js:576 | a contact row opens WhatsApp iff its type mentions "WhatsApp", and dials its number otherwise |
| HomePage.OnlyWhatsAppSupportChats | frontend/src/pages/HomePage.js:78-107 | of the four support contacts only "WhatsApp Support" opens a chat; the other three dial their own numbers |
| HomePage.Handle | frontend/src/pages/HomePage.js:545-611 | the modal is shown afterwards iff the event was quick contact, or it was shown and the event is neither the backdrop nor Close. The modal's controls do nothing while it is hidden. Every in-app navigation goes to a page link of the landing page. A row of the open modal dispatches to that contact |
| HomePage.ModalOpenIffNotClosedSince | frontend/src/pages/HomePage.js:545-603 | after any event sequence the modal is open iff it was open at the start or opened by quick contact, and neither the backdrop nor Close was clicked since |
| HomeRoutes.HomePageTargets | frontend/src/pages/HomePage.js:9-19 | `/predict` and `/properties` reach their pages, while the contact handler's `/contact` is not in the table and shows the 404 heading |
| HomeRoutes.FeaturedCardsListProperties | frontend/src/pages/HomePage.js:289-333 | every featured-listing card opens the listings page, since its filter query does not change the route |
| UpgradePlan.Press | frontend/src/pages/UpgradePlanPage.js:63-72 | a disabled button does nothing. "Contact Sales" (and only it) sets the location to the sales mail address. "Upgrade to Pro" (and only it) shows the coming-soon alert. No button moves in the history |
| UpgradePlan.Back | frontend/src/pages/UpgradePlanPage.js:80-85 | the back button goes back exactly one history entry, which no plan button does |
| UpgradePlan.NamesUnique | frontend/src/pages/UpgradePlanPage.js:4-40 | plan names are pairwise distinct, so they are valid React keys |
| UpgradePlan.OnlyProHighlighted | frontend/src/pages/UpgradePlanPage.js:4-40 | exactly one plan is highlighted, and it is Pro |
| UpgradePlan.PlanButtons | frontend/src/pages/UpgradePlanPage.js:4-72 | only Basic's button is disabled; Pro's shows the alert and Enterprise's opens the sales mail address |

## Left out

- Layout and animation: framer-motion, Tailwind classes, the page transitions, the icons and the decorative elements. None of it affects behaviour.
- The authentication context (`AuthContext`): its storage, tokens and session check. Pages read `{user, isLoading}`, which are parameters here. Their calls to the context's `login` and `logout` functions are modelled as handler steps (`SaveSession`, `ScheduleLogout`), not by what those functions do. The contents of a login or register response, and the backend calls themselves, are parameters too (`Outcome`).
- LoginPage.HandleLogin: the handler is asynchronous and awaits the request, but the model runs its steps as one uninterrupted sequence. Nothing can interleave while the request is pending: no second submit and no navigation. `LoginSettles` holds only under that assumption. `navigate('/')` is taken not to throw; the other throws inside the `try` block (an unreadable response, a failing `login`) are modelled. If two submits overlap, a slow failure after a fast success leaves the failure's banner set after the page has gone home. Whether the form blocks a second submit while `loading` is set is up to `LoginForm`, which is not part of this model.
- RegisterPage.HandleRegister: the same holds for the registration handler and `RegisterSettles`. Whether a second submit is blocked is up to `RegisterForm`, which is not part of this model.
- The internals of `PrivateRoute` and `AgentRoute`: the model records which routes they guard, not what they render.
- React-router's case-insensitive matching and its tolerance of a trailing slash. Paths are matched exactly, plus the one `:id` segment.
- Timers. The 100 ms delay before `logout()`, the 1.5 s delay before leaving the register page and the 2 s banner timeout are steps (`ScheduleLogout`, `GoLater`, `ExpireSuccess`), not durations.
- Navbar.HandleLogout: the `catch` branch, which only runs if the navigation itself throws. The navigation and the scheduling of the timer do not throw in the modelled steps.
- The avatar upload (`FileReader`) of the profile page, which reads a file asynchronously.
- Leaflet (map centre, coordinates, `flyTo`) and recharts (the chart).
- The growth figure's `toFixed(1)` formatting and the prices' `toLocaleString`. Growth is stated as an exact positive rational.
- PriceMap.RadiusFromPrice: the scale is computed in exact rational arithmetic, not in IEEE doubles. Where the exact value is a half, a double's rounding error could tip `Math.round` the other way, and the model does not capture that.
- HomePage.Handle: an event is modelled independently of the overlay covering the page. The modal's backdrop covers the page while open, but page buttons are treated as reachable at all times.
- The `tel:` url keeps the spaces of the number, as written. The `wa.me` url does too, since only the first `+` is removed. Whether a phone or WhatsApp accepts such a url is outside the model.
- `encodeURIComponent` is implemented (UTF-8 and `%XX` escapes) rather than taken as given. Lone surrogates, which make it throw, cannot occur: Dafny strings hold Unicode scalar values.
- The footer, the chatbot widget and the pages behind the routes other than the ones listed above.
