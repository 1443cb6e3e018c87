# ImpactBridge record store, in Dafny

ImpactBridge connects donors, NGOs and orphanages. Donors give money or items to an
NGO; orphanages send requests to an NGO; the NGO matches a pending donation to a
pending request, which writes a distribution record. Everything is kept in the
browser's local storage under five keys: `users`, `donations`, `requests`,
`distributions` and `currentUser`. A key that was never written reads as an empty
list, or, for `currentUser`, as an empty object.

This project models that store and the handlers the user interface runs on it, as
pure functions from one store to the next:

- `Records`: the four record types and the store. A gift's type-dependent part
  (`type`, `amount`, `itemName`, `quantity`) is one `Gift` value shared by
  donations, requests and distributions. This module also holds the name lookup
  with its `'Unknown'` fallback, the id-keyed status update, and the dashboards'
  entry check.
- `Seqs`: order-preserving `filter` and first-match `find`, which every handler is
  built from, with their lemmas.
- `Matching`: the match dialog. It builds the candidate list, and handles accept
  and reject.
- `Auth`, `Profile`, `DonationModal`, `RequestModal`: the sign-up/log-in dialog,
  the profile dialog, and the donation and request dialogs.
- `NgoDashboard`, `DonorDashboard`: what each dashboard loads and shows. This
  includes the role checks and the donor's impact tab.
- `Lifecycle`: all handlers as one `Action` type, and the store invariants each
  action keeps or breaks.

Modelling choices:

- `currentUser` is an `Option<User>`. `None` stands for the empty object.
  Fields copied from `currentUser.id` (a donation's `donorId`, a request's
  `orphanageId`, a distribution's `ngoId`) are `Option<int>`, because the id is
  `undefined` when nobody is signed in. JavaScript's `undefined === undefined`
  holds, just as `None == None` does.
- The dashboards test `!user.id`, so a user whose id is 0 is turned away. The
  model says `id != 0`.
- `x?.name || 'Unknown'` also turns an empty name into `'Unknown'`, and the model
  does the same.
- `Date.now()` ids and ISO timestamps are parameters (`id`, `now`). Nothing makes
  them unique.
- `amount` and `quantity` are passed in already parsed.

Behaviour worth noting:

- `handleAccept` makes no pending re-check, so accepting twice writes two
  distributions for one donation (`Lifecycle.AcceptTwiceRecordsTwice`). The
  dialog's donation is the NGO dashboard's list entry, read by `loadData` and
  handed over when the dialog opens; the dialog itself reads only `requests`
  and `users`. After an accept the dashboard reloads its list and closes the
  dialog, so a stale copy whose stored record is already distributed takes a
  second session or a repeated click, but is then accepted again.
- `handleReject` checks nothing either, so a request that a distribution
  already names can be rejected, and that distribution then names no accepted
  request (`Lifecycle.RejectAfterAcceptUnlinks`).
- The profile dialog writes a new email without the uniqueness check that
  sign-up makes (`Lifecycle.ProfileUpdateCanDuplicateEmail`).

## Model

| member | source | states |
|---|---|---|
| Seqs.Filter | src/pages/NGODashboard.tsx:35 | `filter` returns only elements that satisfy the test, and every element of the input that satisfies it appears in the result. The result is no longer than the input. |
| Seqs.FilterCount | src/pages/NGODashboard.tsx:40 | The filter keeps each satisfying element exactly as many times as it occurs in the input, and no other element. |
| Seqs.FilterIsSubsequence | src/pages/NGODashboard.tsx:45 | The filter keeps the input's order: its result is a subsequence of the input. Together with the counts this fixes the result. |
| Seqs.FirstIndex | src/components/AuthModal.tsx:40 | `find` returns the first position whose element satisfies the test. It returns nothing exactly when no element does. |
| Records.CurrentId | src/components/DonationModal.tsx:33-38 | `currentUser.id` is present exactly when someone is signed in, and then it is that user's id. |
| Records.GiftOf | src/components/DonationModal.tsx:40-43 | A money form yields an amount and null item fields. An item form yields an item name and quantity and a null amount. Any other type yields all nulls. The result is always well shaped and keeps the form's type. |
| Records.DisplayName | src/pages/NGODashboard.tsx:59-69 | The name of the first user with the given id, or `'Unknown'` when there is no such user or the first such user's name is empty. The result is never empty, and it is either `'Unknown'` or the name of a user with that id. |
| Records.SetDonationStatus | src/components/MatchOrphanageModal.tsx:76-80 | Every donation with the id gets the new status. Only that field changes, other donations are identical, and the length is kept. |
| Records.SetRequestStatus | src/components/MatchOrphanageModal.tsx:83-87 | Every request with the id gets the new status. Only that field changes, other requests are identical, and the length is kept. |
| Records.SetStatusIdempotent | src/components/MatchOrphanageModal.tsx:76-87 | Applying the same id-keyed status update twice gives the same list as applying it once. |
| Records.UpdateWhere | src/components/MatchOrphanageModal.tsx:77-79 | The id-keyed `map` used by every update: the list keeps its length, each element the test picks is replaced by its changed copy, and every other element is kept as is. |
| Matching.PendingMatches | src/components/MatchOrphanageModal.tsx:29-34 | The candidate requests are exactly those with the donation's NGO id and type that are still pending, with their multiplicity and in stored order. |
| Matching.Candidates | src/components/MatchOrphanageModal.tsx:36-46 | The dialog lists the pending matches one for one, each with the display name of its orphanage. |
| Matching.CandidatesKeepKind | src/components/MatchOrphanageModal.tsx:30-33 | Every candidate has the donation's NGO and type and is pending. An item donation is never offered a money request, and a money donation never an item request. |
| Matching.Accept | src/components/MatchOrphanageModal.tsx:50-87 | Accept appends one distribution and leaves the old ones in place. The new record has the donation's id, donor and gift, the request's id and orphanage, the signed-in user as NGO, the candidate's orphanage name, and the donor's display name. Donations with the id become distributed and requests with the id become accepted. Nothing else changes. |
| Matching.NewDistribution | src/components/MatchOrphanageModal.tsx:57-71 | The distribution record links the donation (id, donor, gift) and the request (id, orphanage). Its NGO is the signed-in user, its orphanage name is the candidate's, and its donor name is the donor's display name. |
| Matching.Reject | src/components/MatchOrphanageModal.tsx:98-103 | Only requests with the candidate's id change, and they become rejected. Users, donations, distributions and the session are untouched. |
| Matching.RejectRefreshAsWritten | src/components/MatchOrphanageModal.tsx:110-117 | As written, the list shown after a rejection is always empty. |
| Matching.RejectRefresh | src/components/MatchOrphanageModal.tsx:110-117 | The corrected refresh holds the pending matches, read before the write, without the rejected request. |
| Matching.RejectRefreshIsFreshMatches | src/components/MatchOrphanageModal.tsx:98-117 | The corrected refresh holds the same requests as the pending matches of the request list after the rejection. |
| Matching.RejectRefreshCandidates | src/components/MatchOrphanageModal.tsx:110-117 | The corrected refresh with names: one entry per request of the corrected refresh, in order, each named after its orphanage. Every entry is a pending match other than the rejected request. |
| Matching.RejectRefreshCandidatesAreFresh | src/components/MatchOrphanageModal.tsx:36-46 | The named corrected refresh equals the dialog's candidate list after the rejection, names included. |
| Auth.RouteFor | src/components/AuthModal.tsx:84-98 | donor goes to `/donor-dashboard`, ngo to `/ngo-dashboard` and orphanage to `/orphanage-dashboard`. Any other role navigates nowhere. |
| Auth.DoSignup | src/components/AuthModal.tsx:37-59 | Sign-up fails exactly when the email is taken, and then the store is unchanged. Otherwise the new user (form fields plus id and timestamp) is appended at the end and becomes the current user, and the route follows the form's role. |
| Auth.NewUser | src/components/AuthModal.tsx:51-55 | The new account has the new id and creation time, and every other field comes from the form. Its email and password match the form, so the same form logs in. |
| Auth.DoLogin | src/components/AuthModal.tsx:60-74 | Log-in succeeds exactly when some user matches both email and password. The first such user becomes the current user and the route follows that user's role. The user list never changes, and a failure changes nothing. |
| Auth.Submit | src/components/AuthModal.tsx:34-101 | After a success the route is the one for the current user's role. After a failure the store is unchanged and there is no navigation. Log-in never changes the users. |
| Auth.SignupKeepsEmailsUnique | src/components/AuthModal.tsx:39-57 | If emails were unique before a sign-up, they are unique after it. |
| Auth.SignupThenLogin | src/components/AuthModal.tsx:51-63 | After a successful sign-up, logging in with the same email and password succeeds. It selects the new account and changes nothing. |
| Profile.InitialForm | src/components/ProfileModal.tsx:19-24 | The form starts from the user's name, email, description and experience. With no user, every field is the empty string. |
| Profile.Merge | src/components/ProfileModal.tsx:36 | The merged user takes the four form fields and keeps id, role, password and creation time. |
| Profile.Update | src/components/ProfileModal.tsx:30-42 | The user list keeps its length and order. Users with the id are merged with the form, and every other user is identical. The current user becomes the given user merged with the form. No other list changes. |
| Profile.UpdateIdempotent | src/components/ProfileModal.tsx:35-42 | Submitting the same profile twice gives the same store as submitting it once. |
| Profile.UntouchedFormIsNoOp | src/components/ProfileModal.tsx:19-42 | Submitting the signed-in user's unedited form leaves the store unchanged, when every stored record with that id is that user. |
| DonationModal.NewDonation | src/components/DonationModal.tsx:36-46 | The new donation is pending, comes from the current user's id, goes to the selected NGO, and carries the form's type. Money carries the amount only. Item carries the item name and quantity only. |
| DonationModal.Submit | src/components/DonationModal.tsx:30-56 | Exactly one donation is appended after the unchanged earlier ones. No other list and not the session changes. The form is reset to empty fields. |
| RequestModal.NewRequest | src/components/RequestModal.tsx:36-46 | The new request is pending, comes from the current user's id as orphanage, goes to the selected NGO, and carries the form's type. Money carries the amount only. Item carries the item name and quantity only. |
| RequestModal.Submit | src/components/RequestModal.tsx:30-56 | Exactly one request is appended after the unchanged earlier ones. No other list and not the session changes. The form is reset to empty fields. |
| NgoDashboard.PendingDonations | src/pages/NGODashboard.tsx:34-35 | The NGO's donation list is exactly the donations with its id that are pending, with multiplicity and in stored order. |
| NgoDashboard.AddressedRequests | src/pages/NGODashboard.tsx:39-40 | The loaded requests are exactly those with the NGO's id, whatever their status. |
| NgoDashboard.PendingTab | src/pages/NGODashboard.tsx:157 | The requests tab shows exactly the loaded requests that are pending, each as often as it was loaded, in order. |
| NgoDashboard.RequestsTabIsPendingAddressed | src/pages/NGODashboard.tsx:39-41 | Loading every request addressed to the NGO and then keeping the pending ones gives exactly the pending requests addressed to it. |
| NgoDashboard.OwnDistributions | src/pages/NGODashboard.tsx:44-45 | The distribution list is exactly the distributions carrying the NGO's id. |
| NgoDashboard.Load | src/pages/NGODashboard.tsx:22-47 | The dashboard opens exactly when a user with a non-zero id and role ngo is signed in. It then shows that user and the three lists for the user's id. Otherwise it redirects. |
| NgoDashboard.Logout | src/pages/NGODashboard.tsx:49-52 | Logging out clears the signed-in user and leaves every list unchanged. |
| DonorDashboard.Ngos | src/pages/DonorDashboard.tsx:28-30 | The NGO list is exactly the users whose role is ngo, in original order. |
| DonorDashboard.OwnDonations | src/pages/DonorDashboard.tsx:33-35 | The donor's list is exactly the donations whose donor id is the signed-in user's. |
| DonorDashboard.Load | src/pages/DonorDashboard.tsx:19-36 | The dashboard opens exactly when a user with a non-zero id and role donor is signed in. It then shows that user, the NGO list and that user's donations. Otherwise it redirects. |
| DonorDashboard.Impact | src/pages/DonorDashboard.tsx:48-58 | The impact view has one entry per donation, in order, keeping id, donor, NGO, gift and creation time. An entry is Distributed exactly when some distribution names its donation, and Pending otherwise. It shows the first such distribution's orphanage name, or null. |
| DonorDashboard.ImpactOf | src/pages/DonorDashboard.tsx:51-56 | One donation's impact entry keeps its id, donor, NGO, gift and creation time. It is Distributed exactly when some distribution names the donation. It then shows the first such distribution's orphanage name, and otherwise null. |
| Lifecycle.ApplyStepsForward | src/components/MatchOrphanageModal.tsx:50-103 | No action deletes a donation, request or distribution, or changes any donation or request field but its status. A donation's status stays or becomes distributed. A request's status stays or becomes accepted or rejected. Existing distributions are never altered. |
| Lifecycle.ApplyKeepsWellFormed | src/components/DonationModal.tsx:36-48 | Every action keeps every gift well shaped and every status within its record's range. An accept needs only that its donation has the id and gift of a stored donation and its request the id of a stored request: the dialog's copies may carry stale statuses. |
| Lifecycle.ApplyKeepsDonationsLinked | src/components/MatchOrphanageModal.tsx:56-80 | Every action keeps each distribution pointing at a donation with its id that is marked distributed. This holds also when the dialog's copy of the donation is stale. |
| Lifecycle.ApplyKeepsRequestsLinked | src/components/MatchOrphanageModal.tsx:56-87 | Every action except a rejection keeps each distribution pointing at a request with its id that is marked accepted. An accept needs only a stored request with the candidate's id. |
| Lifecycle.RejectAfterAcceptUnlinks | src/components/MatchOrphanageModal.tsx:98-103 | Rejecting a request that a distribution names leaves that distribution with no accepted request. |
| Lifecycle.AcceptDropsDonationFromNgoList | src/pages/NGODashboard.tsx:32-36 | After an accept, the NGO's pending list is the old one without the records carrying the accepted donation's id. |
| Lifecycle.AcceptShowsDistributed | src/pages/DonorDashboard.tsx:48-57 | After an accept, every impact entry for that donation shows Distributed. |
| Lifecycle.AcceptTwiceRecordsTwice | src/components/MatchOrphanageModal.tsx:50-87 | Accepting the same donation twice adds two distributions for it. The statuses end as after one accept. |
| Lifecycle.RouteAgreesWithGuards | src/components/AuthModal.tsx:84-98 | After a successful sign-up or log-in with a non-zero id, the route is the NGO (or donor) dashboard exactly when that dashboard admits the new session. |
| Lifecycle.ProfileUpdateCanDuplicateEmail | src/components/ProfileModal.tsx:34-38 | A profile update can give two users the same email. |
| Lifecycle.MoneyMatchExample | src/components/MatchOrphanageModal.tsx:29-87 | A money donation of 50 to NGO 7 is offered NGO 7's pending money request. Accepting writes a distribution of 50 and moves both records on. |

## Findings

| source | as written | input that shows it | evidently intended | confidence | as-written member | corrected member |
|---|---|---|---|---|---|---|
| src/components/MatchOrphanageModal.tsx:111-116 | After a rejection the list is refreshed by a filter whose last test is `request.id !== request.id`. The arrow function's parameter shadows the rejected request. The refresh also stores bare requests without the `orphanageName` the dialog adds when it opens (lines 37-44). | Any rejection, e.g. of one of two pending money requests to NGO 7: the dialog then lists nothing. | Keep the other pending matches, named as on opening, and drop only the rejected request. | high (not executed) | Matching.RejectRefreshAsWritten | Matching.RejectRefreshCandidates (with Matching.RejectRefresh, Matching.RejectRefreshIsFreshMatches and Matching.RejectRefreshCandidatesAreFresh) |

The store update of a rejection is not affected by this: `Matching.Reject` models it as written.

## Left out

- React rendering, JSX, toasts, dialogs opening and closing, and `navigate` side effects: routes are returned as values instead.
- The landing page is pure presentation and is not part of this model.
- The orphanage dashboard is not part of this model. Its data comes from HTTP services whose client is not shown.
- The service modules are not part of this model. They are thin async wrappers over an HTTP client that is not shown.
- JSON serialisation and local-storage I/O: the store is an abstract value. Where `JSON.stringify` drops an `undefined` field, the model keeps `None` instead. Both read back as `undefined`, and no comparison in the code can tell them apart.
- `parseFloat` and `parseInt` of the form strings: `amount` and `quantity` are passed in already parsed. `NaN`, which JSON stores as `null`, is not modelled.
- `Date.now()` and `new Date().toISOString()`: passed in as `id` and `now`. Ids are not assumed unique.
- The log-in handler's refill of the dialog's own form fields: it is dialog-local state and the dialog closes right after.
- Profile.InitialForm: a stored user here always has every form field as a string, since sign-up stores them all. So the per-field `|| ''` fallback can only apply when the user itself is absent.
- Concurrency between browser sessions, and any atomic check-and-set: the code has none.
