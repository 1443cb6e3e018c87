/** What the NGO dashboard loads from the store and shows. */
module NgoDashboard {
  import opened Wrappers
  import opened Records
  import Seqs

  /** The dashboard's lists: pending donations to this NGO, every request
      addressed to it, and the distributions it recorded. */
  datatype View = View(user: User, donations: seq<Donation>, requests: seq<Request>, distributions: seq<Distribution>)

  /** The donations addressed to `ngoId` that are still pending, in stored order. */
  function PendingDonations(ds: seq<Donation>, ngoId: int): (r: seq<Donation>)
    ensures forall x :: x in r <==> x in ds && x.ngoId == ngoId && x.status == Pending
    ensures forall x :: multiset(r)[x] == if x.ngoId == ngoId && x.status == Pending then multiset(ds)[x] else 0
    ensures Seqs.IsSubsequence(r, ds)
  {
    var keep := (d: Donation) => d.ngoId == ngoId && d.status == Pending;
    Seqs.FilterCount(keep, ds);
    Seqs.FilterIsSubsequence(keep, ds);
    Seqs.Filter(keep, ds)
  }

  /** Every request addressed to `ngoId`, whatever its status. */
  function AddressedRequests(rs: seq<Request>, ngoId: int): (r: seq<Request>)
    ensures forall x :: x in r <==> x in rs && x.ngoId == ngoId
    ensures forall x :: multiset(r)[x] == if x.ngoId == ngoId then multiset(rs)[x] else 0
    ensures Seqs.IsSubsequence(r, rs)
  {
    var keep := (q: Request) => q.ngoId == ngoId;
    Seqs.FilterCount(keep, rs);
    Seqs.FilterIsSubsequence(keep, rs);
    Seqs.Filter(keep, rs)
  }

  /** The requests tab: the loaded requests that are pending. */
  function PendingTab(rs: seq<Request>): (r: seq<Request>)
    ensures forall x :: x in r <==> x in rs && x.status == Pending
    ensures forall x :: multiset(r)[x] == if x.status == Pending then multiset(rs)[x] else 0
    ensures Seqs.IsSubsequence(r, rs)
  {
    var keep := (q: Request) => q.status == Pending;
    Seqs.FilterCount(keep, rs);
    Seqs.FilterIsSubsequence(keep, rs);
    Seqs.Filter(keep, rs)
  }

  /** The distributions whose NGO id is `ngoId`. */
  function OwnDistributions(dists: seq<Distribution>, ngoId: int): (r: seq<Distribution>)
    ensures forall x :: x in r <==> x in dists && x.ngoId == Some(ngoId)
    ensures forall x :: multiset(r)[x] == if x.ngoId == Some(ngoId) then multiset(dists)[x] else 0
    ensures Seqs.IsSubsequence(r, dists)
  {
    var keep := (d: Distribution) => d.ngoId == Some(ngoId);
    Seqs.FilterCount(keep, dists);
    Seqs.FilterIsSubsequence(keep, dists);
    Seqs.Filter(keep, dists)
  }

  /** Opening the dashboard: a redirect (None) unless an NGO with a non-zero
      id is signed in; otherwise that user and the three lists for its id. */
  function Load(s: Store): (r: Option<View>)
    ensures r.Some? <==> s.currentUser.Some? && s.currentUser.value.id != 0 && s.currentUser.value.role == NGO
    ensures r.Some? ==> r.value.user == s.currentUser.value
    ensures r.Some? ==> r.value.donations == PendingDonations(s.donations, r.value.user.id)
    ensures r.Some? ==> r.value.requests == AddressedRequests(s.requests, r.value.user.id)
    ensures r.Some? ==> r.value.distributions == OwnDistributions(s.distributions, r.value.user.id)
  {
    if Admits(s.currentUser, NGO) then
      var u := s.currentUser.value;
      Some(View(u, PendingDonations(s.donations, u.id), AddressedRequests(s.requests, u.id),
                OwnDistributions(s.distributions, u.id)))
    else None
  }

  /** The requests tab shows exactly the pending requests addressed to this
      NGO, in stored order, although all its requests were loaded. */
  lemma RequestsTabIsPendingAddressed(rs: seq<Request>, ngoId: int)
    ensures PendingTab(AddressedRequests(rs, ngoId))
         == Seqs.Filter((q: Request) => q.ngoId == ngoId && q.status == Pending, rs)
  {
    Seqs.FilterFilter((q: Request) => q.status == Pending, (q: Request) => q.ngoId == ngoId,
                      (q: Request) => q.ngoId == ngoId && q.status == Pending, rs);
  }

  /** Logging out forgets the signed-in user and nothing else. */
  function Logout(s: Store): (r: Store)
    ensures r.currentUser.None?
    ensures r.users == s.users && r.donations == s.donations
    ensures r.requests == s.requests && r.distributions == s.distributions
  {
    s.(currentUser := None)
  }
}
