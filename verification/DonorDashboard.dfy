/** What the donor dashboard loads from the store and shows. */
module DonorDashboard {
  import opened Wrappers
  import opened Records
  import Seqs

  datatype View = View(user: User, ngos: seq<User>, donations: seq<Donation>)

  /** The users who can be donated to: those whose role is `"ngo"`. */
  function Ngos(users: seq<User>): (r: seq<User>)
    ensures forall u :: u in r <==> u in users && u.role == NGO
    ensures forall u :: multiset(r)[u] == if u.role == NGO then multiset(users)[u] else 0
    ensures Seqs.IsSubsequence(r, users)
  {
    var keep := (u: User) => u.role == NGO;
    Seqs.FilterCount(keep, users);
    Seqs.FilterIsSubsequence(keep, users);
    Seqs.Filter(keep, users)
  }

  /** The donations made by the user with id `donorId`. */
  function OwnDonations(ds: seq<Donation>, donorId: int): (r: seq<Donation>)
    ensures forall x :: x in r <==> x in ds && x.donorId == Some(donorId)
    ensures forall x :: multiset(r)[x] == if x.donorId == Some(donorId) then multiset(ds)[x] else 0
    ensures Seqs.IsSubsequence(r, ds)
  {
    var keep := (d: Donation) => d.donorId == Some(donorId);
    Seqs.FilterCount(keep, ds);
    Seqs.FilterIsSubsequence(keep, ds);
    Seqs.Filter(keep, ds)
  }

  /** Opening the dashboard: a redirect (None) unless a donor with a non-zero
      id is signed in; otherwise that user, the NGO list and their donations. */
  function Load(s: Store): (r: Option<View>)
    ensures r.Some? <==> s.currentUser.Some? && s.currentUser.value.id != 0 && s.currentUser.value.role == DONOR
    ensures r.Some? ==> r.value.user == s.currentUser.value
    ensures r.Some? ==> r.value.ngos == Ngos(s.users)
    ensures r.Some? ==> r.value.donations == OwnDonations(s.donations, r.value.user.id)
  {
    if Admits(s.currentUser, DONOR) then
      var u := s.currentUser.value;
      Some(View(u, Ngos(s.users), OwnDonations(s.donations, u.id)))
    else None
  }

  /** The impact badge: `'Distributed'` or `'Pending'`. */
  datatype ImpactStatus = ImpactDistributed | ImpactPending

  /** A donation as the impact tab shows it: its own fields, except that the
      status is replaced by the impact status and an orphanage name is added. */
  datatype ImpactEntry = ImpactEntry(
    id: int,
    donorId: Option<int>,
    ngoId: int,
    gift: Gift,
    createdAt: string,
    status: ImpactStatus,
    orphanage: Option<string>)

  function ImpactOf(d: Donation, dists: seq<Distribution>): (r: ImpactEntry)
    ensures r.id == d.id && r.donorId == d.donorId && r.ngoId == d.ngoId
    ensures r.gift == d.gift && r.createdAt == d.createdAt
    ensures r.status == ImpactDistributed <==> exists k :: 0 <= k < |dists| && dists[k].donationId == d.id
    ensures r.orphanage.None? <==> r.status == ImpactPending
    ensures forall k :: 0 <= k < |dists| && dists[k].donationId == d.id
                     && (forall j :: 0 <= j < k ==> dists[j].donationId != d.id)
                     ==> r.orphanage == Some(dists[k].orphanageName)
  {
    match Seqs.FirstIndex((x: Distribution) => x.donationId == d.id, dists)
    case None => ImpactEntry(d.id, d.donorId, d.ngoId, d.gift, d.createdAt, ImpactPending, None)
    case Some(k) => ImpactEntry(d.id, d.donorId, d.ngoId, d.gift, d.createdAt, ImpactDistributed, Some(dists[k].orphanageName))
  }

  /** The impact tab. Its status comes from the distribution list, not from
      the donation's own status: an entry is distributed exactly when some
      distribution names its donation, and then shows the first such
      distribution's orphanage. */
  function Impact(donations: seq<Donation>, dists: seq<Distribution>): (r: seq<ImpactEntry>)
    ensures |r| == |donations|
    ensures forall i :: 0 <= i < |r| ==>
              && r[i].id == donations[i].id && r[i].donorId == donations[i].donorId
              && r[i].ngoId == donations[i].ngoId && r[i].gift == donations[i].gift
              && r[i].createdAt == donations[i].createdAt
    ensures forall i :: 0 <= i < |r| ==>
              (r[i].status == ImpactDistributed <==> exists k :: 0 <= k < |dists| && dists[k].donationId == donations[i].id)
    ensures forall i :: 0 <= i < |r| ==> (r[i].orphanage.None? <==> r[i].status == ImpactPending)
    ensures forall i, k :: 0 <= i < |r| && 0 <= k < |dists| && dists[k].donationId == donations[i].id
                        && (forall j :: 0 <= j < k ==> dists[j].donationId != donations[i].id)
                        ==> r[i].orphanage == Some(dists[k].orphanageName)
  {
    seq(|donations|, i requires 0 <= i < |donations| => ImpactOf(donations[i], dists))
  }
}
