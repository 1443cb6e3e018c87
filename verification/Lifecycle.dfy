/** The handlers taken together, as steps of one state machine over the
    store, and what every step keeps or breaks. */
module Lifecycle {
  import opened Wrappers
  import opened Records
  import Seqs
  import Auth
  import Profile
  import DonationModal
  import RequestModal
  import Matching
  import NgoDashboard
  import DonorDashboard

  /** One user action that writes to the store. */
  datatype Action =
    | AuthSubmit(mode: Auth.Mode, authForm: Auth.AuthForm, id: int, now: string)
    | ProfileSubmit(user: User, profileForm: Profile.ProfileForm)
    | Donate(ngo: User, giftForm: GiftForm, amount: real, quantity: int, id: int, now: string)
    | Ask(ngo: User, giftForm: GiftForm, amount: real, quantity: int, id: int, now: string)
    | AcceptMatch(donation: Donation, cand: Matching.Candidate, id: int, now: string)
    | RejectMatch(cand: Matching.Candidate)
    | LogOut

  function Apply(s: Store, a: Action): Store {
    match a
    case AuthSubmit(mode, f, id, now) => Auth.Submit(s, mode, f, id, now).store
    case ProfileSubmit(u, f) => Profile.Update(s, u, f)
    case Donate(ngo, f, amount, quantity, id, now) => DonationModal.Submit(s, ngo, f, amount, quantity, id, now).store
    case Ask(ngo, f, amount, quantity, id, now) => RequestModal.Submit(s, ngo, f, amount, quantity, id, now).store
    case AcceptMatch(d, c, id, now) => Matching.Accept(s, d, c, id, now)
    case RejectMatch(c) => Matching.Reject(s, c)
    case LogOut => NgoDashboard.Logout(s)
  }

  /** The match dialog works on copies read from the store: the donation has
      the id and gift of a stored donation and the candidate the id of a
      stored request. The copy's status may be stale, so the dialog can accept
      a donation that an earlier accept already distributed. */
  predicate Offered(s: Store, a: Action) {
    a.AcceptMatch? ==>
      && (exists i :: 0 <= i < |s.donations| && s.donations[i].id == a.donation.id && s.donations[i].gift == a.donation.gift)
      && (exists j :: 0 <= j < |s.requests| && s.requests[j].id == a.cand.request.id)
  }

  /** Every gift carries the parts its kind calls for, and every status is one
      the record's kind can have. */
  predicate WellFormed(s: Store) {
    && (forall i :: 0 <= i < |s.donations| ==>
          WellShaped(s.donations[i].gift) && (s.donations[i].status == Pending || s.donations[i].status == Distributed))
    && (forall i :: 0 <= i < |s.requests| ==>
          WellShaped(s.requests[i].gift) && s.requests[i].status != Distributed)
    && (forall k :: 0 <= k < |s.distributions| ==> WellShaped(s.distributions[k].gift))
  }

  /** `x` names a donation in `ds` that is marked distributed. */
  predicate DonationLinked(ds: seq<Donation>, x: Distribution) {
    exists i :: 0 <= i < |ds| && ds[i].id == x.donationId && ds[i].status == Distributed
  }

  /** `x` names a request in `rs` that is marked accepted. */
  predicate RequestLinked(rs: seq<Request>, x: Distribution) {
    exists i :: 0 <= i < |rs| && rs[i].id == x.requestId && rs[i].status == Accepted
  }

  /** Every distribution names a donation that is marked distributed. */
  predicate DonationsLinked(s: Store) {
    forall k :: 0 <= k < |s.distributions| ==> DonationLinked(s.donations, s.distributions[k])
  }

  /** Every distribution names a request that is marked accepted. */
  predicate RequestsLinked(s: Store) {
    forall k :: 0 <= k < |s.distributions| ==> RequestLinked(s.requests, s.distributions[k])
  }

  /** How one step may change the donation list: records are only appended,
      and an existing record keeps its id and every field but its status,
      which either stays or becomes distributed. */
  predicate DonationStep(before: seq<Donation>, after: seq<Donation>) {
    && |before| <= |after|
    && forall i :: 0 <= i < |before| ==>
         after[i].(status := before[i].status) == before[i]
         && (after[i].status == before[i].status || after[i].status == Distributed)
  }

  /** How one step may change the request list: appended records only, and an
      existing status either stays or becomes accepted or rejected. */
  predicate RequestStep(before: seq<Request>, after: seq<Request>) {
    && |before| <= |after|
    && forall i :: 0 <= i < |before| ==>
         after[i].(status := before[i].status) == before[i]
         && (after[i].status == before[i].status || after[i].status == Accepted || after[i].status == Rejected)
  }

  /** Every step moves statuses only forward, never deletes a record, and
      never alters a distribution once written. */
  lemma ApplyStepsForward(s: Store, a: Action)
    ensures DonationStep(s.donations, Apply(s, a).donations)
    ensures RequestStep(s.requests, Apply(s, a).requests)
    ensures |s.distributions| <= |Apply(s, a).distributions|
    ensures Apply(s, a).distributions[..|s.distributions|] == s.distributions
  {
  }

  /** Every step keeps the store well formed. */
  lemma ApplyKeepsWellFormed(s: Store, a: Action)
    requires WellFormed(s) && Offered(s, a)
    ensures WellFormed(Apply(s, a))
  {
  }

  /** Every step keeps each distribution pointing at a distributed donation. */
  lemma ApplyKeepsDonationsLinked(s: Store, a: Action)
    requires DonationsLinked(s) && Offered(s, a)
    ensures DonationsLinked(Apply(s, a))
  {
  }

  /** Every step except a rejection keeps each distribution pointing at an
      accepted request. */
  lemma ApplyKeepsRequestsLinked(s: Store, a: Action)
    requires RequestsLinked(s) && Offered(s, a) && !a.RejectMatch?
    ensures RequestsLinked(Apply(s, a))
  {
  }

  /** A rejection makes no pending check either: rejecting a request that a
      distribution already names leaves that distribution without an accepted
      request, so an accepted request is not terminal. */
  lemma RejectAfterAcceptUnlinks(s: Store, cand: Matching.Candidate, k: nat)
    requires k < |s.distributions| && s.distributions[k].requestId == cand.request.id
    ensures !RequestsLinked(Matching.Reject(s, cand))
  {
  }

  /** After an accept the donation drops out of its NGO's pending list: the
      list is the old one without the records carrying the donation's id. */
  lemma AcceptDropsDonationFromNgoList(s: Store, d: Donation, c: Matching.Candidate, id: int, now: string, ngoId: int)
    ensures NgoDashboard.PendingDonations(Matching.Accept(s, d, c, id, now).donations, ngoId)
         == Seqs.Filter((x: Donation) => x.ngoId == ngoId && x.status == Pending && x.id != d.id, s.donations)
    ensures forall x :: x in NgoDashboard.PendingDonations(Matching.Accept(s, d, c, id, now).donations, ngoId) ==> x.id != d.id
  {
    var after := Matching.Accept(s, d, c, id, now).donations;
    Seqs.FilterPointwise((x: Donation) => x.ngoId == ngoId && x.status == Pending && x.id != d.id, s.donations,
                         (x: Donation) => x.ngoId == ngoId && x.status == Pending, after);
  }

  /** After an accept the donor's impact tab shows every entry for that
      donation as distributed, whatever the donation's own status. */
  lemma AcceptShowsDistributed(s: Store, d: Donation, c: Matching.Candidate, id: int, now: string, ds: seq<Donation>)
    ensures var view := DonorDashboard.Impact(ds, Matching.Accept(s, d, c, id, now).distributions);
      forall i :: 0 <= i < |view| && ds[i].id == d.id ==> view[i].status == DonorDashboard.ImpactDistributed
  {
  }

  /** The distributions recorded for one donation. */
  function DistributionsFor(dists: seq<Distribution>, donationId: int): (r: seq<Distribution>)
    ensures forall x :: x in r <==> x in dists && x.donationId == donationId
  {
    Seqs.Filter((x: Distribution) => x.donationId == donationId, dists)
  }

  /** Accepting the same donation twice records two more distributions for
      it, while the statuses end as after a single accept: nothing stops a
      donation from yielding several distributions. */
  lemma AcceptTwiceRecordsTwice(s: Store, d: Donation, c: Matching.Candidate, id1: int, t1: string, id2: int, t2: string)
    ensures var once := Matching.Accept(s, d, c, id1, t1);
      var twice := Matching.Accept(once, d, c, id2, t2);
      && |DistributionsFor(twice.distributions, d.id)| == |DistributionsFor(s.distributions, d.id)| + 2
      && twice.donations == once.donations && twice.requests == once.requests
  {
    var once := Matching.Accept(s, d, c, id1, t1);
    var twice := Matching.Accept(once, d, c, id2, t2);
    var p := (x: Distribution) => x.donationId == d.id;
    var n1 := once.distributions[|s.distributions|];
    var n2 := twice.distributions[|once.distributions|];
    assert once.distributions == s.distributions + [n1];
    assert twice.distributions == (s.distributions + [n1]) + [n2];
    Seqs.FilterConcat(p, s.distributions + [n1], [n2]);
    Seqs.FilterConcat(p, s.distributions, [n1]);
    assert Seqs.Filter(p, [n1]) == [n1] by { assert [n1][1..] == []; }
    assert Seqs.Filter(p, [n2]) == [n2] by { assert [n2][1..] == []; }
    SetStatusIdempotent(s.donations, s.requests, d.id, Distributed);
    SetStatusIdempotent(s.donations, s.requests, c.request.id, Accepted);
  }

  /** A successful sign-up or log-in navigates to a dashboard exactly when that
      dashboard's entry check lets the new session in (given a non-zero id). */
  lemma RouteAgreesWithGuards(s: Store, mode: Auth.Mode, f: Auth.AuthForm, id: int, now: string)
    requires var r := Auth.Submit(s, mode, f, id, now);
      r.error.None? && r.store.currentUser.Some? && r.store.currentUser.value.id != 0
    ensures var r := Auth.Submit(s, mode, f, id, now);
      && (r.route == Some("/ngo-dashboard") <==> NgoDashboard.Load(r.store).Some?)
      && (r.route == Some("/donor-dashboard") <==> DonorDashboard.Load(r.store).Some?)
  {
  }

  /** A profile update makes no email check, so it can give two users the
      same email although sign-up refuses that. */
  lemma ProfileUpdateCanDuplicateEmail()
    ensures var a := User(1, DONOR, "A", "a@x", "pa", "", "", "t");
      var b := User(2, DONOR, "B", "b@x", "pb", "", "", "t");
      var s := Store([a, b], [], [], [], Some(a));
      && Auth.EmailsUnique(s.users)
      && !Auth.EmailsUnique(Profile.Update(s, a, Profile.ProfileForm("A", "b@x", "", "")).users)
  {
    var a := User(1, DONOR, "A", "a@x", "pa", "", "", "t");
    var b := User(2, DONOR, "B", "b@x", "pb", "", "", "t");
    var s := Store([a, b], [], [], [], Some(a));
    var t := Profile.Update(s, a, Profile.ProfileForm("A", "b@x", "", ""));
    assert t.users[0].email == t.users[1].email;
  }

  /** A money donation of 50 to NGO 7 matched with NGO 7's pending money
      request of 50: the dialog offers that request, and accepting it records
      a distribution of 50 and moves both records on. */
  lemma MoneyMatchExample()
    ensures var g := Gift(MONEY, Some(50.0), None, None);
      var d := Donation(1, Some(2), 7, g, Pending, "t0");
      var q := Request(3, Some(4), 7, g, Pending, "t0");
      var ngo := User(7, NGO, "N", "n@x", "pn", "", "", "t0");
      var s := Store([ngo], [d], [q], [], Some(ngo));
      var cs := Matching.Candidates(s, d);
      && cs == [Matching.Candidate(q, UNKNOWN)]
      && var t := Matching.Accept(s, d, cs[0], 9, "t1");
         && |t.distributions| == 1 && t.distributions[0].gift.amount == Some(50.0)
         && t.distributions[0].ngoId == Some(7) && t.distributions[0].donorName == UNKNOWN
         && t.donations == [d.(status := Distributed)] && t.requests == [q.(status := Accepted)]
  {
  }
}
