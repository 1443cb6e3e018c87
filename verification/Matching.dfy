/** The NGO's match dialog for one donation: the candidate requests it
    offers, and what accepting or rejecting a candidate writes to the store. */
module Matching {
  import opened Records
  import Seqs

  /** A request as the dialog lists it, with its orphanage's display name. */
  datatype Candidate = Candidate(request: Request, orphanageName: string)

  /** The stored requests the dialog offers for `donation`: those addressed to
      the same NGO, of the same kind, and still pending, in stored order. */
  function PendingMatches(requests: seq<Request>, donation: Donation): (r: seq<Request>)
    ensures forall x :: x in r <==>
      x in requests && x.ngoId == donation.ngoId && x.gift.kind == donation.gift.kind && x.status == Pending
    ensures forall x :: multiset(r)[x] ==
                if x.ngoId == donation.ngoId && x.gift.kind == donation.gift.kind && x.status == Pending
                then multiset(requests)[x] else 0
    ensures Seqs.IsSubsequence(r, requests)
  {
    var keep := (q: Request) => q.ngoId == donation.ngoId && q.gift.kind == donation.gift.kind && q.status == Pending;
    Seqs.FilterCount(keep, requests);
    Seqs.FilterIsSubsequence(keep, requests);
    Seqs.Filter(keep, requests)
  }

  /** The dialog's list: the pending matches, each named after the first user
      whose id is the request's orphanage id. */
  function Candidates(s: Store, donation: Donation): (r: seq<Candidate>)
    ensures |r| == |PendingMatches(s.requests, donation)|
    ensures forall i :: 0 <= i < |r| ==>
      r[i].request == PendingMatches(s.requests, donation)[i] &&
      r[i].orphanageName == DisplayName(s.users, r[i].request.orphanageId)
  {
    var matching := PendingMatches(s.requests, donation);
    seq(|matching|, i requires 0 <= i < |matching| =>
      Candidate(matching[i], DisplayName(s.users, matching[i].orphanageId)))
  }

  /** The candidate list never mixes kinds: an item donation is never offered
      a money request, and a money donation never an item request, whatever
      the NGO ids. */
  lemma CandidatesKeepKind(s: Store, donation: Donation)
    ensures forall c :: c in Candidates(s, donation) ==>
      c.request.gift.kind == donation.gift.kind && c.request.ngoId == donation.ngoId && c.request.status == Pending
    ensures donation.gift.kind == ITEM ==> forall c :: c in Candidates(s, donation) ==> c.request.gift.kind != MONEY
    ensures donation.gift.kind == MONEY ==> forall c :: c in Candidates(s, donation) ==> c.request.gift.kind != ITEM
  {
  }

  /** The distribution record accepting `cand` for `donation` writes. Its gift
      is the donation's, not the request's; its NGO is whoever is signed in. */
  function NewDistribution(s: Store, donation: Donation, cand: Candidate, id: int, now: string): (r: Distribution)
    ensures r.id == id && r.createdAt == now
    ensures r.donationId == donation.id && r.donorId == donation.donorId && r.gift == donation.gift
    ensures r.requestId == cand.request.id && r.orphanageId == cand.request.orphanageId
    ensures r.orphanageName == cand.orphanageName
    ensures r.ngoId == CurrentId(s)
    ensures r.donorName == DisplayName(s.users, donation.donorId)
  {
    Distribution(
      id := id,
      donationId := donation.id,
      requestId := cand.request.id,
      ngoId := CurrentId(s),
      donorId := donation.donorId,
      orphanageId := cand.request.orphanageId,
      donorName := DisplayName(s.users, donation.donorId),
      orphanageName := cand.orphanageName,
      gift := donation.gift,
      createdAt := now)
  }

  /** Accepting a candidate: one distribution is appended, every donation with
      the donation's id becomes distributed and every request with the
      request's id becomes accepted. Nothing is re-checked first, so a
      donation or request that is no longer pending is matched again.
      `id` and `now` stand for `Date.now()` and the ISO timestamp. */
  function Accept(s: Store, donation: Donation, cand: Candidate, id: int, now: string): (r: Store)
    ensures r.users == s.users && r.currentUser == s.currentUser
    ensures |r.distributions| == |s.distributions| + 1
    ensures r.distributions[..|s.distributions|] == s.distributions
    ensures var nd := r.distributions[|s.distributions|];
      && nd.id == id && nd.createdAt == now
      && nd.donationId == donation.id && nd.requestId == cand.request.id
      && nd.donorId == donation.donorId && nd.orphanageId == cand.request.orphanageId
      && nd.ngoId == CurrentId(s)
      && nd.gift == donation.gift
      && nd.orphanageName == cand.orphanageName
      && nd.donorName == DisplayName(s.users, donation.donorId)
    ensures |r.donations| == |s.donations|
    ensures forall i :: 0 <= i < |s.donations| ==>
      r.donations[i] == if s.donations[i].id == donation.id then s.donations[i].(status := Distributed) else s.donations[i]
    ensures |r.requests| == |s.requests|
    ensures forall i :: 0 <= i < |s.requests| ==>
      r.requests[i] == if s.requests[i].id == cand.request.id then s.requests[i].(status := Accepted) else s.requests[i]
  {
    s.(distributions := s.distributions + [NewDistribution(s, donation, cand, id, now)],
       donations := SetDonationStatus(s.donations, donation.id, Distributed),
       requests := SetRequestStatus(s.requests, cand.request.id, Accepted))
  }

  /** Rejecting a candidate: every request with its id becomes rejected;
      users, donations, distributions and the session are untouched. */
  function Reject(s: Store, cand: Candidate): (r: Store)
    ensures r.users == s.users && r.donations == s.donations
    ensures r.distributions == s.distributions && r.currentUser == s.currentUser
    ensures |r.requests| == |s.requests|
    ensures forall i :: 0 <= i < |s.requests| ==>
      r.requests[i] == if s.requests[i].id == cand.request.id then s.requests[i].(status := Rejected) else s.requests[i]
  {
    s.(requests := SetRequestStatus(s.requests, cand.request.id, Rejected))
  }

  /** The list the dialog shows after a rejection, as written: the inner
      arrow function's parameter shadows the rejected request, so the last
      test compares a request's id with itself and nothing survives. */
  function RejectRefreshAsWritten(before: seq<Request>, donation: Donation): (r: seq<Request>)
    ensures r == []
  {
    var keep := (q: Request) => q.ngoId == donation.ngoId && q.gift.kind == donation.gift.kind
                                && q.status == Pending && q.id != q.id;
    Seqs.FilterNoneKept(keep, before);
    Seqs.Filter(keep, before)
  }

  /** The list the dialog evidently meant to show after a rejection: the
      pending matches read before the write, minus the rejected request. */
  function RejectRefresh(before: seq<Request>, donation: Donation, rejected: Candidate): (r: seq<Request>)
    ensures forall x :: x in r <==> x in PendingMatches(before, donation) && x.id != rejected.request.id
  {
    Seqs.Filter((q: Request) => q.ngoId == donation.ngoId && q.gift.kind == donation.gift.kind
                                && q.status == Pending && q.id != rejected.request.id,
                before)
  }

  /** The corrected refresh holds the same requests that reopening the dialog
      would list after the rejection: the pending matches of the updated
      request list. */
  lemma RejectRefreshIsFreshMatches(s: Store, donation: Donation, cand: Candidate)
    ensures RejectRefresh(s.requests, donation, cand) == PendingMatches(Reject(s, cand).requests, donation)
  {
    var after := Reject(s, cand).requests;
    Seqs.FilterPointwise(
      (q: Request) => q.ngoId == donation.ngoId && q.gift.kind == donation.gift.kind
                      && q.status == Pending && q.id != cand.request.id,
      s.requests,
      (q: Request) => q.ngoId == donation.ngoId && q.gift.kind == donation.gift.kind && q.status == Pending,
      after);
  }

  /** The refresh stores bare requests, so its cards would carry no
      orphanage name and an accept from it would record none. The corrected
      refresh names each request as the dialog does when it opens. */
  function RejectRefreshCandidates(s: Store, donation: Donation, rejected: Candidate): (r: seq<Candidate>)
    ensures |r| == |RejectRefresh(s.requests, donation, rejected)|
    ensures forall i :: 0 <= i < |r| ==>
      r[i].request == RejectRefresh(s.requests, donation, rejected)[i] &&
      r[i].orphanageName == DisplayName(s.users, r[i].request.orphanageId)
    ensures forall c :: c in r ==>
      c.request in PendingMatches(s.requests, donation) && c.request.id != rejected.request.id
  {
    var m := RejectRefresh(s.requests, donation, rejected);
    seq(|m|, i requires 0 <= i < |m| => Candidate(m[i], DisplayName(s.users, m[i].orphanageId)))
  }

  /** With the names added, the corrected refresh is exactly the list that
      reopening the dialog would show after the rejection. */
  lemma RejectRefreshCandidatesAreFresh(s: Store, donation: Donation, cand: Candidate)
    ensures RejectRefreshCandidates(s, donation, cand) == Candidates(Reject(s, cand), donation)
  {
    RejectRefreshIsFreshMatches(s, donation, cand);
  }
}
