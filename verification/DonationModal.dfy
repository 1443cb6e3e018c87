/** The donor's dialog for giving to one NGO. */
module DonationModal {
  import opened Wrappers
  import opened Records

  /** The donation a submission records: from the signed-in user to `ngo`,
      pending, with the gift the form describes. `amount` and `quantity` are
      the form's entries already parsed. */
  function NewDonation(s: Store, ngo: User, form: GiftForm, amount: real, quantity: int, id: int, now: string): (d: Donation)
    ensures d.id == id && d.createdAt == now
    ensures d.status == Pending && d.donorId == CurrentId(s) && d.ngoId == ngo.id
    ensures d.gift.kind == form.kind && WellShaped(d.gift)
    ensures form.kind == MONEY ==> d.gift.amount == Some(amount) && d.gift.itemName.None? && d.gift.quantity.None?
    ensures form.kind == ITEM ==> d.gift.amount.None? && d.gift.itemName == Some(form.itemName) && d.gift.quantity == Some(quantity)
  {
    Donation(id, CurrentId(s), ngo.id, GiftOf(form.kind, amount, form.itemName, quantity), Pending, now)
  }

  /** Submitting the dialog appends exactly one donation after the existing
      ones, touches no other list, and clears the form. */
  function Submit(s: Store, ngo: User, form: GiftForm, amount: real, quantity: int, id: int, now: string): (r: Submission)
    ensures |r.store.donations| == |s.donations| + 1
    ensures r.store.donations[..|s.donations|] == s.donations
    ensures r.store.donations[|s.donations|] == NewDonation(s, ngo, form, amount, quantity, id, now)
    ensures r.store.users == s.users && r.store.requests == s.requests
    ensures r.store.distributions == s.distributions && r.store.currentUser == s.currentUser
    ensures r.form == EmptyGiftForm
  {
    Submission(s.(donations := s.donations + [NewDonation(s, ngo, form, amount, quantity, id, now)]), EmptyGiftForm)
  }
}
