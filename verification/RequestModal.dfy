/** The orphanage's dialog for asking one NGO for help. */
module RequestModal {
  import opened Wrappers
  import opened Records

  /** The request a submission records: from the signed-in user to `ngo`,
      pending, with the gift the form describes. `amount` and `quantity` are
      the form's entries already parsed. */
  function NewRequest(s: Store, ngo: User, form: GiftForm, amount: real, quantity: int, id: int, now: string): (q: Request)
    ensures q.id == id && q.createdAt == now
    ensures q.status == Pending && q.orphanageId == CurrentId(s) && q.ngoId == ngo.id
    ensures q.gift.kind == form.kind && WellShaped(q.gift)
    ensures form.kind == MONEY ==> q.gift.amount == Some(amount) && q.gift.itemName.None? && q.gift.quantity.None?
    ensures form.kind == ITEM ==> q.gift.amount.None? && q.gift.itemName == Some(form.itemName) && q.gift.quantity == Some(quantity)
  {
    Request(id, CurrentId(s), ngo.id, GiftOf(form.kind, amount, form.itemName, quantity), Pending, now)
  }

  /** Submitting the dialog appends exactly one request after the existing
      ones, touches no other list, and clears the form. */
  function Submit(s: Store, ngo: User, form: GiftForm, amount: real, quantity: int, id: int, now: string): (r: Submission)
    ensures |r.store.requests| == |s.requests| + 1
    ensures r.store.requests[..|s.requests|] == s.requests
    ensures r.store.requests[|s.requests|] == NewRequest(s, ngo, form, amount, quantity, id, now)
    ensures r.store.users == s.users && r.store.donations == s.donations
    ensures r.store.distributions == s.distributions && r.store.currentUser == s.currentUser
    ensures r.form == EmptyGiftForm
  {
    Submission(s.(requests := s.requests + [NewRequest(s, ngo, form, amount, quantity, id, now)]), EmptyGiftForm)
  }
}
