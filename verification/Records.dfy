/** The browser record store: four lists of flat records kept under the
    `users`, `donations`, `requests` and `distributions` keys, and the
    signed-in user kept under `currentUser`. A key that has never been
    written reads as an empty list, or, for `currentUser`, as an empty object. */
module Records {
  import opened Wrappers
  import Seqs

  /** The `status` strings a donation or request can carry. */
  datatype Status = Pending | Distributed | Accepted | Rejected

  const MONEY := "money"
  const ITEM := "item"
  const DONOR := "donor"
  const NGO := "ngo"
  const ORPHANAGE := "orphanage"
  const UNKNOWN := "Unknown"

  /** A signed-up account: the sign-up form's fields plus an id and a timestamp. */
  datatype User = User(
    id: int,
    role: string,
    name: string,
    email: string,
    password: string,
    description: string,
    experience: string,
    createdAt: string)

  /** What is given or asked for. Only one of the optional parts is meant to be
      present, depending on `kind` (`"money"` or `"item"`). */
  datatype Gift = Gift(kind: string, amount: Option<real>, itemName: Option<string>, quantity: Option<int>)

  /** `donorId` comes from the signed-in user's id, which is `undefined` when
      nobody is signed in; hence an `Option`. */
  datatype Donation = Donation(
    id: int,
    donorId: Option<int>,
    ngoId: int,
    gift: Gift,
    status: Status,
    createdAt: string)

  datatype Request = Request(
    id: int,
    orphanageId: Option<int>,
    ngoId: int,
    gift: Gift,
    status: Status,
    createdAt: string)

  /** The audit record written when an NGO matches a donation to a request. */
  datatype Distribution = Distribution(
    id: int,
    donationId: int,
    requestId: int,
    ngoId: Option<int>,
    donorId: Option<int>,
    orphanageId: Option<int>,
    donorName: string,
    orphanageName: string,
    gift: Gift,
    createdAt: string)

  datatype Store = Store(
    users: seq<User>,
    donations: seq<Donation>,
    requests: seq<Request>,
    distributions: seq<Distribution>,
    currentUser: Option<User>)

  /** `currentUser.id`: `undefined` when nobody is signed in. */
  function CurrentId(s: Store): (r: Option<int>)
    ensures r.Some? <==> s.currentUser.Some?
    ensures r.Some? ==> r.value == s.currentUser.value.id
  {
    match s.currentUser
    case None => None
    case Some(u) => Some(u.id)
  }

  /** A gift carries exactly the parts its kind calls for. */
  predicate WellShaped(g: Gift) {
    && (g.amount.Some? <==> g.kind == MONEY)
    && (g.itemName.Some? <==> g.kind == ITEM)
    && (g.quantity.Some? <==> g.kind == ITEM)
  }

  /** The gift a donation or request form produces: the amount for money,
      the item name and quantity for items, and null for the parts that do
      not apply. `amount` and `quantity` are the already-parsed form entries. */
  function GiftOf(kind: string, amount: real, itemName: string, quantity: int): (g: Gift)
    ensures WellShaped(g)
    ensures g.kind == kind
    ensures kind == MONEY ==> g.amount == Some(amount)
    ensures kind == ITEM ==> g.itemName == Some(itemName) && g.quantity == Some(quantity)
  {
    Gift(kind,
         if kind == MONEY then Some(amount) else None,
         if kind == ITEM then Some(itemName) else None,
         if kind == ITEM then Some(quantity) else None)
  }

  /** The donation and request dialogs' fields, as entered. */
  datatype GiftForm = GiftForm(kind: string, amount: string, itemName: string, quantity: string)

  const EmptyGiftForm := GiftForm("", "", "", "")

  /** The store after a donation or request submission, and the dialog's
      fields afterwards. */
  datatype Submission = Submission(store: Store, form: GiftForm)

  /** The name shown for a referenced user: the name of the first user with
      that id, or `"Unknown"` when there is none or when that name is empty
      (JavaScript's `||` treats `""` as false). */
  function DisplayName(users: seq<User>, ref: Option<int>): (r: string)
    ensures r != ""
    ensures (forall i :: 0 <= i < |users| ==> Some(users[i].id) != ref) ==> r == UNKNOWN
    ensures forall i :: 0 <= i < |users| && Some(users[i].id) == ref && users[i].name != ""
                     && (forall j :: 0 <= j < i ==> Some(users[j].id) != ref)
                     ==> r == users[i].name
    ensures forall i :: 0 <= i < |users| && Some(users[i].id) == ref && users[i].name == ""
                     && (forall j :: 0 <= j < i ==> Some(users[j].id) != ref)
                     ==> r == UNKNOWN
    ensures r == UNKNOWN || exists i :: 0 <= i < |users| && Some(users[i].id) == ref && users[i].name == r
  {
    match Seqs.FirstIndex((u: User) => Some(u.id) == ref, users)
    case None => UNKNOWN
    case Some(i) => if users[i].name == "" then UNKNOWN else users[i].name
  }

  /** `list.map(x => hit(x) ? change(x) : x)`. */
  function UpdateWhere<T>(s: seq<T>, hit: T -> bool, change: T -> T): (r: seq<T>)
    ensures |r| == |s|
    ensures forall i :: 0 <= i < |s| ==> r[i] == if hit(s[i]) then change(s[i]) else s[i]
  {
    seq(|s|, i requires 0 <= i < |s| => if hit(s[i]) then change(s[i]) else s[i])
  }

  /** Gives every donation with this id the status `st`. Only the status field
      of those donations changes; the list keeps its length and order. */
  function SetDonationStatus(ds: seq<Donation>, id: int, st: Status): (r: seq<Donation>)
    ensures |r| == |ds|
    ensures forall i :: 0 <= i < |ds| && ds[i].id == id ==> r[i].status == st
    ensures forall i :: 0 <= i < |ds| ==> r[i].(status := ds[i].status) == ds[i]
    ensures forall i :: 0 <= i < |ds| && ds[i].id != id ==> r[i] == ds[i]
  {
    UpdateWhere(ds, (d: Donation) => d.id == id, (d: Donation) => d.(status := st))
  }

  /** Gives every request with this id the status `st`, changing nothing else. */
  function SetRequestStatus(rs: seq<Request>, id: int, st: Status): (r: seq<Request>)
    ensures |r| == |rs|
    ensures forall i :: 0 <= i < |rs| && rs[i].id == id ==> r[i].status == st
    ensures forall i :: 0 <= i < |rs| ==> r[i].(status := rs[i].status) == rs[i]
    ensures forall i :: 0 <= i < |rs| && rs[i].id != id ==> r[i] == rs[i]
  {
    UpdateWhere(rs, (q: Request) => q.id == id, (q: Request) => q.(status := st))
  }

  /** Setting a status twice is setting it once. */
  lemma SetStatusIdempotent(ds: seq<Donation>, rs: seq<Request>, id: int, st: Status)
    ensures SetDonationStatus(SetDonationStatus(ds, id, st), id, st) == SetDonationStatus(ds, id, st)
    ensures SetRequestStatus(SetRequestStatus(rs, id, st), id, st) == SetRequestStatus(rs, id, st)
  {
  }

  /** A dashboard's entry check, `!user.id || user.role !== role` negated:
      someone is signed in, with a non-zero id (0 is false in JavaScript) and
      the dashboard's role. */
  predicate Admits(currentUser: Option<User>, role: string) {
    currentUser.Some? && currentUser.value.id != 0 && currentUser.value.role == role
  }
}
