/** The sign-up / log-in dialog: what submitting it writes and where it sends
    the user. */
module Auth {
  import opened Wrappers
  import opened Records
  import Seqs

  datatype Mode = Login | Signup

  /** The dialog's fields; a log-in only reads `email` and `password`. */
  datatype AuthForm = AuthForm(
    role: string,
    name: string,
    email: string,
    password: string,
    description: string,
    experience: string)

  datatype AuthError = EmailTaken | BadCredentials

  /** The store after a submission, the error shown if it failed, and the
      route navigated to if it succeeded. */
  datatype AuthReply = AuthReply(store: Store, error: Option<AuthError>, route: Option<string>)

  /** The route for a role; an unrecognised role navigates nowhere. */
  function RouteFor(role: string): (r: Option<string>)
    ensures r == Some("/donor-dashboard") <==> role == DONOR
    ensures r == Some("/ngo-dashboard") <==> role == NGO
    ensures r == Some("/orphanage-dashboard") <==> role == ORPHANAGE
    ensures r.None? <==> role != DONOR && role != NGO && role != ORPHANAGE
  {
    if role == DONOR then Some("/donor-dashboard")
    else if role == NGO then Some("/ngo-dashboard")
    else if role == ORPHANAGE then Some("/orphanage-dashboard")
    else None
  }

  /** No two users share an email. */
  predicate EmailsUnique(users: seq<User>) {
    forall i, j :: 0 <= i < |users| && 0 <= j < |users| && i != j ==> users[i].email != users[j].email
  }

  predicate EmailTakenIn(users: seq<User>, email: string) {
    exists i :: 0 <= i < |users| && users[i].email == email
  }

  /** The account a sign-up creates: the form's fields between the new id and
      the creation time. */
  function NewUser(form: AuthForm, id: int, now: string): (u: User)
    ensures u.id == id && u.createdAt == now
    ensures u.role == form.role && u.name == form.name
    ensures u.description == form.description && u.experience == form.experience
    ensures CredentialsMatch(u, form)
  {
    User(id, form.role, form.name, form.email, form.password, form.description, form.experience, now)
  }

  /** Sign-up: refused with no change when the email is already taken;
      otherwise the new user is appended and becomes the signed-in user, and
      the route follows the form's role. */
  function DoSignup(s: Store, form: AuthForm, id: int, now: string): (r: AuthReply)
    ensures r.error.Some? <==> EmailTakenIn(s.users, form.email)
    ensures r.error.Some? ==> r.error.value == EmailTaken && r.store == s && r.route.None?
    ensures r.error.None? ==>
      && r.store.users == s.users + [NewUser(form, id, now)]
      && r.store.currentUser == Some(NewUser(form, id, now))
      && r.route == RouteFor(form.role)
    ensures r.store.donations == s.donations && r.store.requests == s.requests
    ensures r.store.distributions == s.distributions
  {
    match Seqs.FirstIndex((u: User) => u.email == form.email, s.users)
    case Some(_) => AuthReply(s, Some(EmailTaken), None)
    case None =>
      var u := NewUser(form, id, now);
      AuthReply(s.(users := s.users + [u], currentUser := Some(u)), None, RouteFor(form.role))
  }

  predicate CredentialsMatch(u: User, form: AuthForm) {
    u.email == form.email && u.password == form.password
  }

  /** Log-in: succeeds exactly when some user has both the email and the
      password; the first such user becomes the signed-in user and the route
      follows that user's role. The user list never changes, and a failed
      log-in changes nothing at all. */
  function DoLogin(s: Store, form: AuthForm): (r: AuthReply)
    ensures r.store.users == s.users && r.store.donations == s.donations
    ensures r.store.requests == s.requests && r.store.distributions == s.distributions
    ensures r.error.None? <==> exists i :: 0 <= i < |s.users| && CredentialsMatch(s.users[i], form)
    ensures r.error.Some? ==> r.error.value == BadCredentials && r.store == s && r.route.None?
    ensures r.error.None? ==>
              exists i :: 0 <= i < |s.users| && CredentialsMatch(s.users[i], form)
                && (forall j :: 0 <= j < i ==> !CredentialsMatch(s.users[j], form))
                && r.store.currentUser == Some(s.users[i])
                && r.route == RouteFor(s.users[i].role)
  {
    match Seqs.FirstIndex((u: User) => CredentialsMatch(u, form), s.users)
    case None => AuthReply(s, Some(BadCredentials), None)
    case Some(i) => AuthReply(s.(currentUser := Some(s.users[i])), None, RouteFor(s.users[i].role))
  }

  /** The dialog's submit handler. */
  function Submit(s: Store, mode: Mode, form: AuthForm, id: int, now: string): (r: AuthReply)
    ensures r.error.None? ==> r.store.currentUser.Some? && r.route == RouteFor(r.store.currentUser.value.role)
    ensures r.error.Some? ==> r.store == s && r.route.None?
    ensures mode == Login ==> r.store.users == s.users
  {
    match mode
    case Signup => DoSignup(s, form, id, now)
    case Login => DoLogin(s, form)
  }

  /** Sign-up keeps emails unique: a refusal changes nothing, and an accepted
      email was not yet taken. */
  lemma SignupKeepsEmailsUnique(s: Store, form: AuthForm, id: int, now: string)
    requires EmailsUnique(s.users)
    ensures EmailsUnique(DoSignup(s, form, id, now).store.users)
  {
  }

  /** A fresh sign-up can log straight back in: logging in with the same
      email and password finds the account just created, since no earlier
      account has that email. */
  lemma {:induction false} SignupThenLogin(s: Store, form: AuthForm, id: int, now: string)
    requires DoSignup(s, form, id, now).error.None?
    ensures var after := DoSignup(s, form, id, now).store;
      DoLogin(after, form) == AuthReply(after, None, RouteFor(form.role))
  {
    var after := DoSignup(s, form, id, now).store;
    var p := (u: User) => CredentialsMatch(u, form);
    assert Seqs.FirstIndex(p, s.users).None? by {
      forall j | 0 <= j < |s.users| ensures !p(s.users[j]) {
        assert !(s.users[j].email == form.email);
      }
    }
    Seqs.FirstIndexAppend(p, s.users, NewUser(form, id, now));
    assert Seqs.FirstIndex(p, after.users) == Some(|s.users|);
  }
}
