/** The profile dialog: the fields it starts with and how submitting it
    rewrites the user's record and the session copy. */
module Profile {
  import opened Wrappers
  import opened Records

  datatype ProfileForm = ProfileForm(name: string, email: string, description: string, experience: string)

  /** The form's starting values: the user's own fields, or empty strings when
      there is no user. (`x || ''` is `x` for any string.) */
  function InitialForm(user: Option<User>): (f: ProfileForm)
    ensures user.None? ==> f == ProfileForm("", "", "", "")
    ensures user.Some? ==> f.name == user.value.name && f.email == user.value.email
    ensures user.Some? ==> f.description == user.value.description && f.experience == user.value.experience
  {
    match user
    case None => ProfileForm("", "", "", "")
    case Some(u) => ProfileForm(u.name, u.email, u.description, u.experience)
  }

  /** `{ ...u, ...formData }`: the form's four fields overwrite the user's; id,
      role, password and creation time are kept. */
  function Merge(u: User, f: ProfileForm): (r: User)
    ensures r.id == u.id && r.role == u.role && r.password == u.password && r.createdAt == u.createdAt
    ensures r.name == f.name && r.email == f.email && r.description == f.description && r.experience == f.experience
  {
    u.(name := f.name, email := f.email, description := f.description, experience := f.experience)
  }

  /** Submitting the dialog for `user`: every stored user with that id is
      merged with the form, all others are left as they were, and the session
      becomes `user` merged with the form. Donations, requests and
      distributions are untouched. No email check is made. */
  function Update(s: Store, user: User, f: ProfileForm): (r: Store)
    ensures |r.users| == |s.users|
    ensures forall i :: 0 <= i < |s.users| && s.users[i].id == user.id ==> r.users[i] == Merge(s.users[i], f)
    ensures forall i :: 0 <= i < |s.users| && s.users[i].id != user.id ==> r.users[i] == s.users[i]
    ensures r.currentUser == Some(Merge(user, f))
    ensures r.donations == s.donations && r.requests == s.requests && r.distributions == s.distributions
  {
    s.(users := UpdateWhere(s.users, (u: User) => u.id == user.id, (u: User) => Merge(u, f)),
       currentUser := Some(Merge(user, f)))
  }

  /** Submitting the same profile twice is submitting it once. */
  lemma UpdateIdempotent(s: Store, user: User, f: ProfileForm)
    ensures Update(Update(s, user, f), user, f) == Update(s, user, f)
  {
  }

  /** Submitting the untouched form of the signed-in user changes nothing,
      provided every stored record with that id is that user. */
  lemma UntouchedFormIsNoOp(s: Store, user: User)
    requires s.currentUser == Some(user)
    requires forall i :: 0 <= i < |s.users| && s.users[i].id == user.id ==> s.users[i] == user
    ensures Update(s, user, InitialForm(Some(user))) == s
  {
  }
}
