/** The session store of src/contexts/AuthContext.tsx: the snapshot
    `(user, isLoading)` and the operations that replace it.

    Every call into the identity provider is an input: the way its promise
    settles (`Call`) and, when it resolves, the reply the provider's client
    gives. Each operation is one atomic transition from the snapshot before it
    to the snapshot after it, together with the outcome its caller sees and the
    provider requests it issued, in order. */
module AuthContext {
  import opened Common
  import opened AuthTypes
  import opened AuthSchemas

  /** The snapshot every consumer reads. */
  datatype Session = Session(user: Option<User>, isLoading: bool)

  /** Before the restore effect has settled: nobody, still loading. */
  const Initial: Session := Session(None, true)

  /** The user object the provider's auth client hands back. */
  datatype AuthUser = AuthUser(id: string, email: Option<string>)

  /** A reply from sign-in, sign-up or session lookup: the client returns either
      an error or a (possibly missing) user. */
  datatype AuthReply = AuthOk(user: Option<AuthUser>) | AuthError(message: string)

  /** A row of the `users` table, with `None` for a column that is null or was
      not selected. */
  datatype ProfileRow = ProfileRow(
    name: Option<string>,
    bio: Option<string>,
    location: Option<string>,
    profileImage: Option<string>)

  /** A reply from a single-row select: the row (possibly null) or an error. */
  datatype QueryReply = QueryOk(row: Option<ProfileRow>) | QueryError(message: string)

  /** A reply from a write (insert, update, auth update): success or an error. */
  datatype WriteReply = WriteOk | WriteError(message: string)

  /** The row registration inserts into the `users` table. */
  datatype NewUserRow = NewUserRow(id: string, email: string, name: string, bio: string, profileImage: string)

  /** A request sent to the identity provider. */
  datatype Request =
    | SignInWithPassword(email: string, password: string)
    | SignUp(email: string, password: string)
    | SignOut
    | GetUser
    | SelectProfile(id: string, columns: seq<string>)
    | InsertUser(row: NewUserRow)
    | UpdateAuthEmail(email: string)
    | UpdateUserRow(id: string, name: string, bio: string, location: string)

  /** The columns login and restore read from the `users` table. */
  const LoginColumns: seq<string> := ["name", "bio", "location", "profile_image"]
  const RestoreColumns: seq<string> := ["name", "bio", "profile_image"]

  const LoginFailed := "Login failed"
  const RegistrationFailed := "Registration failed"

  /** One operation's effect: the snapshot afterwards, what its caller sees,
      and the provider requests it made, in order. */
  datatype Step = Step(session: Session, result: Outcome, requests: seq<Request>)

  /** A field of a profile row that may itself be missing. */
  function Column(row: Option<ProfileRow>, f: ProfileRow -> Option<string>): Option<string> {
    if row.Some? then f(row.value) else None
  }

  /** Every profile field is set (possibly to the empty string). */
  predicate FullProfile(u: User) {
    u.name.Some? && u.bio.Some? && u.profileImage.Some? && u.location.Some?
  }

  /** The user login builds: the provider email or "", and each of the four
      profile fields from the row, or "" when missing or empty. */
  function LoginUser(au: AuthUser, row: Option<ProfileRow>): (u: User)
    ensures u.id == au.id
    ensures au.email.Some? ==> u.email == au.email.value
    ensures au.email.None? ==> u.email == ""
    ensures FullProfile(u)
    ensures row.None? ==> u.name == u.bio == u.location == u.profileImage == Some("")
    ensures row.Some? && row.value.name.Some? ==> u.name == row.value.name
    ensures row.Some? && row.value.bio.Some? ==> u.bio == row.value.bio
    ensures row.Some? && row.value.location.Some? ==> u.location == row.value.location
    ensures row.Some? && row.value.profileImage.Some? ==> u.profileImage == row.value.profileImage
    ensures row.Some? && row.value.name.None? ==> u.name == Some("")
    ensures row.Some? && row.value.bio.None? ==> u.bio == Some("")
    ensures row.Some? && row.value.location.None? ==> u.location == Some("")
    ensures row.Some? && row.value.profileImage.None? ==> u.profileImage == Some("")
  {
    User(
      au.id,
      au.email.GetOr(""),
      Some(OrEmpty(Column(row, (p: ProfileRow) => p.name))),
      Some(OrEmpty(Column(row, (p: ProfileRow) => p.bio))),
      Some(OrEmpty(Column(row, (p: ProfileRow) => p.profileImage))),
      Some(OrEmpty(Column(row, (p: ProfileRow) => p.location))))
  }

  /** Sign in, then read the profile row; the snapshot's user is replaced only
      when both succeed, and every failure is rethrown to the caller. */
  function Login(s: Session, input: LoginInput, signIn: Call<AuthReply>, query: Call<QueryReply>): (r: Step)
    ensures r.session.isLoading == s.isLoading
    ensures r.result.Failed? ==> r.session == s
    ensures r.result.Done? <==>
      && signIn.Resolved? && signIn.value.AuthOk? && signIn.value.user.Some?
      && query.Resolved? && query.value.QueryOk?
    ensures signIn.Resolved? && signIn.value.AuthError? ==> r.result == Failed(signIn.value.message)
    ensures signIn.Resolved? && signIn.value == AuthOk(None) ==> r.result == Failed(LoginFailed)
    ensures signIn.Rejected? ==> r.result == Failed(signIn.reason)
    ensures |r.requests| == 2 && query.Rejected? ==> r.result == Failed(query.reason)
    ensures |r.requests| == 2 && query.Resolved? && query.value.QueryError? ==>
      r.result == Failed(query.value.message)
    ensures r.result.Done? ==>
      r.session.user == Some(LoginUser(signIn.value.user.value, query.value.row))
    ensures 1 <= |r.requests| <= 2
    ensures r.requests[0] == SignInWithPassword(input.email, input.password)
    ensures |r.requests| == 2 <==> signIn.Resolved? && signIn.value.AuthOk? && signIn.value.user.Some?
    ensures |r.requests| == 2 ==> r.requests[1] == SelectProfile(signIn.value.user.value.id, LoginColumns)
  {
    var sent := [SignInWithPassword(input.email, input.password)];
    match signIn
    case Rejected(reason) => Step(s, Failed(reason), sent)
    case Resolved(AuthError(message)) => Step(s, Failed(message), sent)
    case Resolved(AuthOk(None)) => Step(s, Failed(LoginFailed), sent)
    case Resolved(AuthOk(Some(au))) =>
      var sent := sent + [SelectProfile(au.id, LoginColumns)];
      match query
      case Rejected(reason) => Step(s, Failed(reason), sent)
      case Resolved(QueryError(message)) => Step(s, Failed(message), sent)
      case Resolved(QueryOk(row)) => Step(s.(user := Some(LoginUser(au, row))), Done, sent)
  }

  /** The user registration builds: the provider email, or the submitted one
      when the provider gives none, the submitted name, empty bio and image, and
      no location. */
  function RegisteredUser(au: AuthUser, input: RegisterInput): (u: User)
    ensures u.id == au.id
    ensures au.email.Some? ==> u.email == au.email.value
    ensures au.email.None? ==> u.email == input.email
    ensures u.name == Some(input.name)
    ensures u.bio == u.profileImage == Some("")
    ensures u.location.None?
  {
    User(au.id, au.email.GetOr(input.email), Some(input.name), Some(""), Some(""), None)
  }

  /** The `users` row registration inserts: the registered user's fields,
      without a location. */
  function NewRow(u: User): (row: NewUserRow)
    requires u.name.Some? && u.bio.Some? && u.profileImage.Some?
    ensures row.id == u.id && row.email == u.email
    ensures Some(row.name) == u.name && Some(row.bio) == u.bio && Some(row.profileImage) == u.profileImage
  {
    NewUserRow(u.id, u.email, u.name.value, u.bio.value, u.profileImage.value)
  }

  /** Sign up, then insert the profile row; the snapshot's user is set only when
      both succeed. A failed insert after a successful sign-up is rethrown and
      leaves the snapshot as it was. */
  function Register(s: Session, input: RegisterInput, signUp: Call<AuthReply>, insert: Call<WriteReply>): (r: Step)
    ensures r.session.isLoading == s.isLoading
    ensures r.result.Failed? ==> r.session == s
    ensures r.result.Done? <==>
      && signUp.Resolved? && signUp.value.AuthOk? && signUp.value.user.Some?
      && insert == Resolved(WriteOk)
    ensures signUp.Resolved? && signUp.value == AuthOk(None) ==> r.result == Failed(RegistrationFailed)
    ensures signUp.Resolved? && signUp.value.AuthError? ==> r.result == Failed(signUp.value.message)
    ensures signUp.Rejected? ==> r.result == Failed(signUp.reason)
    ensures |r.requests| == 2 && insert.Rejected? ==> r.result == Failed(insert.reason)
    ensures insert.Resolved? && insert.value.WriteError? && |r.requests| == 2 ==>
      r.result == Failed(insert.value.message)
    ensures r.result.Done? ==>
      r.session.user == Some(RegisteredUser(signUp.value.user.value, input))
    ensures 1 <= |r.requests| <= 2
    ensures r.requests[0] == SignUp(input.email, input.password)
    ensures |r.requests| == 2 <==> signUp.Resolved? && signUp.value.AuthOk? && signUp.value.user.Some?
    ensures |r.requests| == 2 ==>
      r.requests[1] == InsertUser(NewRow(RegisteredUser(signUp.value.user.value, input)))
  {
    var sent := [SignUp(input.email, input.password)];
    match signUp
    case Rejected(reason) => Step(s, Failed(reason), sent)
    case Resolved(AuthError(message)) => Step(s, Failed(message), sent)
    case Resolved(AuthOk(None)) => Step(s, Failed(RegistrationFailed), sent)
    case Resolved(AuthOk(Some(au))) =>
      var u := RegisteredUser(au, input);
      var sent := sent + [InsertUser(NewRow(u))];
      match insert
      case Rejected(reason) => Step(s, Failed(reason), sent)
      case Resolved(WriteError(message)) => Step(s, Failed(message), sent)
      case Resolved(WriteOk) => Step(s.(user := Some(u)), Done, sent)
  }

  /** Sign out. The reply's content is ignored: whenever the call returns the
      user is cleared. If the call throws, the error is only logged and the
      snapshot is kept. Logout never fails for its caller. */
  function Logout(s: Session, signOut: Call<WriteReply>): (r: Step)
    ensures r.result == Done
    ensures r.requests == [SignOut]
    ensures r.session.isLoading == s.isLoading
    ensures signOut.Resolved? ==> r.session.user.None?
    ensures signOut.Rejected? ==> r.session == s
  {
    match signOut
    case Resolved(_) => Step(s.(user := None), Done, [SignOut])
    case Rejected(_) => Step(s, Done, [SignOut])
  }

  /** The user restore builds: the provider email or "", and name, bio and
      image from the row or "". Restore does not read or set a location. */
  function RestoredUser(au: AuthUser, row: Option<ProfileRow>): (u: User)
    ensures u.id == au.id
    ensures u.email == au.email.GetOr("")
    ensures u.name.Some? && u.bio.Some? && u.profileImage.Some?
    ensures u.location.None?
    ensures row.None? ==> u.name == u.bio == u.profileImage == Some("")
    ensures row.Some? && row.value.name.Some? ==> u.name == row.value.name
    ensures row.Some? && row.value.bio.Some? ==> u.bio == row.value.bio
    ensures row.Some? && row.value.profileImage.Some? ==> u.profileImage == row.value.profileImage
    ensures row.Some? && row.value.name.None? ==> u.name == Some("")
    ensures row.Some? && row.value.bio.None? ==> u.bio == Some("")
    ensures row.Some? && row.value.profileImage.None? ==> u.profileImage == Some("")
  {
    User(
      au.id,
      au.email.GetOr(""),
      Some(OrEmpty(Column(row, (p: ProfileRow) => p.name))),
      Some(OrEmpty(Column(row, (p: ProfileRow) => p.bio))),
      Some(OrEmpty(Column(row, (p: ProfileRow) => p.profileImage))),
      None)
  }

  /** The restore-on-load effect as written: it sets `isLoading`, looks up the
      current user and reads its profile. A lookup error or no session clears
      `isLoading` and keeps the user; a profile-read error is only logged and
      the user is still set, with empty fields. The effect has no handler for a
      rejected call: its promise then rejects unobserved and `isLoading`
      stays true. */
  function RestoreAsWritten(s: Session, getUser: Call<AuthReply>, query: Call<QueryReply>): (r: Step)
    ensures r.session.isLoading <==> getUser.Rejected? || (RestoreFound(getUser) && query.Rejected?)
    ensures r.result.Failed? <==> r.session.isLoading
    ensures r.session.user != s.user ==> RestoreFound(getUser) && query.Resolved?
    ensures RestoreFound(getUser) && query.Resolved? && query.value.QueryOk? ==>
      r.session.user == Some(RestoredUser(getUser.value.user.value, query.value.row))
    ensures RestoreFound(getUser) && query.Resolved? && query.value.QueryError? ==>
      r.session.user == Some(RestoredUser(getUser.value.user.value, None))
    ensures 1 <= |r.requests| <= 2 && r.requests[0] == GetUser
    ensures |r.requests| == 2 <==> RestoreFound(getUser)
    ensures |r.requests| == 2 ==> r.requests[1] == SelectProfile(getUser.value.user.value.id, RestoreColumns)
  {
    var loading := s.(isLoading := true);
    match getUser
    case Rejected(reason) => Step(loading, Failed(reason), [GetUser])
    case Resolved(AuthError(_)) => Step(loading.(isLoading := false), Done, [GetUser])
    case Resolved(AuthOk(None)) => Step(loading.(isLoading := false), Done, [GetUser])
    case Resolved(AuthOk(Some(au))) =>
      var sent := [GetUser, SelectProfile(au.id, RestoreColumns)];
      match query
      case Rejected(reason) => Step(loading, Failed(reason), sent)
      case Resolved(reply) =>
        var row := if reply.QueryOk? then reply.row else None;
        Step(Session(Some(RestoredUser(au, row)), false), Done, sent)
  }

  /** The session lookup found a signed-in user. */
  predicate RestoreFound(getUser: Call<AuthReply>) {
    getUser.Resolved? && getUser.value.AuthOk? && getUser.value.user.Some?
  }

  /** The restore effect with `isLoading` cleared however the calls settle
      (as a `finally` clause would); otherwise identical to the code. */
  function Restore(s: Session, getUser: Call<AuthReply>, query: Call<QueryReply>): (r: Step)
    ensures !r.session.isLoading
    ensures r.session.user == RestoreAsWritten(s, getUser, query).session.user
    ensures r.requests == RestoreAsWritten(s, getUser, query).requests
    ensures r.session.user != s.user ==> r.session.user.Some? && r.session.user.value.location.None?
    ensures r.session.user != s.user ==> RestoreFound(getUser) && query.Resolved?
  {
    var w := RestoreAsWritten(s, getUser, query);
    w.(session := w.session.(isLoading := false))
  }

  /** The local profile update: with no user nothing happens; otherwise the
      keys present in the patch overwrite the user's fields. No request is
      made and `isLoading` is untouched. */
  function UpdateUser(s: Session, p: Patch): (r: Session)
    ensures r.isLoading == s.isLoading
    ensures s.user.None? <==> r.user.None?
    ensures s.user.Some? ==> r.user == Some(Merge(s.user.value, p))
  {
    if s.user.None? then s else s.(user := Some(Merge(s.user.value, p)))
  }

  /** A failed login is a no-op on the snapshot whatever it was. */
  lemma FailedLoginKeepsSnapshot(s: Session, input: LoginInput, signIn: Call<AuthReply>, query: Call<QueryReply>)
    requires !(signIn.Resolved? && signIn.value.AuthOk? && signIn.value.user.Some?)
    ensures Login(s, input, signIn, query) == Step(s, Login(s, input, signIn, query).result, [SignInWithPassword(input.email, input.password)])
    ensures Login(s, input, signIn, query).result.Failed?
  {
  }

  /** A successful login replaces the user wholesale: the prior user does not
      leak into the new one. */
  lemma LoginReplacesUser(s1: Session, s2: Session, input: LoginInput, signIn: Call<AuthReply>, query: Call<QueryReply>)
    requires Login(s1, input, signIn, query).result.Done?
    ensures Login(s2, input, signIn, query).session.user == Login(s1, input, signIn, query).session.user
  {
  }

  /** Logging out twice is the same as logging out once. */
  lemma LogoutIdempotent(s: Session, signOut: Call<WriteReply>)
    ensures Logout(Logout(s, signOut).session, signOut).session == Logout(s, signOut).session
  {
  }

  /** The register failure that follows a successful sign-up (the profile-row
      insert) rolls nothing forward: the snapshot stays as it was. */
  lemma RegisterPartialFailureKeepsSnapshot(s: Session, input: RegisterInput, au: AuthUser, message: string)
    ensures Register(s, input, Resolved(AuthOk(Some(au))), Resolved(WriteError(message)))
      == Step(s, Failed(message), [SignUp(input.email, input.password), InsertUser(NewRow(RegisteredUser(au, input)))])
  {
  }

  /** Updating with the empty patch changes nothing. */
  lemma UpdateUserNoChange(s: Session)
    ensures UpdateUser(s, NoChange) == s
  {
  }
}
