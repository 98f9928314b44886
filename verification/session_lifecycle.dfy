/** Sequences of session operations, applied one after another in the order
    they complete. Each completion is one atomic replacement of the snapshot;
    nothing orders completions, so the last one to complete wins. */
module SessionLifecycle {
  import opened Common
  import opened AuthTypes
  import opened AuthSchemas
  import opened AuthContext

  /** A completed operation together with how its provider calls settled. */
  datatype Op =
    | RestoreOp(getUser: Call<AuthReply>, query: Call<QueryReply>)
    | LoginOp(credentials: LoginInput, signIn: Call<AuthReply>, profile: Call<QueryReply>)
    | RegisterOp(form: RegisterInput, signUp: Call<AuthReply>, insert: Call<WriteReply>)
    | LogoutOp(signOut: Call<WriteReply>)
    | UpdateOp(patch: Patch)

  /** The snapshot after `op` completes. A restore applies the corrected
      `Restore`, not `RestoreAsWritten`, so lemmas over runs containing a
      restore describe the corrected effect. */
  function Apply(s: Session, op: Op): Session {
    match op
    case RestoreOp(g, q) => Restore(s, g, q).session
    case LoginOp(c, a, q) => Login(s, c, a, q).session
    case RegisterOp(f, a, w) => Register(s, f, a, w).session
    case LogoutOp(o) => Logout(s, o).session
    case UpdateOp(p) => UpdateUser(s, p)
  }

  /** The snapshot after the operations in `ops` complete, first to last. */
  function Run(s: Session, ops: seq<Op>): Session
    decreases |ops|
  {
    if |ops| == 0 then s else Run(Apply(s, ops[0]), ops[1..])
  }

  predicate NoRestore(ops: seq<Op>) {
    forall i :: 0 <= i < |ops| ==> !ops[i].RestoreOp?
  }

  /** Login, register, logout and the local update never write `isLoading`:
      across any run of them it keeps the value it had. */
  lemma {:induction false} OnlyRestoreWritesLoading(s: Session, ops: seq<Op>)
    requires NoRestore(ops)
    ensures Run(s, ops).isLoading == s.isLoading
    decreases |ops|
  {
    if |ops| > 0 {
      assert Apply(s, ops[0]).isLoading == s.isLoading;
      assert NoRestore(ops[1..]) by {
        forall i | 0 <= i < |ops[1..]|
          ensures !ops[1..][i].RestoreOp?
        {
          assert ops[1..][i] == ops[i + 1];
        }
      }
      OnlyRestoreWritesLoading(Apply(s, ops[0]), ops[1..]);
    }
  }

  /** Until the restore effect settles the session is loading, whatever
      logins, registrations, logouts and updates complete first. */
  lemma StillLoadingBeforeRestore(ops: seq<Op>)
    requires NoRestore(ops)
    ensures Run(Initial, ops).isLoading
  {
    OnlyRestoreWritesLoading(Initial, ops);
  }

  /** Once the restore effect has settled, loading is over for good: no later
      login, register, logout or update brings it back. */
  lemma LoadingSettlesAfterRestore(s: Session, getUser: Call<AuthReply>, query: Call<QueryReply>, ops: seq<Op>)
    requires NoRestore(ops)
    ensures !Run(s, [RestoreOp(getUser, query)] + ops).isLoading
  {
    var all := [RestoreOp(getUser, query)] + ops;
    assert all[1..] == ops;
    OnlyRestoreWritesLoading(Restore(s, getUser, query).session, ops);
  }

  /** As written, a restore whose session lookup rejects leaves `isLoading` set,
      and no later operation clears it. */
  lemma LoadingSticksAsWritten(s: Session, reason: string, query: Call<QueryReply>, ops: seq<Op>)
    requires NoRestore(ops)
    ensures Run(RestoreAsWritten(s, Rejected(reason), query).session, ops).isLoading
  {
    OnlyRestoreWritesLoading(RestoreAsWritten(s, Rejected(reason), query).session, ops);
  }

  /** Running two batches of operations one after the other is running their
      concatenation. */
  lemma {:induction false} RunAppend(s: Session, first: seq<Op>, second: seq<Op>)
    ensures Run(s, first + second) == Run(Run(s, first), second)
    decreases |first|
  {
    if |first| == 0 {
      assert first + second == second;
    } else {
      assert (first + second)[0] == first[0];
      assert (first + second)[1..] == first[1..] + second;
      RunAppend(Apply(s, first[0]), first[1..], second);
    }
  }

  /** A failed login anywhere in a run is invisible: dropping it gives the same
      final snapshot. */
  lemma FailedLoginIsInvisible(s: Session, before: seq<Op>, c: LoginInput, signIn: Call<AuthReply>, profile: Call<QueryReply>, after: seq<Op>)
    requires Login(Run(s, before), c, signIn, profile).result.Failed?
    ensures Run(s, before + [LoginOp(c, signIn, profile)] + after) == Run(s, before + after)
  {
    var login := LoginOp(c, signIn, profile);
    assert before + [login] + after == before + ([login] + after);
    RunAppend(s, before, [login] + after);
    RunAppend(s, before, after);
    assert ([login] + after)[1..] == after;
  }

  /** Restore with no provider session ends signed out and no longer loading. */
  lemma RestoreWithoutSession()
    ensures Run(Initial, [RestoreOp(Resolved(AuthOk(None)), Rejected("unused"))]) == Session(None, false)
  {
    assert [RestoreOp(Resolved(AuthOk(None)), Rejected("unused"))][1..] == [];
  }

  /** A provider that accepts the credentials and whose row holds only the name
      "Ann" yields that name and empty strings for every other profile field. */
  lemma LoginWithNameOnly(id: string)
    ensures
      var signIn := Resolved(AuthOk(Some(AuthUser(id, Some("a@x.com")))));
      var row := ProfileRow(Some("Ann"), None, None, None);
      var ops := [RestoreOp(Resolved(AuthOk(None)), Rejected("unused")),
                  LoginOp(LoginInput("a@x.com", "Secret1!"), signIn, Resolved(QueryOk(Some(row))))];
      Run(Initial, ops) == Session(Some(User(id, "a@x.com", Some("Ann"), Some(""), Some(""), Some(""))), false)
  {
    var signIn := Resolved(AuthOk(Some(AuthUser(id, Some("a@x.com")))));
    var row := ProfileRow(Some("Ann"), None, None, None);
    var ops := [RestoreOp(Resolved(AuthOk(None)), Rejected("unused")),
                LoginOp(LoginInput("a@x.com", "Secret1!"), signIn, Resolved(QueryOk(Some(row))))];
    var restored := Apply(Initial, ops[0]);
    assert restored == Session(None, false);
    assert Run(Initial, ops) == Run(restored, ops[1..]);
    assert Run(restored, ops[1..]) == Run(Apply(restored, ops[1]), ops[2..]);
    assert ops[2..] == [];
  }

  /** No ordering guard: a login that completes after a logout undoes it. */
  lemma StaleLoginUndoesLogout(s: Session, c: LoginInput, au: AuthUser, row: Option<ProfileRow>)
    ensures Run(s, [LogoutOp(Resolved(WriteOk)), LoginOp(c, Resolved(AuthOk(Some(au))), Resolved(QueryOk(row)))]).user.Some?
  {
    var ops := [LogoutOp(Resolved(WriteOk)), LoginOp(c, Resolved(AuthOk(Some(au))), Resolved(QueryOk(row)))];
    var signedOut := Apply(s, ops[0]);
    assert Run(s, ops) == Run(signedOut, ops[1..]);
    assert Run(signedOut, ops[1..]) == Run(Apply(signedOut, ops[1]), ops[2..]);
    assert ops[2..] == [];
  }
}
