/** The profile page's save handler (src/pages/Profile.tsx, `onSubmit`): an
    optional auth email update, then the `users` row update, then the local
    session update. Any failure is caught and logged; the page then stays in
    edit mode and the snapshot is untouched. */
module Profile {
  import opened Common
  import opened AuthTypes
  import opened AuthContext

  /** The submitted form. */
  datatype ProfileForm = ProfileForm(name: string, email: string, bio: string, location: string)

  /** The handler's effect: the snapshot afterwards, whether the page is still
      in edit mode, and the provider requests made, in order. */
  datatype SaveStep = SaveStep(session: Session, editing: bool, requests: seq<Request>)

  /** The form as a partial user: the four form keys present, no others. */
  function FormPatch(data: ProfileForm): Patch {
    Patch(None, Some(data.email), Some(data.name), Some(data.bio), None, Some(data.location))
  }

  /** A write whose promise resolved without an error. */
  predicate Succeeded(c: Call<WriteReply>) {
    c == Resolved(WriteOk)
  }

  /** The save went through: there is a user, the email either did not change
      or its update succeeded, and the row update succeeded. */
  predicate Committed(s: Session, data: ProfileForm, emailUpdate: Call<WriteReply>, rowUpdate: Call<WriteReply>) {
    && s.user.Some?
    && (data.email == s.user.value.email || Succeeded(emailUpdate))
    && Succeeded(rowUpdate)
  }

  /** The request that writes the form to the user's row: name, bio and
      location, keyed by the user's id. */
  function RowWrite(u: User, data: ProfileForm): Request {
    UpdateUserRow(u.id, data.name, data.bio, data.location)
  }

  /** The save handler: with no user it stops before any request. It requests
      the auth email update only when the email changed, and the row update
      only after that succeeded or was not needed. It applies the form locally
      and leaves edit mode only after the row update succeeded. */
  function SaveProfile(s: Session, editing: bool, data: ProfileForm, emailUpdate: Call<WriteReply>, rowUpdate: Call<WriteReply>): (r: SaveStep)
    ensures s.user.None? ==> r == SaveStep(s, editing, [])
    ensures r.session.isLoading == s.isLoading
    ensures Committed(s, data, emailUpdate, rowUpdate) ==>
      r.session == UpdateUser(s, FormPatch(data)) && !r.editing
    ensures !Committed(s, data, emailUpdate, rowUpdate) ==>
      r.session == s && r.editing == editing
    ensures UpdateAuthEmail(data.email) in r.requests <==>
      s.user.Some? && data.email != s.user.value.email
    ensures forall i :: 0 <= i < |r.requests| ==>
      r.requests[i] == UpdateAuthEmail(data.email) || r.requests[i] == RowWrite(s.user.value, data)
    ensures s.user.Some? ==>
      (RowWrite(s.user.value, data) in r.requests <==> data.email == s.user.value.email || Succeeded(emailUpdate))
    ensures |r.requests| <= 2
    ensures |r.requests| == 2 ==> r.requests[0].UpdateAuthEmail? && r.requests[1].UpdateUserRow?
  {
    if s.user.None? then SaveStep(s, editing, [])
    else
      var u := s.user.value;
      var emailChanged := data.email != u.email;
      var sent := if emailChanged then [UpdateAuthEmail(data.email)] else [];
      if emailChanged && !Succeeded(emailUpdate) then SaveStep(s, editing, sent)
      else
        var sent := sent + [RowWrite(u, data)];
        if !Succeeded(rowUpdate) then SaveStep(s, editing, sent)
        else SaveStep(UpdateUser(s, FormPatch(data)), false, sent)
  }

  /** After a committed save the local user agrees with the row that was
      written and with the submitted email; its id and image are unchanged. */
  lemma SavedUserMatchesWrite(s: Session, editing: bool, data: ProfileForm, emailUpdate: Call<WriteReply>, rowUpdate: Call<WriteReply>)
    requires Committed(s, data, emailUpdate, rowUpdate)
    ensures
      var r := SaveProfile(s, editing, data, emailUpdate, rowUpdate);
      var w := r.requests[|r.requests| - 1];
      && w.UpdateUserRow? && w.id == s.user.value.id
      && r.session.user.Some?
      && r.session.user.value.id == w.id
      && r.session.user.value.name == Some(w.name)
      && r.session.user.value.bio == Some(w.bio)
      && r.session.user.value.location == Some(w.location)
      && r.session.user.value.email == data.email
      && r.session.user.value.profileImage == s.user.value.profileImage
  {
  }

  /** Submitting the values already saved is a no-op on the snapshot. */
  lemma ResaveIsStable(s: Session, editing: bool, data: ProfileForm, emailUpdate: Call<WriteReply>, rowUpdate: Call<WriteReply>)
    requires Committed(s, data, emailUpdate, rowUpdate)
    ensures
      var s1 := SaveProfile(s, editing, data, emailUpdate, rowUpdate).session;
      SaveProfile(s1, true, data, emailUpdate, rowUpdate).session == s1
  {
  }
}
