/** The application's `User` record (src/types/auth.ts) and the partial record
    that `updateUser` spreads over it. */
module AuthTypes {
  import opened Common

  /** A signed-in user: `id` and `email` are required strings, the four profile
      fields are optional. The identity provider's further fields are opaque and
      not modelled. */
  datatype User = User(
    id: string,
    email: string,
    name: Option<string>,
    bio: Option<string>,
    profileImage: Option<string>,
    location: Option<string>)

  /** A `Partial<User>`: every key may be absent (`None`). */
  datatype Patch = Patch(
    id: Option<string>,
    email: Option<string>,
    name: Option<string>,
    bio: Option<string>,
    profileImage: Option<string>,
    location: Option<string>)

  /** The patch with no keys at all. */
  const NoChange: Patch := Patch(None, None, None, None, None, None)

  /** An optional field after spreading: a key present in the patch wins. */
  function Pick(patched: Option<string>, kept: Option<string>): (r: Option<string>)
    ensures patched.Some? ==> r == patched
    ensures patched.None? ==> r == kept
  {
    if patched.Some? then patched else kept
  }

  /** `{ ...u, ...p }`: the keys present in `p` overwrite those of `u`, every
      other field of `u` is kept. */
  function Merge(u: User, p: Patch): (r: User)
    ensures r.id == p.id.GetOr(u.id)
    ensures r.email == p.email.GetOr(u.email)
    ensures p.name.Some? ==> r.name == p.name
    ensures p.bio.Some? ==> r.bio == p.bio
    ensures p.profileImage.Some? ==> r.profileImage == p.profileImage
    ensures p.location.Some? ==> r.location == p.location
    ensures p.name.None? ==> r.name == u.name
    ensures p.bio.None? ==> r.bio == u.bio
    ensures p.profileImage.None? ==> r.profileImage == u.profileImage
    ensures p.location.None? ==> r.location == u.location
  {
    User(
      p.id.GetOr(u.id),
      p.email.GetOr(u.email),
      Pick(p.name, u.name),
      Pick(p.bio, u.bio),
      Pick(p.profileImage, u.profileImage),
      Pick(p.location, u.location))
  }

  /** The patch whose keys are those of `p` and `q`, the later `q` winning on
      keys present in both (`{ ...p, ...q }`). */
  function Combine(p: Patch, q: Patch): Patch
  {
    Patch(
      Pick(q.id, p.id),
      Pick(q.email, p.email),
      Pick(q.name, p.name),
      Pick(q.bio, p.bio),
      Pick(q.profileImage, p.profileImage),
      Pick(q.location, p.location))
  }

  /** Spreading the empty patch changes nothing. */
  lemma MergeNoChange(u: User)
    ensures Merge(u, NoChange) == u
  {
  }

  /** Spreading the same patch twice is the same as spreading it once. */
  lemma MergeIdempotent(u: User, p: Patch)
    ensures Merge(Merge(u, p), p) == Merge(u, p)
  {
  }

  /** Two successive spreads are one spread of the combined patch. */
  lemma MergeCompose(u: User, p: Patch, q: Patch)
    ensures Merge(Merge(u, p), q) == Merge(u, Combine(p, q))
  {
  }
}
