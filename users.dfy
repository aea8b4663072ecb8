/** The admin user API: listing profiles matched with their Coder users,
    and creating a Coder user with an API key for a profile. The database
    and the Coder API are replaced by the replies they give. */
module Users {
  import opened Wrappers
  import opened Strings
  import opened Lists

  const FailedToFetchUsers := "Failed to fetch users"
  const FailedToCreateCoderUser := "Failed to create Coder user"
  const EmailDomain := "@bitmind.ca"

  datatype Profile = Profile(id: string, fullName: string, avatarUrl: string, isAdmin: bool)
  datatype CoderUser = CoderUser(id: string, username: string)

  /** A profile with the Coder user matched to it (`undefined` is `None`). */
  datatype Listed = Listed(profile: Profile, coder: Option<CoderUser>)

  /** `id.split('-')[0]`: the profile id up to its first hyphen. */
  function CoderUsername(id: string): (r: string)
    ensures r == TakeUntil(id, '-')
    ensures '-' !in r && r <= id
    ensures |r| < |id| ==> id[|r|] == '-'
  {
    FirstPiece(id, '-');
    Split(id, "-")[0]
  }

  /** The predicate `find` is called with: the Coder user is named `username`. */
  function Named(username: string): CoderUser -> bool {
    (c: CoderUser) => c.username == username
  }

  /** `fetchUsers`: profiles (already ordered by full name) are listed in
      order, each with the first Coder user whose username is the profile
      id's first segment. The Coder users are fetched only after the
      profiles; either failure becomes one fixed error. */
  function FetchUsers(profiles: Result<seq<Profile>>, coders: Result<seq<CoderUser>>): (r: Result<seq<Listed>>)
    ensures r.Err? <==> profiles.Err? || coders.Err?
    ensures r.Err? ==> r.message == FailedToFetchUsers
    ensures r.Ok? ==> |r.value| == |profiles.value|
    ensures r.Ok? ==> forall i :: 0 <= i < |r.value| ==> r.value[i].profile == profiles.value[i]
    ensures r.Ok? ==> forall i :: 0 <= i < |r.value| ==>
      (r.value[i].coder.Some? ==> r.value[i].coder.value in coders.value
                                  && r.value[i].coder.value.username == CoderUsername(profiles.value[i].id))
    ensures r.Ok? ==> forall i :: 0 <= i < |r.value| && r.value[i].coder.Some? ==>
      exists j :: 0 <= j < |coders.value| && coders.value[j] == r.value[i].coder.value
                  && coders.value[j].username == CoderUsername(profiles.value[i].id)
                  && forall k :: 0 <= k < j ==> coders.value[k].username != CoderUsername(profiles.value[i].id)
    ensures r.Ok? ==> forall i :: 0 <= i < |r.value| ==>
      (r.value[i].coder.None? <==> forall k :: 0 <= k < |coders.value| ==> coders.value[k].username != CoderUsername(profiles.value[i].id))
  {
    if profiles.Err? || coders.Err? then Err(FailedToFetchUsers)
    else
      var ps := profiles.value;
      Ok(seq(|ps|, i requires 0 <= i < |ps| => Listed(ps[i], Find(coders.value, Named(CoderUsername(ps[i].id))))))
  }

  /** Two profiles whose ids agree up to the first hyphen are matched with
      the same Coder user. */
  lemma SharedPrefixSharedCoder(profiles: seq<Profile>, coders: seq<CoderUser>, i: nat, j: nat)
    requires i < |profiles| && j < |profiles|
    requires TakeUntil(profiles[i].id, '-') == TakeUntil(profiles[j].id, '-')
    ensures FetchUsers(Ok(profiles), Ok(coders)).value[i].coder == FetchUsers(Ok(profiles), Ok(coders)).value[j].coder
  {
  }

  /** The calls `createCoderUser` makes, in order. */
  datatype Call =
    | PostUser(disableLogin: bool, loginType: string, username: string, email: string)
    | PostToken(coderUserId: string, lifetime: int, scope: string, tokenName: string)
    | UpdateProfile(profileId: string, coderApiKey: string)

  /** Replies: the created Coder user, the created key, the update's error. */
  datatype Creation = Creation(calls: seq<Call>, outcome: Result<()>)

  /** `createCoderUser(id)`: creates a login-less Coder user named after the
      profile id's first segment, mints a non-expiring all-scope key for it
      and stores the key on the profile. The first failing step ends the
      sequence with one fixed error. */
  function CreateCoderUser(id: string, created: Result<CoderUser>, key: Result<string>, updateError: Option<string>): (r: Creation)
    ensures 1 <= |r.calls| <= 3
    ensures r.calls[0] == PostUser(true, "none", CoderUsername(id), CoderUsername(id) + EmailDomain)
    ensures |r.calls| >= 2 <==> created.Ok?
    ensures |r.calls| >= 2 ==>
      r.calls[1] == PostToken(created.value.id, 0, "all", created.value.id + "-api-key")
    ensures |r.calls| == 3 <==> created.Ok? && key.Ok?
    ensures |r.calls| == 3 ==> r.calls[2] == UpdateProfile(id, key.value)
    ensures r.outcome.Ok? <==> created.Ok? && key.Ok? && updateError.None?
    ensures r.outcome.Err? ==> r.outcome.message == FailedToCreateCoderUser
  {
    var username := CoderUsername(id);
    var post := PostUser(true, "none", username, username + EmailDomain);
    if created.Err? then Creation([post], Err(FailedToCreateCoderUser))
    else
      var token := PostToken(created.value.id, 0, "all", created.value.id + "-api-key");
      if key.Err? then Creation([post, token], Err(FailedToCreateCoderUser))
      else
        var calls := [post, token, UpdateProfile(id, key.value)];
        if updateError.Some? then Creation(calls, Err(FailedToCreateCoderUser))
        else Creation(calls, Ok(()))
  }

  /** The user `createCoderUser` creates is the one `fetchUsers` later
      matches with the profile, provided no Coder user listed before it
      already carries that username. */
  lemma CreatedUserIsMatched(profiles: seq<Profile>, i: nat, before: seq<CoderUser>, created: CoderUser,
                             key: Result<string>, updateError: Option<string>)
    requires i < |profiles|
    requires created.username == CreateCoderUser(profiles[i].id, Ok(created), key, updateError).calls[0].username
    requires forall k :: 0 <= k < |before| ==> before[k].username != created.username
    ensures FetchUsers(Ok(profiles), Ok(before + [created])).value[i].coder == Some(created)
  {
    var coders := before + [created];
    forall j | 0 <= j < |before| ensures !Named(CoderUsername(profiles[i].id))(coders[j]) {
      assert coders[j] == before[j];
    }
    FindFirst(coders, Named(CoderUsername(profiles[i].id)), |before|);
  }
}
