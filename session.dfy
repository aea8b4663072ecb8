/** The session hook (`useSupabase`): auth events set or clear the user and
    (re)load the profile, and while a user is signed in, row-update pushes
    for that user's profile are merged into it. The auth client and the
    realtime channel are replaced by the values they deliver. */
module Session {
  import opened Wrappers

  datatype FieldValue = Text(text: string) | Flag(flag: bool) | Null

  /** A profile row as an object: field name to value. */
  type Profile = map<string, FieldValue>

  datatype User = User(id: string)

  /** The answer of the profile query for the signed-in user. */
  datatype ProfileFetch = ProfileRow(row: Profile) | FetchError(message: string)

  /** `{ ...profile, ...pushed }`: the pushed fields win, the others stay. */
  function Merge(profile: Option<Profile>, pushed: Profile): (r: Profile)
    ensures r.Keys == pushed.Keys + (if profile.Some? then profile.value.Keys else {})
    ensures forall f :: f in pushed ==> r[f] == pushed[f]
    ensures profile.Some? ==> forall f :: f in profile.value && f !in pushed ==> r[f] == profile.value[f]
  {
    match profile
    case None => pushed
    case Some(p) => p + pushed
  }

  /** Receiving the same push twice leaves the profile as receiving it once. */
  lemma MergeTwice(profile: Option<Profile>, pushed: Profile)
    ensures Merge(Some(Merge(profile, pushed)), pushed) == Merge(profile, pushed)
  {
  }

  /** The realtime filter of the update subscription: `id=eq.${user.id}`. */
  function UpdateFilter(user: User): string {
    "id=eq." + user.id
  }

  /** Distinct users get distinct filters, so a subscription only ever
      matches one user's row. */
  lemma UpdateFilterInjective(a: User, b: User)
    requires UpdateFilter(a) == UpdateFilter(b)
    ensures a == b
  {
    assert a.id == UpdateFilter(a)[6..];
  }

  class SessionStore {
    var user: Option<User>
    var profile: Option<Profile>
    var authListening: bool
    var updateFilter: Option<string>

    /** The update subscription exists only while a user is signed in and
        is filtered to that user's row. */
    ghost predicate Valid()
      reads this
    {
      && (updateFilter.Some? ==> user.Some? && updateFilter.value == UpdateFilter(user.value))
      && (authListening ==> (updateFilter.Some? <==> user.Some?))
    }

    /** Mounting the hook: nobody signed in, the auth listener attached. */
    constructor ()
      ensures Valid() && user.None? && profile.None? && authListening && updateFilter.None?
    {
      user, profile, authListening, updateFilter := None, None, true, None;
    }

    /** An `onAuthStateChange` callback followed by the effect that keys the
        update subscription on `user`. Returns the user id the profile was
        queried for, if any. */
    method OnAuthStateChange(sessionUser: Option<User>, fetch: ProfileFetch) returns (queried: Option<string>)
      requires Valid()
      modifies this
      ensures Valid() && authListening == old(authListening)
      ensures !old(authListening) ==>
        queried.None? && user == old(user) && profile == old(profile) && updateFilter == old(updateFilter)
      ensures old(authListening) ==> user == sessionUser
      ensures old(authListening) && sessionUser.None? ==> profile.None? && queried.None? && updateFilter.None?
      ensures old(authListening) && sessionUser.Some? ==>
        && queried == Some(sessionUser.value.id)
        && profile == (if fetch.ProfileRow? then Some(fetch.row) else old(profile))
        && updateFilter == Some(UpdateFilter(sessionUser.value))
    {
      queried := None;
      if !authListening {
        return;
      }
      user := sessionUser;
      match sessionUser
      case None =>
        profile := None;
        updateFilter := None;
      case Some(u) =>
        queried := Some(u.id);
        if fetch.ProfileRow? {
          profile := Some(fetch.row);
        }
        updateFilter := Some(UpdateFilter(u));
    }

    /** An UPDATE push on the `profiles` row `rowId`. It is delivered only
        when the subscription's filter matches that row. */
    method OnProfileUpdate(rowId: string, pushed: Profile)
      requires Valid()
      modifies this
      ensures Valid() && user == old(user) && updateFilter == old(updateFilter) && authListening == old(authListening)
      ensures profile == if updateFilter == Some(UpdateFilter(User(rowId))) then Some(Merge(old(profile), pushed)) else old(profile)
      ensures user.None? || user.value.id != rowId ==> profile == old(profile)
    {
      if updateFilter == Some(UpdateFilter(User(rowId))) {
        UpdateFilterInjective(user.value, User(rowId));
        profile := Some(Merge(profile, pushed));
      }
    }

    /** Unmounting: both subscriptions are removed. */
    method Cleanup()
      requires Valid()
      modifies this
      ensures Valid() && !authListening && updateFilter.None?
      ensures user == old(user) && profile == old(profile)
    {
      authListening := false;
      updateFilter := None;
    }
  }
}
