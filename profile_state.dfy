/** The signed-in user's profile query (`useAuthUserProfile`), the context
    that combines it with `useAuth`, and the protected dashboard layout's
    choice of what to render and when to redirect to `/login`. */
module ProfileState {
  import opened Common
  import opened Schemas

  /** The query key of the profile query. */
  const ProfileQueryKey: seq<string> := ["userProfile", "me"]

  /** The profile query is enabled only when signed in. */
  function ProfileQueryEnabled(isSignedIn: bool): bool {
    isSignedIn
  }

  /** What the query library reports about the profile query; its caching,
      retry and network behaviour are not modelled. */
  datatype ProfileQuery = ProfileQuery(isLoading: bool, isError: bool, isSuccess: bool, data: Option<Json>)

  /** `!!userProfile`: `undefined` (no data yet) and the falsy JSON values
      (`null`, `false`, `0`, `""`) count as no profile. */
  predicate ProfilePresent(data: Option<Json>) {
    match data
    case None => false
    case Some(j) => !(j == JNull || j == JBool(false) || j == JNum(0) || j == JStr(""))
  }

  /** What `useAuthUserProfile` returns. */
  datatype AuthUserProfile = AuthUserProfile(
    userProfile: Option<Json>, isLoading: bool, isError: bool,
    isDatabaseUnavailable: bool, isPendingPermissions: bool)

  function UseAuthUserProfile(isSignedIn: bool, authLoading: bool, q: ProfileQuery): (r: AuthUserProfile)
    ensures r.userProfile == q.data
    ensures r.isLoading <==> authLoading || q.isLoading
    ensures r.isDatabaseUnavailable <==> q.isError
  {
    AuthUserProfile(q.data, authLoading || q.isLoading, q.isError, q.isError,
                    isSignedIn && q.isSuccess && !ProfilePresent(q.data))
  }

  /** Pending permissions means signed in, a successful query and no
      profile; in particular it never holds alongside a profile. */
  lemma PendingPermissionsIff(isSignedIn: bool, authLoading: bool, q: ProfileQuery)
    ensures UseAuthUserProfile(isSignedIn, authLoading, q).isPendingPermissions <==>
      isSignedIn && q.isSuccess && !ProfilePresent(q.data)
    ensures UseAuthUserProfile(isSignedIn, authLoading, q).isPendingPermissions ==>
      !ProfilePresent(UseAuthUserProfile(isSignedIn, authLoading, q).userProfile)
  {
  }

  /** The context value the layout reads. */
  datatype AuthContext = AuthContext(
    isSignedIn: bool, loading: bool, userProfile: Option<Json>, isLoading: bool,
    isDatabaseUnavailable: bool, isPendingPermissions: bool, isLoginComplete: bool)

  /** `isLoginComplete` tests `userProfile !== undefined`, so unlike the
      layout it counts a `null` body as a profile. */
  function ContextOf(isSignedIn: bool, authLoading: bool, profile: AuthUserProfile): (c: AuthContext)
    ensures c.isLoginComplete <==> isSignedIn && profile.userProfile.Some?
  {
    AuthContext(isSignedIn, authLoading, profile.userProfile, profile.isLoading,
                profile.isDatabaseUnavailable, profile.isPendingPermissions,
                isSignedIn && profile.userProfile.Some?)
  }

  datatype Screen = Spinner | DatabaseUnavailablePage | PendingPermissionsPage | Children

  /** The layout's render chain, first match wins. */
  function LayoutScreen(c: AuthContext): Screen {
    if c.isLoading || c.loading then Spinner
    else if !c.isSignedIn then Spinner
    else if c.isDatabaseUnavailable then DatabaseUnavailablePage
    else if c.isPendingPermissions then PendingPermissionsPage
    else if !ProfilePresent(c.userProfile) then Spinner
    else Children
  }

  /** The redirect effect: auth has finished loading and nobody is signed in. */
  predicate RedirectsToLogin(c: AuthContext) {
    !c.loading && !c.isSignedIn
  }

  /** Children render exactly when nothing is loading, the user is signed in,
      the database answered, nothing is pending and a profile is present. */
  lemma ChildrenIff(c: AuthContext)
    ensures LayoutScreen(c) == Children <==>
      !c.isLoading && !c.loading && c.isSignedIn && !c.isDatabaseUnavailable
      && !c.isPendingPermissions && ProfilePresent(c.userProfile)
  {
  }

  /** The database page wins over the pending page, and neither shows while
      loading or signed out. */
  lemma ScreenPrecedence(c: AuthContext)
    ensures !c.isLoading && !c.loading && c.isSignedIn && c.isDatabaseUnavailable ==>
      LayoutScreen(c) == DatabaseUnavailablePage
    ensures LayoutScreen(c) == PendingPermissionsPage ==> !c.isDatabaseUnavailable && c.isSignedIn
    ensures (c.isLoading || c.loading || !c.isSignedIn) ==> LayoutScreen(c) == Spinner
  {
  }

  /** Over the real context, a redirect and the children never coincide, and
      a signed-in user whose profile arrived sees the children. */
  lemma LayoutOverProfile(isSignedIn: bool, authLoading: bool, q: ProfileQuery)
    ensures var c := ContextOf(isSignedIn, authLoading, UseAuthUserProfile(isSignedIn, authLoading, q));
      && !(RedirectsToLogin(c) && LayoutScreen(c) == Children)
      && (isSignedIn && !authLoading && !q.isLoading && !q.isError && ProfilePresent(q.data) ==> LayoutScreen(c) == Children)
      && (LayoutScreen(c) == Children ==> c.isLoginComplete)
      && (isSignedIn && !authLoading && !q.isLoading && !q.isError && q.isSuccess && !ProfilePresent(q.data) ==>
            LayoutScreen(c) == PendingPermissionsPage)
  {
  }
}
