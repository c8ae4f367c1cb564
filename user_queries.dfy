/** The users hooks' query keys: keys scoped by the current user's id, the
    `enabled` flags of the parameterised queries, and the prefix every users
    mutation invalidates. A key is a sequence of text parts. */
module UserQueries {
  import opened Common
  import opened ProfileState

  type QueryKey = seq<string>

  /** `all(currentUserId)`. */
  function AllKey(currentUserId: string): QueryKey {
    ["users", currentUserId]
  }

  /** `byUserName(currentUserId, username)`. */
  function ByUserNameKey(currentUserId: string, username: string): (k: QueryKey)
    ensures |k| == |AllKey(currentUserId)| + 2 && k[..2] == AllKey(currentUserId)
  {
    AllKey(currentUserId) + ["byUserName", username]
  }

  /** `byTenantId(currentUserId, tenantId)`. */
  function ByTenantIdKey(currentUserId: string, tenantId: string): (k: QueryKey)
    ensures |k| == |AllKey(currentUserId)| + 2 && k[..2] == AllKey(currentUserId)
  {
    AllKey(currentUserId) + ["byTenantId", tenantId]
  }

  /** `userProfile?.id || "anonymous"`. */
  function CurrentUserId(profileId: Option<string>): (r: string)
    ensures r != ""
    ensures profileId.Some? && profileId.value != "" ==> r == profileId.value
    ensures profileId.None? || profileId == Some("") ==> r == "anonymous"
  {
    if profileId.Some? && profileId.value != "" then profileId.value else "anonymous"
  }

  /** `enabled: !!argument` of the by-username and by-tenant queries. */
  function EnabledFor(argument: string): bool {
    argument != ""
  }

  /** The prefix `["users"]` the create, update and delete mutations invalidate. */
  const InvalidatedPrefix: QueryKey := ["users"]

  /** A key is invalidated when the prefix is a prefix of it. */
  predicate Invalidates(prefix: QueryKey, key: QueryKey) {
    prefix <= key
  }

  /** A by-username key and a by-tenant key never coincide: their third parts differ. */
  lemma KeysDistinct(u1: string, username: string, u2: string, tenantId: string)
    ensures ByUserNameKey(u1, username) != ByTenantIdKey(u2, tenantId)
  {
    assert ByUserNameKey(u1, username)[2] == "byUserName";
    assert ByTenantIdKey(u2, tenantId)[2] == "byTenantId";
  }

  /** Keys of different users never coincide either, so each user's cache is separate. */
  lemma KeysSeparateUsers(u1: string, u2: string, a: string, b: string)
    requires u1 != u2
    ensures AllKey(u1) != AllKey(u2)
    ensures ByUserNameKey(u1, a) != ByUserNameKey(u2, b)
    ensures ByTenantIdKey(u1, a) != ByTenantIdKey(u2, b)
  {
    assert AllKey(u1)[1] != AllKey(u2)[1];
    assert ByUserNameKey(u1, a)[1] == u1 && ByUserNameKey(u2, b)[1] == u2;
    assert ByTenantIdKey(u1, a)[1] == u1 && ByTenantIdKey(u2, b)[1] == u2;
  }

  /** The invalidated prefix covers every key built here, and not the
      profile query's key. */
  lemma InvalidationCoverage(u: string, username: string, tenantId: string)
    ensures Invalidates(InvalidatedPrefix, AllKey(u))
    ensures Invalidates(InvalidatedPrefix, ByUserNameKey(u, username))
    ensures Invalidates(InvalidatedPrefix, ByTenantIdKey(u, tenantId))
    ensures !Invalidates(InvalidatedPrefix, ProfileQueryKey)
  {
    assert ProfileQueryKey[0] == "userProfile";
    assert ProfileQueryKey[..1] != InvalidatedPrefix;
  }
}
