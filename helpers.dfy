/** Token resolution (utils/helpers.js). The controllers repeat the same steps inline before every
    authenticated operation, so they resolve callers through this function too. */
module Helpers {

  import opened Records
  import opened Storage

  const SESSION_PREFIX := "auth_"

  /** The cache key under which a session token is kept. */
  function SessionKey(token: string): (key: string)
    ensures |key| == |SESSION_PREFIX| + |token|
    ensures key[..|SESSION_PREFIX|] == SESSION_PREFIX && key[|SESSION_PREFIX|..] == token
  {
    SESSION_PREFIX + token
  }

  /** Different tokens never share a cache key, so one token can never resolve through another's session. */
  lemma SessionKeyInjective(a: string, b: string)
    ensures SessionKey(a) == SessionKey(b) <==> a == b
  {
    if SessionKey(a) == SessionKey(b) {
      assert a == SessionKey(a)[|SESSION_PREFIX|..];
    }
  }

  /** `findUserIdByToken`: the user id stored for the `x-token` header, or None (null) when the header is
      missing or empty, or when the cache holds nothing (or an empty value) under `auth_<token>`. */
  function FindUserIdByToken(entries: map<string, Entry>, token: Option<string>): (uid: Option<string>)
    ensures !Truthy(token) ==> uid.None?
    ensures uid.Some? <==> Truthy(token) && Resolvable(entries, SessionKey(token.value))
    ensures uid.Some? ==> uid.value != "" && uid.value == entries[SessionKey(token.value)].value
  {
    if !Truthy(token) then None
    else
      var key := SessionKey(token.value);
      if key !in entries || entries[key].value == "" then None
      else Some(entries[key].value)
  }

  /** A cache entry that `redisClient.get` returns as a truthy value. */
  predicate Resolvable(entries: map<string, Entry>, key: string) {
    key in entries && entries[key].value != ""
  }

  /** A session written for `token` resolves to the stored user id, and every other token resolves as before. */
  lemma ResolveAfterSet(entries: map<string, Entry>, token: string, uid: string, ttl: nat, other: Option<string>)
    requires token != "" && uid != ""
    ensures FindUserIdByToken(entries[SessionKey(token) := Entry(uid, ttl)], Some(token)) == Some(uid)
    ensures other != Some(token) ==>
              FindUserIdByToken(entries[SessionKey(token) := Entry(uid, ttl)], other) == FindUserIdByToken(entries, other)
  {
    if other != Some(token) && Truthy(other) {
      SessionKeyInjective(other.value, token);
    }
  }

  /** Deleting the session of `token` makes it unresolvable, and every other token resolves as before. */
  lemma ResolveAfterDelete(entries: map<string, Entry>, token: string, other: Option<string>)
    ensures FindUserIdByToken(entries - {SessionKey(token)}, Some(token)).None?
    ensures other != Some(token) ==>
              FindUserIdByToken(entries - {SessionKey(token)}, other) == FindUserIdByToken(entries, other)
  {
    if other != Some(token) && Truthy(other) {
      SessionKeyInjective(other.value, token);
    }
  }
}
