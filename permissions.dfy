/** The agent-key check (server/tracker/permissions.py,
    `AgentKeyPermission.has_permission`): a request is let in when the
    `X-Agent-Key` header, or else an `Authorization: Bearer <key>` header,
    carries the configured `AGENT_API_KEY`. */
module Permissions {
  import opened Common

  const BearerPrefix: string := "Bearer "

  /** `has_permission` over the environment value and the two headers; None
      is an unset variable or an absent header. */
  function HasPermission(agentApiKey: Option<string>, xAgentKey: Option<string>, authorization: Option<string>): bool {
    var expected := Or(agentApiKey, "");
    if expected == "" then false
    else
      var h := Or(xAgentKey, "");
      if h != "" && h == expected then true
      else
        var auth := Or(authorization, "");
        if IsPrefix(BearerPrefix, auth) && auth[|BearerPrefix|..] == expected then true
        else false
  }

  /** `auth.startswith("Bearer ") and auth[7:] == key` says that auth is
      exactly "Bearer " followed by the key. */
  lemma BearerForm(auth: string, key: string)
    ensures (IsPrefix(BearerPrefix, auth) && auth[|BearerPrefix|..] == key) <==> auth == BearerPrefix + key
  {
    if auth == BearerPrefix + key {
      assert auth[..|BearerPrefix|] == BearerPrefix;
      assert auth[|BearerPrefix|..] == key;
    }
    if IsPrefix(BearerPrefix, auth) && auth[|BearerPrefix|..] == key {
      assert auth == auth[..|BearerPrefix|] + auth[|BearerPrefix|..];
    }
  }

  /** Access is granted exactly when the key is set and non-empty and either
      X-Agent-Key equals it or Authorization is "Bearer " + key
      (case-sensitive, one space). */
  lemma HasPermissionIff(agentApiKey: Option<string>, xAgentKey: Option<string>, authorization: Option<string>)
    ensures HasPermission(agentApiKey, xAgentKey, authorization) <==>
      && agentApiKey.Some? && agentApiKey.value != ""
      && (xAgentKey == agentApiKey || authorization == Some(BearerPrefix + agentApiKey.value))
  {
    if authorization.Some? && agentApiKey.Some? {
      BearerForm(authorization.value, agentApiKey.value);
    }
  }

  /** An unset or empty key denies every request, whatever headers are sent. */
  lemma EmptyKeyDenies(agentApiKey: Option<string>, xAgentKey: Option<string>, authorization: Option<string>)
    requires !Truthy(agentApiKey)
    ensures !HasPermission(agentApiKey, xAgentKey, authorization)
  {
  }

  /** A wrong or absent X-Agent-Key does not block a correct Bearer header. */
  lemma BearerFallback(key: string, xAgentKey: Option<string>)
    requires key != ""
    ensures HasPermission(Some(key), xAgentKey, Some(BearerPrefix + key))
  {
    HasPermissionIff(Some(key), xAgentKey, Some(BearerPrefix + key));
  }

  /** The scheme word is case-sensitive and takes exactly one space. */
  lemma BearerIsExact(key: string)
    requires key != ""
    ensures !HasPermission(Some(key), None, Some("bearer " + key))
    ensures !HasPermission(Some(key), None, Some("Bearer  " + key))
  {
    HasPermissionIff(Some(key), None, Some("bearer " + key));
    HasPermissionIff(Some(key), None, Some("Bearer  " + key));
    assert ("bearer " + key)[0] != (BearerPrefix + key)[0];
    assert |"Bearer  " + key| != |BearerPrefix + key|;
  }
}
