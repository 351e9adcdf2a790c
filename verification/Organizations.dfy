/** The tenant gate in front of every repository query. */
module Organizations {
  import opened Wrappers

  datatype TenantError = OrganizationRequired | OrganizationNotFound

  /**
   `_scoped` first refuses a missing organization id, then `require_active` refuses one that is
   not registered as ACTIVE. The registry maps organization ids to their status.
   */
  function Refusal(registry: map<string, string>, org: string): Option<TenantError> {
    if org == "" then Some(OrganizationRequired)
    else if org in registry && registry[org] == "ACTIVE" then None
    else Some(OrganizationNotFound)
  }

  /** The tenant is named, registered and active. */
  predicate Registered(registry: map<string, string>, org: string) {
    org != "" && org in registry.Keys && registry[org] == "ACTIVE"
  }

  /** Exactly the registered tenants pass; an empty name is told apart from an unknown or inactive one. */
  lemma RefusedIff(registry: map<string, string>, org: string)
    ensures Refusal(registry, org).None? <==> Registered(registry, org)
    ensures Refusal(registry, org) == Some(OrganizationRequired) <==> org == ""
  {
  }
}
