/** Validation of an operator's policy, name by name and resource by resource. */
module PolicyRules {
  import opened Basics
  import opened Text
  import opened Types
  import Paths

  const POLICY_VERSION := 1
  const MAX_RESOURCE_NAME_LEN := 64
  const MAX_HOST_SELECTOR_LEN := 253
  const MAX_POLICY_READ_BYTES := 65536
  const MAX_POLICY_LIST_ITEMS := 256

  predicate ValidResourceName(t: Runes, name: string) {
    && name != "" && ByteLen(name) <= MAX_RESOURCE_NAME_LEN
    && forall i :: 0 <= i < |name| ==>
      IsLower(t, name[i]) || IsDigit(t, name[i]) || name[i] == '.' || name[i] == '-' || name[i] == '_'
  }

  predicate ValidHostSelector(t: Runes, host: string) {
    && host != "" && ByteLen(host) <= MAX_HOST_SELECTOR_LEN && TrimSpace(host) == host
    && forall i :: 0 <= i < |host| ==>
      IsLetter(t, host[i]) || IsDigit(t, host[i]) || host[i] == '.' || host[i] == '-' || host[i] == '_'
  }

  const NO_PARAMS := OperationParams(0, 0, 0)

  /** The decision table for one resource. */
  predicate ValidResource(resource: Resource) {
    && Paths.IsAbs(resource.path)
    && Paths.Clean(resource.path) == resource.path
    && var params := if resource.params.Some? then resource.params.value else NO_PARAMS;
      && params.offset >= 0 && params.maxBytes >= 0 && params.maxEntries >= 0
      && match resource.operation
         case FilesystemList =>
           1 <= params.maxEntries <= MAX_POLICY_LIST_ITEMS && params.offset == 0 && params.maxBytes == 0
         case FilesystemStat => params == NO_PARAMS
         case FilesystemRead => 1 <= params.maxBytes <= MAX_POLICY_READ_BYTES && params.maxEntries == 0
         case FilesystemTail =>
           1 <= params.maxBytes <= MAX_POLICY_READ_BYTES && params.offset == 0 && params.maxEntries == 0
         case _ => false
  }

  /** What a policy must be for a router to accept it, stated over the whole policy. */
  predicate ValidPolicy(t: Runes, policy: Policy) {
    && policy.version == POLICY_VERSION
    && policy.liveHosts.Some? && policy.resources.Some?
    && (forall name :: name in policy.resources.value ==>
      ValidResourceName(t, name) && ValidResource(policy.resources.value[name]))
    && (forall host :: host in policy.liveHosts.value ==>
      ValidHostSelector(t, host) && ValidListing(policy.resources.value.Keys, policy.liveHosts.value[host]))
  }

  /** A host's list names known resources, each once. */
  predicate ValidListing(known: set<string>, listed: seq<string>) {
    && (forall i :: 0 <= i < |listed| ==> listed[i] in known)
    && (forall i, j :: 0 <= i < j < |listed| ==> listed[i] != listed[j])
  }

  /** Walks one host's list, remembering the names seen. */
  method CheckListing(known: set<string>, listed: seq<string>) returns (ok: bool)
    ensures ok <==> ValidListing(known, listed)
  {
    var seen: set<string> := {};
    for i := 0 to |listed|
      invariant seen == set k | 0 <= k < i :: listed[k]
      invariant ValidListing(known, listed[..i])
    {
      if listed[i] !in known {
        return false;
      }
      if listed[i] in seen {
        return false;
      }
      seen := seen + {listed[i]};
    }
    assert listed[..|listed|] == listed;
    return true;
  }

  /** Visits the policy's maps in an arbitrary order and stops at the first defect. */
  method ValidatePolicy(t: Runes, policy: Policy) returns (ok: bool)
    ensures ok <==> ValidPolicy(t, policy)
  {
    if policy.version != POLICY_VERSION || policy.liveHosts.None? || policy.resources.None? {
      return false;
    }
    var resources, liveHosts := policy.resources.value, policy.liveHosts.value;

    var names := resources.Keys;
    while names != {}
      invariant names <= resources.Keys
      invariant forall n :: n in resources && n !in names ==> ValidResourceName(t, n) && ValidResource(resources[n])
      decreases names
    {
      var name :| name in names;
      if !ValidResourceName(t, name) || !ValidResource(resources[name]) {
        return false;
      }
      names := names - {name};
    }

    var hosts := liveHosts.Keys;
    while hosts != {}
      invariant hosts <= liveHosts.Keys
      invariant forall h :: h in liveHosts && h !in hosts ==>
        ValidHostSelector(t, h) && ValidListing(resources.Keys, liveHosts[h])
      decreases hosts
    {
      var host :| host in hosts;
      if !ValidHostSelector(t, host) {
        return false;
      }
      var listing := CheckListing(resources.Keys, liveHosts[host]);
      if !listing {
        return false;
      }
      hosts := hosts - {host};
    }
    return true;
  }
}
