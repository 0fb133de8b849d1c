/** Implication-based permissions: the fixpoint loop, and what the real implication map grants. */
module Permissions {
  import opened Sequences

  // ---- Least closed sets, for any implication map --------------------------------

  ghost predicate Closed<P>(implications: map<P, seq<P>>, s: set<P>) {
    forall p, q :: p in s && p in implications && q in implications[p] ==> q in s
  }

  ghost predicate IsLeastClosed<P(!new)>(implications: map<P, seq<P>>, base: set<P>, s: set<P>) {
    && base <= s && Closed(implications, s)
    && forall t: set<P> :: base <= t && Closed(implications, t) ==> s <= t
  }

  lemma LeastIsUnique<P(!new)>(implications: map<P, seq<P>>, base: set<P>, s: set<P>, t: set<P>)
    requires IsLeastClosed(implications, base, s) && IsLeastClosed(implications, base, t)
    ensures s == t
  {
  }

  lemma LeastIsMonotone<P(!new)>(implications: map<P, seq<P>>, a: set<P>, b: set<P>, s: set<P>, t: set<P>)
    requires IsLeastClosed(implications, a, s) && IsLeastClosed(implications, b, t) && a <= b
    ensures s <= t
  {
  }

  lemma LeastIsIdempotent<P(!new)>(implications: map<P, seq<P>>, base: set<P>, s: set<P>, t: set<P>)
    requires IsLeastClosed(implications, base, s) && IsLeastClosed(implications, s, t)
    ensures s == t
  {
  }

  /** Granting two sets together grants what they grant apart, and no more. */
  lemma LeastDistributes<P(!new)>(implications: map<P, seq<P>>, a: set<P>, b: set<P>, s: set<P>, t: set<P>)
    requires IsLeastClosed(implications, a, s) && IsLeastClosed(implications, b, t)
    ensures IsLeastClosed(implications, a + b, s + t)
  {
  }

  // ---- The program ------------------------------------------------------------------

  /** A JavaScript Set is the sequence of its elements in insertion order; this is what is in it. */
  ghost function Elements<P>(s: seq<P>): set<P> {
    set p | p in s
  }

  /** Everything a closure can reach. */
  ghost function Universe<P>(implications: map<P, seq<P>>, base: set<P>): set<P> {
    base + set p, q | p in implications && q in implications[p] :: q
  }

  lemma {:induction false} DistinctFits<P>(s: seq<P>, bound: set<P>)
    requires Distinct(s) && forall p :: p in s ==> p in bound
    ensures |s| <= |bound|
  {
    if s != [] {
      var n := |s| - 1;
      forall p | p in s[..n] ensures p in bound - {s[n]} {
        assert p in s;
      }
      DistinctFits(s[..n], bound - {s[n]});
    }
  }

  ghost predicate ImpliedBy<P>(implications: map<P, seq<P>>, p: P, s: seq<P>) {
    p in implications ==> forall q :: q in implications[p] ==> q in s
  }

  ghost predicate WithinEveryClosed<P(!new)>(implications: map<P, seq<P>>, base: set<P>, s: seq<P>) {
    forall t: set<P> :: base <= t && Closed(implications, t) ==> Elements(s) <= t
  }

  /** The for-of loop over a live Set: elements added on the way are visited as well. */
  method AddImplied<P(==, !new)>(implications: map<P, seq<P>>, before: seq<P>, ghost base: set<P>)
      returns (effective: seq<P>, changed: bool)
    requires Distinct(before) && base <= Elements(before) && WithinEveryClosed(implications, base, before)
    requires Elements(before) <= Universe(implications, base)
    ensures Distinct(effective) && before <= effective && WithinEveryClosed(implications, base, effective)
    ensures Elements(effective) <= Universe(implications, base)
    ensures changed <==> |effective| > |before|
    ensures forall p :: p in effective ==> ImpliedBy(implications, p, effective)
  {
    effective, changed := before, false;
    var k := 0;
    while k < |effective|
      invariant 0 <= k <= |effective|
      invariant Distinct(effective) && before <= effective && WithinEveryClosed(implications, base, effective)
      invariant Elements(effective) <= Universe(implications, base)
      invariant changed <==> |effective| > |before|
      invariant forall i :: 0 <= i < k ==> ImpliedBy(implications, effective[i], effective)
      decreases |Universe(implications, base)| - k
    {
      DistinctFits(effective, Universe(implications, base));
      var perm := effective[k];
      if perm in implications {
        var implied := implications[perm];
        for i := 0 to |implied|
          invariant k < |effective| && effective[k] == perm
          invariant Distinct(effective) && before <= effective && WithinEveryClosed(implications, base, effective)
          invariant Elements(effective) <= Universe(implications, base)
          invariant changed <==> |effective| > |before|
          invariant forall j :: 0 <= j < k ==> ImpliedBy(implications, effective[j], effective)
          invariant forall j :: 0 <= j < i ==> implied[j] in effective
        {
          var imp := implied[i];
          if imp !in effective {
            assert perm in effective && imp in implications[perm];
            effective := effective + [imp];
            changed := true;
          }
        }
      }
      k := k + 1;
    }
  }

  method ResolveWith<P(==, !new)>(implications: map<P, seq<P>>, directGrants: seq<P>, basic: P)
      returns (effective: seq<P>)
    requires Distinct(directGrants)
    ensures Distinct(effective) && directGrants <= effective
    ensures IsLeastClosed(implications, Elements(directGrants) + {basic}, Elements(effective))
  {
    effective := directGrants;
    if basic !in effective {
      effective := effective + [basic];
    }
    ghost var base := Elements(directGrants) + {basic};
    assert base == Elements(effective);
    var changed := true;
    while changed
      invariant Distinct(effective) && directGrants <= effective && base <= Elements(effective)
      invariant WithinEveryClosed(implications, base, effective) && Elements(effective) <= Universe(implications, base)
      invariant !changed ==> forall p :: p in effective ==> ImpliedBy(implications, p, effective)
      decreases |Universe(implications, base)| - |effective|, changed
    {
      ghost var before := effective;
      effective, changed := AddImplied(implications, effective, base);
      DistinctFits(effective, Universe(implications, base));
      assert forall p :: p in before ==> p in effective;
      assert !changed ==> effective == before;
    }
    assert forall p :: p in effective ==> ImpliedBy(implications, p, effective);
  }

  // ---- The real permissions -----------------------------------------------------------

  datatype Permission =
    | BasicAccess
    | ReadConnectors | ReadDocumentSets | ReadAgents | ReadUsers | ReadKnowledgeBases
    | AddAgents | AddConnectors
    | ManageAgents | ManageConnectors | ManageDocumentSets | ManageKnowledgeBases | ManageLlms | ManageUsers
    | ManageWorkflows
    | ReadAgentAnalytics | ReadQueryHistory | ReadCosts
    | CreateUserApiKeys | CreateServiceAccountApiKeys
    | FullAdminPanelAccess

  /** Object.values(Permission) */
  const ALL_PERMISSIONS: seq<Permission> := [
    BasicAccess, ReadConnectors, ReadDocumentSets, ReadAgents, ReadUsers, ReadKnowledgeBases, AddAgents, AddConnectors,
    ManageAgents, ManageConnectors, ManageDocumentSets, ManageKnowledgeBases, ManageLlms, ManageUsers, ManageWorkflows,
    ReadAgentAnalytics, ReadQueryHistory, ReadCosts, CreateUserApiKeys, CreateServiceAccountApiKeys,
    FullAdminPanelAccess]

  /** Where a permission is listed. */
  function Position(p: Permission): (k: nat)
    ensures k < |ALL_PERMISSIONS| && ALL_PERMISSIONS[k] == p
  {
    match p
    case BasicAccess => 0
    case ReadConnectors => 1
    case ReadDocumentSets => 2
    case ReadAgents => 3
    case ReadUsers => 4
    case ReadKnowledgeBases => 5
    case AddAgents => 6
    case AddConnectors => 7
    case ManageAgents => 8
    case ManageConnectors => 9
    case ManageDocumentSets => 10
    case ManageKnowledgeBases => 11
    case ManageLlms => 12
    case ManageUsers => 13
    case ManageWorkflows => 14
    case ReadAgentAnalytics => 15
    case ReadQueryHistory => 16
    case ReadCosts => 17
    case CreateUserApiKeys => 18
    case CreateServiceAccountApiKeys => 19
    case FullAdminPanelAccess => 20
  }

  lemma ListedAt(k: nat)
    requires k < |ALL_PERMISSIONS|
    ensures Position(ALL_PERMISSIONS[k]) == k
  {
  }

  lemma Listed(p: Permission)
    ensures p in ALL_PERMISSIONS
  {
    assert ALL_PERMISSIONS[Position(p)] == p;
  }

  function PermissionName(p: Permission): string {
    match p
    case BasicAccess => "basic"
    case ReadConnectors => "read:connectors"
    case ReadDocumentSets => "read:document_sets"
    case ReadAgents => "read:agents"
    case ReadUsers => "read:users"
    case ReadKnowledgeBases => "read:knowledge_bases"
    case AddAgents => "add:agents"
    case AddConnectors => "add:connectors"
    case ManageAgents => "manage:agents"
    case ManageConnectors => "manage:connectors"
    case ManageDocumentSets => "manage:document_sets"
    case ManageKnowledgeBases => "manage:knowledge_bases"
    case ManageLlms => "manage:llms"
    case ManageUsers => "manage:users"
    case ManageWorkflows => "manage:workflows"
    case ReadAgentAnalytics => "read:agent_analytics"
    case ReadQueryHistory => "read:query_history"
    case ReadCosts => "read:costs"
    case CreateUserApiKeys => "create:user_api_keys"
    case CreateServiceAccountApiKeys => "create:service_account_api_keys"
    case FullAdminPanelAccess => "admin"
  }

  /** The entries of the implication map; the other permissions have none. */
  function Implied(p: Permission): seq<Permission> {
    match p
    case ManageAgents => [AddAgents, ReadAgents]
    case ManageConnectors => [AddConnectors, ReadConnectors]
    case ManageDocumentSets => [ReadDocumentSets, ReadConnectors]
    case ManageKnowledgeBases => [ReadKnowledgeBases]
    case ManageUsers => [ReadUsers]
    case FullAdminPanelAccess => ALL_PERMISSIONS
    case _ => []
  }

  function Implications(): map<Permission, seq<Permission>> {
    map p: Permission | Implied(p) != [] :: Implied(p)
  }

  predicate NonToggleable(p: Permission) {
    || p.BasicAccess? || p.FullAdminPanelAccess? || p.ReadConnectors? || p.ReadDocumentSets? || p.ReadAgents?
    || p.ReadUsers? || p.ReadKnowledgeBases?
  }

  /** In the order in which the permissions are listed, and so without repeats. */
  ghost predicate InOrder(ps: seq<Permission>) {
    forall i, j :: 0 <= i < j < |ps| ==> Position(ps[i]) < Position(ps[j])
  }

  method GetAssignablePermissions() returns (assignable: seq<Permission>)
    ensures forall p :: p in assignable <==> !NonToggleable(p)
    ensures InOrder(assignable)
    ensures forall p :: p in assignable <==> p in {
      AddAgents, AddConnectors, ManageAgents, ManageConnectors, ManageDocumentSets, ManageKnowledgeBases, ManageLlms,
      ManageUsers, ManageWorkflows, ReadAgentAnalytics, ReadQueryHistory, ReadCosts, CreateUserApiKeys,
      CreateServiceAccountApiKeys}
  {
    assignable := [];
    for i := 0 to |ALL_PERMISSIONS|
      invariant forall p :: p in assignable <==> Position(p) < i && !NonToggleable(p)
      invariant InOrder(assignable)
    {
      ListedAt(i);
      if !NonToggleable(ALL_PERMISSIONS[i]) {
        assert forall k :: 0 <= k < |assignable| ==> assignable[k] in assignable;
        assignable := assignable + [ALL_PERMISSIONS[i]];
      }
    }
  }

  /** The direct grants that stored strings amount to; unknown strings are ignored. */
  ghost function GrantsNamed(names: seq<string>): set<Permission> {
    set p: Permission | PermissionName(p) in names
  }

  /** Adding the permission a string names, if Object.values(Permission) includes it. */
  method AddNamed(before: seq<Permission>, name: string) returns (grants: seq<Permission>)
    requires Distinct(before)
    ensures Distinct(grants) && forall p :: p in grants <==> p in before || PermissionName(p) == name
  {
    grants := before;
    for k := 0 to |ALL_PERMISSIONS|
      invariant Distinct(grants)
      invariant forall p :: p in grants <==> p in before || (p in ALL_PERMISSIONS[..k] && PermissionName(p) == name)
    {
      var p := ALL_PERMISSIONS[k];
      if PermissionName(p) == name && p !in grants {
        grants := grants + [p];
      }
    }
    assert ALL_PERMISSIONS[..|ALL_PERMISSIONS|] == ALL_PERMISSIONS;
    forall p ensures p in ALL_PERMISSIONS {
      Listed(p);
    }
  }

  method GetEffectivePermissions(directPermissions: seq<string>) returns (effective: seq<Permission>)
    ensures Distinct(effective)
    ensures IsLeastClosed(Implications(), GrantsNamed(directPermissions) + {BasicAccess}, Elements(effective))
  {
    var grants: seq<Permission> := [];
    for i := 0 to |directPermissions|
      invariant Distinct(grants)
      invariant forall p :: p in grants <==> PermissionName(p) in directPermissions[..i]
    {
      grants := AddNamed(grants, directPermissions[i]);
      assert directPermissions[..i + 1] == directPermissions[..i] + [directPermissions[i]];
    }
    assert directPermissions[..|directPermissions|] == directPermissions;
    assert Elements(grants) == GrantsNamed(directPermissions);
    effective := ResolveWith(Implications(), grants, BasicAccess);
  }

  // ---- What the real map grants ----------------------------------------------------------

  predicate ImpliesDirectly(g: Permission, p: Permission) {
    g in Implications() && p in Implications()[g]
  }

  /** The permissions other than full administration that imply a permission. */
  function Impliers(p: Permission): set<Permission> {
    match p
    case AddAgents => {ManageAgents}
    case ReadAgents => {ManageAgents}
    case AddConnectors => {ManageConnectors}
    case ReadConnectors => {ManageConnectors, ManageDocumentSets}
    case ReadDocumentSets => {ManageDocumentSets}
    case ReadKnowledgeBases => {ManageKnowledgeBases}
    case ReadUsers => {ManageUsers}
    case _ => {}
  }

  lemma Listing(g: Permission, p: Permission)
    ensures p in Implied(g) <==> g == FullAdminPanelAccess || g in Impliers(p)
  {
    if g.FullAdminPanelAccess? {
      Listed(p);
    }
  }

  lemma MapEntry(g: Permission, p: Permission)
    ensures ImpliesDirectly(g, p) <==> g == FullAdminPanelAccess || g in Impliers(p)
  {
    Listing(g, p);
  }

  /** With the real map nothing is gained by chaining implications. */
  lemma NoChains(g: Permission, p: Permission, q: Permission)
    requires ImpliesDirectly(g, p) && ImpliesDirectly(p, q)
    ensures ImpliesDirectly(g, q)
  {
    MapEntry(g, p);
    MapEntry(p, q);
    MapEntry(g, q);
  }

  /** What some direct grants yield, read off the map in one step. */
  ghost predicate Granted(grants: set<Permission>, p: Permission) {
    p in grants || p.BasicAccess? || exists g :: g in grants && ImpliesDirectly(g, p)
  }

  lemma GrantedIsClosed(grants: set<Permission>, p: Permission, q: Permission)
    requires Granted(grants, p) && ImpliesDirectly(p, q)
    ensures Granted(grants, q)
  {
    MapEntry(p, q);
    if g :| g in grants && ImpliesDirectly(g, p) {
      NoChains(g, p, q);
    }
  }

  /** So one step of implications from the grants reaches everything. */
  lemma OneStepSuffices(grants: set<Permission>, effective: set<Permission>)
    requires IsLeastClosed(Implications(), grants + {BasicAccess}, effective)
    ensures forall p :: p in effective <==> Granted(grants, p)
  {
    var one := set p: Permission | Granted(grants, p);
    forall p, q | p in one && p in Implications() && q in Implications()[p] ensures q in one {
      assert ImpliesDirectly(p, q);
      GrantedIsClosed(grants, p, q);
    }
    assert Closed(Implications(), one);
    assert effective <= one;
    forall p | Granted(grants, p) ensures p in effective {
      if g :| g in grants && ImpliesDirectly(g, p) {
        assert g in effective && g in Implications() && p in Implications()[g];
      }
    }
  }

  /** Full administration is never implied: it is effective exactly when it was granted. */
  lemma AdminOnlyByGrant(grants: set<Permission>, effective: set<Permission>)
    requires IsLeastClosed(Implications(), grants + {BasicAccess}, effective)
    ensures FullAdminPanelAccess in effective <==> FullAdminPanelAccess in grants
  {
    OneStepSuffices(grants, effective);
  }

  lemma AssignableNeverAdmin(grants: set<Permission>, effective: set<Permission>)
    requires IsLeastClosed(Implications(), grants + {BasicAccess}, effective)
    requires forall p :: p in grants ==> !NonToggleable(p)
    ensures FullAdminPanelAccess !in effective
  {
    AdminOnlyByGrant(grants, effective);
  }

  /** Who holds a permission: everybody for basic access, administrators, those granted it, and those
      granted one of the few permissions that imply it. */
  lemma WhoHoldsWhat(grants: set<Permission>, effective: set<Permission>, p: Permission)
    requires IsLeastClosed(Implications(), grants + {BasicAccess}, effective)
    ensures p in effective <==>
      p.BasicAccess? || FullAdminPanelAccess in grants || p in grants || exists g :: g in Impliers(p) && g in grants
  {
    OneStepSuffices(grants, effective);
    forall g ensures ImpliesDirectly(g, p) <==> g == FullAdminPanelAccess || g in Impliers(p) {
      MapEntry(g, p);
    }
    assert Granted(grants, p) <==> p in grants || p.BasicAccess? || exists g :: g in grants && ImpliesDirectly(g, p);
  }

  lemma ByName(names: seq<string>, p: Permission)
    ensures p in GrantsNamed(names) <==> PermissionName(p) in names
  {
  }

  /** The stored strings that make a permission effective, besides "admin". */
  function Sources(p: Permission): set<string> {
    match p
    case BasicAccess => {"basic"}
    case ReadConnectors => {"read:connectors", "manage:connectors", "manage:document_sets"}
    case ReadDocumentSets => {"read:document_sets", "manage:document_sets"}
    case ReadAgents => {"read:agents", "manage:agents"}
    case ReadUsers => {"read:users", "manage:users"}
    case ReadKnowledgeBases => {"read:knowledge_bases", "manage:knowledge_bases"}
    case AddAgents => {"add:agents", "manage:agents"}
    case AddConnectors => {"add:connectors", "manage:connectors"}
    case ManageAgents => {"manage:agents"}
    case ManageConnectors => {"manage:connectors"}
    case ManageDocumentSets => {"manage:document_sets"}
    case ManageKnowledgeBases => {"manage:knowledge_bases"}
    case ManageLlms => {"manage:llms"}
    case ManageUsers => {"manage:users"}
    case ManageWorkflows => {"manage:workflows"}
    case ReadAgentAnalytics => {"read:agent_analytics"}
    case ReadQueryHistory => {"read:query_history"}
    case ReadCosts => {"read:costs"}
    case CreateUserApiKeys => {"create:user_api_keys"}
    case CreateServiceAccountApiKeys => {"create:service_account_api_keys"}
    case FullAdminPanelAccess => {}
  }

  lemma SourcesAre(p: Permission)
    ensures Sources(p) == (if p.FullAdminPanelAccess? then {} else {PermissionName(p)})
      + set g | g in Impliers(p) :: PermissionName(g)
  {
  }

  /** Whether stored strings make a permission effective, by the strings themselves. */
  lemma HeldByName(names: seq<string>, effective: set<Permission>, p: Permission)
    requires IsLeastClosed(Implications(), GrantsNamed(names) + {BasicAccess}, effective)
    ensures p in effective <==> p.BasicAccess? || "admin" in names || exists name :: name in Sources(p) && name in names
  {
    WhoHoldsWhat(GrantsNamed(names), effective, p);
    forall g ensures g in GrantsNamed(names) <==> PermissionName(g) in names {
      ByName(names, g);
    }
    assert PermissionName(FullAdminPanelAccess) == "admin";
    SourcesAre(p);
  }
}
