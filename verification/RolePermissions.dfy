/**
 `_reconcile_permissions` of deployments/mlflow/exporter_bootstrap.py: revoke what a service user should
 no longer have, replace what differs, grant what is missing.

 The tracking server holds at most one permission for a resource of a user; revoking removes it, and
 granting adds it. A user without a personal role has no permissions.
 */
module RolePermissions {
  const MANAGED: set<string> := {"experiment", "registered_model"}

  datatype Resource = Resource(kind: string, pattern: string)
  type Permissions = map<Resource, string>

  predicate Stale(desired: set<Resource>, r: Resource) { r.kind in MANAGED && r !in desired }

  /** What the role should hold: the desired resources with the desired permission, and every
      resource of another kind as it was. */
  function Target(p: Permissions, desired: set<Resource>, permission: string): Permissions {
    map r | r in p.Keys + desired && !Stale(desired, r) :: if r in desired then permission else p[r]
  }

  predicate Reconciled(p: Permissions, desired: set<Resource>, permission: string) {
    Target(p, desired, permission) == p
  }

  // ---------------------------------------------------------------- the calls

  datatype Call = Revoke(resource: Resource) | Grant(resource: Resource, permission: string)

  function Effect(p: Permissions, call: Call): Permissions {
    if call.Revoke? then p - {call.resource} else p[call.resource := call.permission]
  }

  /** The roles before, between and after the calls. */
  ghost predicate Records(calls: seq<Call>, roles: seq<Permissions>) {
    |roles| == |calls| + 1 && forall i :: 0 <= i < |calls| ==> roles[i + 1] == Effect(roles[i], calls[i])
  }

  class Server {
    var permissions: Permissions
    var calls: seq<Call>
    ghost var roles: seq<Permissions>

    ghost predicate Valid()
      reads this
    {
      Records(calls, roles) && permissions == roles[|calls|]
    }

    constructor (permissions: Permissions)
      ensures Valid() && this.permissions == permissions && calls == []
    {
      this.permissions, calls, roles := permissions, [], [permissions];
    }

    method RevokePermission(r: Resource)
      requires Valid()
      modifies this
      ensures Valid() && permissions == old(permissions) - {r} && calls == old(calls) + [Revoke(r)]
        && old(roles) <= roles
    {
      permissions, calls := permissions - {r}, calls + [Revoke(r)];
      roles := roles + [permissions];
    }

    method GrantPermission(r: Resource, permission: string)
      requires Valid() && r !in permissions
      modifies this
      ensures Valid() && permissions == old(permissions)[r := permission]
        && calls == old(calls) + [Grant(r, permission)]
      ensures old(roles) <= roles
    {
      permissions, calls := permissions[r := permission], calls + [Grant(r, permission)];
      roles := roles + [permissions];
    }
  }

  /** From position `n` on, only stale or desired resources are touched. */
  predicate Touches(calls: seq<Call>, n: nat, desired: set<Resource>) {
    forall i :: n <= i < |calls| ==> Stale(desired, calls[i].resource) || calls[i].resource in desired
  }

  /** `p` after revoking what is stale among the first `n` listed resources. */
  function Kept(p: Permissions, listing: seq<Resource>, desired: set<Resource>, n: nat): Permissions
    requires n <= |listing|
  {
    map r | r in p && !(Stale(desired, r) && r in listing[..n]) :: p[r]
  }

  function Pruned(p: Permissions, desired: set<Resource>): Permissions {
    map r | r in p && !Stale(desired, r) :: p[r]
  }

  /** `p` after bringing the first `n` desired resources to the desired permission. */
  function Brought(p: Permissions, wanted: seq<Resource>, permission: string, n: nat): Permissions
    requires n <= |wanted|
  {
    map r | r in p.Keys + (set w | w in wanted[..n]) :: if r in wanted[..n] then permission else p[r]
  }

  ghost predicate Lists(listing: seq<Resource>, keys: set<Resource>) {
    && (forall r :: r in listing <==> r in keys)
    && (forall i, j :: 0 <= i < j < |listing| ==> listing[i] != listing[j])
  }

  /** One pass of the reconciliation. `listing` is what the server lists and `wanted` the desired resources
      in sorted order. A permission is only ever granted where none is held. */
  method Reconcile(server: Server, listing: seq<Resource>, wanted: seq<Resource>, desired: set<Resource>,
                   permission: string)
    requires server.Valid() && Lists(listing, server.permissions.Keys) && Lists(wanted, desired)
    modifies server
    ensures server.Valid() && server.permissions == Target(old(server.permissions), desired, permission)
    ensures server.calls == old(server.calls) <==> Reconciled(old(server.permissions), desired, permission)
    ensures old(server.calls) <= server.calls && Touches(server.calls, |old(server.calls)|, desired)
  {
    var current := server.permissions;
    RevokeStale(server, listing, desired);
    BringToDesired(server, current, wanted, desired, permission);
  }

  method RevokeStale(server: Server, listing: seq<Resource>, desired: set<Resource>)
    requires server.Valid() && Lists(listing, server.permissions.Keys)
    modifies server
    ensures server.Valid() && server.permissions == Pruned(old(server.permissions), desired)
    ensures old(server.calls) <= server.calls && Touches(server.calls, |old(server.calls)|, desired)
    ensures server.calls == old(server.calls) <==> forall r :: r in old(server.permissions) ==> !Stale(desired, r)
  {
    ghost var current := server.permissions;
    for i := 0 to |listing|
      invariant server.Valid() && server.permissions == Kept(old(server.permissions), listing, desired, i)
      invariant old(server.calls) <= server.calls && Touches(server.calls, |old(server.calls)|, desired)
      invariant server.calls == old(server.calls) <==> forall k :: 0 <= k < i ==> !Stale(desired, listing[k])
    {
      KeptStep(current, listing, desired, i);
      if Stale(desired, listing[i]) { server.RevokePermission(listing[i]); }
    }
    KeptIsPruned(current, listing, desired);
  }

  lemma KeptStep(p: Permissions, listing: seq<Resource>, desired: set<Resource>, n: nat)
    requires n < |listing|
    ensures Kept(p, listing, desired, n + 1) ==
      if Stale(desired, listing[n]) then Kept(p, listing, desired, n) - {listing[n]} else Kept(p, listing, desired, n)
  {
    assert listing[..n + 1] == listing[..n] + [listing[n]];
  }

  lemma KeptIsPruned(p: Permissions, listing: seq<Resource>, desired: set<Resource>)
    requires Lists(listing, p.Keys)
    ensures Kept(p, listing, desired, |listing|) == Pruned(p, desired)
  {
    assert listing[..|listing|] == listing;
  }

  lemma BroughtStep(p: Permissions, wanted: seq<Resource>, permission: string, n: nat)
    requires n < |wanted|
    ensures Brought(p, wanted, permission, n + 1) == Brought(p, wanted, permission, n)[wanted[n] := permission]
  {
    assert wanted[..n + 1] == wanted[..n] + [wanted[n]];
  }

  lemma BroughtIsTarget(current: Permissions, wanted: seq<Resource>, desired: set<Resource>, permission: string)
    requires Lists(wanted, desired)
    ensures Brought(Pruned(current, desired), wanted, permission, |wanted|) == Target(current, desired, permission)
  {
    assert wanted[..|wanted|] == wanted;
  }

  /** One iteration of the second loop: nothing is called when the snapshot already shows the permission. */
  method Bring(server: Server, current: Permissions, r: Resource, permission: string)
    requires server.Valid() && (r in current <==> r in server.permissions)
    requires r in current ==> server.permissions[r] == current[r]
    modifies server
    ensures server.Valid() && server.permissions == old(server.permissions)[r := permission]
    ensures old(server.calls) <= server.calls
    ensures forall i :: |old(server.calls)| <= i < |server.calls| ==> server.calls[i].resource == r
    ensures server.calls == old(server.calls) <==> r in current && current[r] == permission
  {
    if !(r in current && current[r] == permission) {
      if r in current { server.RevokePermission(r); }
      server.GrantPermission(r, permission);
    }
  }

  /** `current` is the snapshot taken before anything was revoked. */
  method BringToDesired(server: Server, current: Permissions, wanted: seq<Resource>, desired: set<Resource>,
                        permission: string)
    requires server.Valid() && Lists(wanted, desired) && server.permissions == Pruned(current, desired)
    modifies server
    ensures server.Valid() && server.permissions == Target(current, desired, permission)
    ensures old(server.calls) <= server.calls && Touches(server.calls, |old(server.calls)|, desired)
    ensures server.calls == old(server.calls) <==>
      forall k :: 0 <= k < |wanted| ==> wanted[k] in current && current[wanted[k]] == permission
  {
    for j := 0 to |wanted|
      invariant server.Valid() && server.permissions == Brought(Pruned(current, desired), wanted, permission, j)
      invariant old(server.calls) <= server.calls && Touches(server.calls, |old(server.calls)|, desired)
      invariant server.calls == old(server.calls) <==>
        forall k :: 0 <= k < j ==> wanted[k] in current && current[wanted[k]] == permission
    {
      BroughtStep(Pruned(current, desired), wanted, permission, j);
      assert wanted[j] in desired && wanted[j] !in wanted[..j];
      Bring(server, current, wanted[j], permission);
    }
    BroughtIsTarget(current, wanted, desired, permission);
  }

  // ---------------------------------------------------------------- convergence

  /** From any role the target holds the desired permission on exactly the desired managed resources, and
      leaves all resources of other kinds, desired or not, no worse than asked. */
  lemma TargetMeaning(p: Permissions, desired: set<Resource>, permission: string, r: Resource)
    ensures var t := Target(p, desired, permission);
      && (r in desired ==> r in t && t[r] == permission)
      && (r.kind in MANAGED ==> (r in t <==> r in desired))
      && (r.kind !in MANAGED && r !in desired ==> (r in t <==> r in p) && (r in t ==> t[r] == p[r]))
  {
  }

  /** Reconciling is idempotent, and reconciling again after other desires forgets them for managed kinds. */
  lemma TargetIsStable(p: Permissions, desired: set<Resource>, permission: string)
    ensures Reconciled(Target(p, desired, permission), desired, permission)
  {
  }

  /** Two roles that agree on what is neither managed nor desired. */
  ghost predicate AgreeElsewhere(p: Permissions, q: Permissions, desired: set<Resource>) {
    forall r: Resource :: r.kind !in MANAGED && r !in desired ==> (r in p <==> r in q) && (r in p ==> p[r] == q[r])
  }

  lemma SameTarget(p: Permissions, q: Permissions, desired: set<Resource>, permission: string)
    requires AgreeElsewhere(p, q, desired)
    ensures Target(p, desired, permission) == Target(q, desired, permission)
  {
  }

  lemma {:induction false} CallsAgreeElsewhere(calls: seq<Call>, roles: seq<Permissions>, n: nat, m: nat,
                                               desired: set<Resource>)
    requires Records(calls, roles) && n <= m <= |calls| && Touches(calls, n, desired)
    ensures AgreeElsewhere(roles[n], roles[m], desired)
    decreases m
  {
    if n < m {
      CallsAgreeElsewhere(calls, roles, n, m - 1, desired);
      assert roles[m - 1 + 1] == Effect(roles[m - 1], calls[m - 1]);
    }
  }

  /** A pass may stop after any of its calls: of the calls a pass made from position `n` on, any first part
      leaves a role from which a fresh pass ends exactly where the whole pass ends. */
  lemma ConvergesFromAnyStop(calls: seq<Call>, roles: seq<Permissions>, n: nat, m: nat, desired: set<Resource>,
                             permission: string)
    requires Records(calls, roles) && n <= m <= |calls| && Touches(calls, n, desired)
    ensures Target(roles[m], desired, permission) == Target(roles[n], desired, permission)
  {
    CallsAgreeElsewhere(calls, roles, n, m, desired);
    SameTarget(roles[n], roles[m], desired, permission);
  }
}
