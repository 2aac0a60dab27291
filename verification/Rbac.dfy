// Roles and the actions they grant.
module Rbac {
  import opened Wrappers
  import opened PyText

  datatype Action = ReadNonprod | ReadProd | AuditView

  datatype Principal = Principal(subject: PyString, tenant: Option<PyString>, roles: set<string>)

  // The actions a role name grants; unknown names grant none.
  function Grants(role: string): set<Action> {
    if role == "nonprod-read" then {ReadNonprod}
    else if role == "prod-read" then {ReadNonprod, ReadProd}
    else if role == "admin-audit" then {ReadNonprod, ReadProd, AuditView}
    else {}
  }

  predicate MayDo(p: Principal, action: Action) {
    exists role <- p.roles :: action in Grants(role)
  }

  // What a refusal tells: who is refused, and the action that is lacking.
  datatype AuthorizationError = AuthorizationError(subject: PyString, action: Action)

  // The roles are a set, so they are visited in any order.
  method Authorize(p: Principal, action: Action) returns (r: Result<(), AuthorizationError>)
    ensures r == if MayDo(p, action) then Ok(()) else Err(AuthorizationError(p.subject, action))
  {
    var allowed: set<Action> := {};
    var left := p.roles;
    while left != {}
      invariant left <= p.roles
      invariant forall a :: a in allowed <==> exists role <- p.roles - left :: a in Grants(role)
      decreases left
    {
      var role :| role in left;
      left := left - {role};
      allowed := allowed + Grants(role);
      assert p.roles - left == (p.roles - left - {role}) + {role};
    }
    assert p.roles - left == p.roles;
    return if action in allowed then Ok(()) else Err(AuthorizationError(p.subject, action));
  }

  // Each action is granted exactly to those who hold one of the roles named.
  lemma RolesGrant(p: Principal)
    ensures MayDo(p, ReadNonprod)
       <==> "nonprod-read" in p.roles || "prod-read" in p.roles || "admin-audit" in p.roles
    ensures MayDo(p, ReadProd) <==> "prod-read" in p.roles || "admin-audit" in p.roles
    ensures MayDo(p, AuditView) <==> "admin-audit" in p.roles
  {
    var nonprod, prod, admin := "nonprod-read", "prod-read", "admin-audit";
    assert ReadNonprod in Grants(nonprod);
    assert ReadProd in Grants(prod) && ReadNonprod in Grants(prod);
    assert ReadProd in Grants(admin) && ReadNonprod in Grants(admin) && AuditView in Grants(admin);
  }
}
