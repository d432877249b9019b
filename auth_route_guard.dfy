/**
 * The permission guard wrapped around each page: once the owner's session
 * and the employee session have loaded, it sends a visitor without an owner
 * to the login page, refuses everything on a locked screen, and otherwise
 * lets the page through when the route needs no permission, when the owner
 * is at the till, when the route is one of the role-specific pages for the
 * employee's role, or when the employee holds the route's permission.
 *
 * Roles reach this guard as strings; `RoleName` gives the string each role
 * of the employee session carries.
 */
module AuthGuard {
  import opened Wrappers
  import opened Employees

  /** The string form of a role, as stored in the `employees` table. */
  function RoleName(r: Role): string
  {
    match r
    case Admin => "admin"
    case Manager => "manager"
    case Cashier => "cashier"
    case Kitchen => "kitchen"
    case Attendant => "attendant"
    case Delivery => "delivery"
  }

  /** `ROUTE_PERMISSIONS`: the permission an exact path needs. */
  const RoutePermission: map<string, string> := map[
    "/dashboard" := "orders",
    "/pedidos" := "orders",
    "/cozinha" := "orders",
    "/entregas" := "orders",
    "/produtos" := "products",
    "/adicionais" := "products",
    "/categorias" := "categories",
    "/estoque" := "products",
    "/clientes" := "customers",
    "/fidelidade" := "customers",
    "/cupons" := "customers",
    "/relatorios" := "reports",
    "/historico" := "reports",
    "/caixa" := "finance",
    "/fluxo-caixa" := "finance",
    "/contas" := "finance",
    "/configuracoes" := "settings",
    "/funcionarios" := "employees"
  ]

  /** `ROLE_SPECIFIC_ROUTES`: pages some roles may open whatever their permissions. */
  const RoleSpecific: map<string, seq<string>> := map[
    "/cozinha" := ["admin", "manager", "kitchen"],
    "/entregas" := ["admin", "manager", "delivery"]
  ]

  /** `requiredPermission || ROUTE_PERMISSIONS[pathname]`, with the empty string for no permission. */
  function PermissionNeeded(requiredPermission: Option<string>, pathname: string): (p: string)
    ensures requiredPermission.Some? && requiredPermission.value != [] ==> p == requiredPermission.value
    ensures (requiredPermission.None? || requiredPermission.value == []) ==>
      (p == if pathname in RoutePermission then RoutePermission[pathname] else [])
  {
    if requiredPermission.Some? && requiredPermission.value != [] then requiredPermission.value
    else if pathname in RoutePermission then RoutePermission[pathname]
    else []
  }

  /** The role-specific list of `pathname` names the role. */
  predicate RoleSpecificGrants(pathname: string, role: Role)
  {
    pathname in RoleSpecific && RoleName(role) in RoleSpecific[pathname]
  }

  /** What one run of the effect does. */
  datatype Outcome =
    | Wait                    // still loading: nothing changes
    | ToLogin                 // `router.replace('/login')`
    | Decide(authorized: bool) // `setAuthorized(authorized)` and `setChecking(false)`

  /** The decision of the effect, branch by branch in the order the effect takes them. */
  function Decision(authLoading: bool, employeeLoading: bool, hasUser: bool, isLocked: bool,
                    activeEmployee: Option<Employee>, requiredPermission: Option<string>, pathname: string): (r: Outcome)
    ensures r == Wait <==> authLoading || employeeLoading
    ensures r == ToLogin <==> !authLoading && !employeeLoading && !hasUser
    ensures r.Decide? && r.authorized ==> !isLocked
    ensures !authLoading && !employeeLoading && hasUser && !isLocked && activeEmployee.None? ==> r == Decide(true)
  {
    if authLoading || employeeLoading then Wait
    else if !hasUser then ToLogin
    else if isLocked then Decide(false)
    else
      var permission := PermissionNeeded(requiredPermission, pathname);
      if permission == [] then Decide(true)
      else if activeEmployee.None? then Decide(true)
      else if RoleSpecificGrants(pathname, activeEmployee.value.role) then Decide(true)
      else Decide(PermissionFor(isLocked, activeEmployee, permission))
  }

  /** `getRoleLabel`: the Portuguese name of a role, 'Desconhecido' for anything else. */
  function RoleLabel(role: Option<string>): (r: string)
    ensures forall x :: role == Some(RoleName(x)) ==> r != "Desconhecido"
    ensures role.None? ==> r == "Desconhecido"
    ensures r != "Desconhecido" ==> role.Some? && |role.value| >= 5
  {
    var r := role.GetOr([]);
    if r == "admin" then "Administrador"
    else if r == "manager" then "Gerente"
    else if r == "cashier" then "Caixa"
    else if r == "kitchen" then "Cozinha"
    else if r == "attendant" then "Atendente"
    else if r == "delivery" then "Entregador"
    else "Desconhecido"
  }

  /** What the guard shows. */
  datatype View = Verifying | LockedScreen | AccessDenied(roleLabel: string) | Page

  /** The component's state: `authorized` and `checking`, and where `router.replace` last sent the visitor. */
  class Guard {
    var authorized: bool
    var checking: bool
    var redirectedTo: Option<string>

    constructor()
      ensures !authorized && checking && redirectedTo == None
    {
      authorized := false;
      checking := true;
      redirectedTo := None;
    }

    /** One run of the effect. */
    method Effect(authLoading: bool, employeeLoading: bool, hasUser: bool, isLocked: bool,
                  activeEmployee: Option<Employee>, requiredPermission: Option<string>, pathname: string)
      modifies this
      ensures match Decision(authLoading, employeeLoading, hasUser, isLocked, activeEmployee, requiredPermission, pathname)
        case Wait => authorized == old(authorized) && checking == old(checking) && redirectedTo == old(redirectedTo)
        case ToLogin => authorized == old(authorized) && checking == old(checking) && redirectedTo == Some("/login")
        case Decide(b) => authorized == b && !checking && redirectedTo == old(redirectedTo)
    {
      if authLoading || employeeLoading {
        return;
      }
      if !hasUser {
        redirectedTo := Some("/login");
        return;
      }
      if isLocked {
        checking := false;
        authorized := false;
        return;
      }
      var permission := PermissionNeeded(requiredPermission, pathname);
      if permission == [] {
        authorized := true;
        checking := false;
        return;
      }
      if activeEmployee.None? {
        authorized := true;
        checking := false;
        return;
      }
      if pathname in RoleSpecific {
        var roleSpecific := RoleSpecific[pathname];
        if RoleName(activeEmployee.value.role) in roleSpecific {
          authorized := true;
          checking := false;
          return;
        }
      }
      authorized := PermissionFor(isLocked, activeEmployee, permission);
      checking := false;
    }

    /** The render: a spinner while anything loads or the check has not run, then the lock, the refusal or the page. */
    function Render(authLoading: bool, employeeLoading: bool, isLocked: bool, activeEmployee: Option<Employee>): (v: View)
      reads this
      ensures v == Page <==> !authLoading && !employeeLoading && !checking && !isLocked && authorized
      ensures authLoading || employeeLoading || checking ==> v == Verifying
      ensures !(authLoading || employeeLoading || checking) && isLocked ==> v == LockedScreen
      ensures !(authLoading || employeeLoading || checking) && !isLocked && !authorized ==> v.AccessDenied?
      ensures v.AccessDenied? ==>
        v.roleLabel == RoleLabel(if activeEmployee.Some? then Some(RoleName(activeEmployee.value.role)) else None)
    {
      if authLoading || employeeLoading || checking then Verifying
      else if isLocked then LockedScreen
      else if !authorized then
        AccessDenied(RoleLabel(if activeEmployee.Some? then Some(RoleName(activeEmployee.value.role)) else None))
      else Page
    }
  }

  // ------------------------------------------------------------- properties

  /** Without an owner the guard goes to the login page; a locked screen is never authorised. */
  lemma NoUserOrLocked(activeEmployee: Option<Employee>, requiredPermission: Option<string>, pathname: string, hasUser: bool)
    ensures Decision(false, false, false, false, activeEmployee, requiredPermission, pathname) == ToLogin
    ensures Decision(false, false, false, true, activeEmployee, requiredPermission, pathname) == ToLogin
    ensures hasUser ==> Decision(false, false, hasUser, true, activeEmployee, requiredPermission, pathname) == Decide(false)
  {
  }

  /** A route needing no permission, and any route in owner mode, is authorised. */
  lemma OpenRoutesAndOwner(activeEmployee: Option<Employee>, requiredPermission: Option<string>, pathname: string)
    requires PermissionNeeded(requiredPermission, pathname) == [] || activeEmployee.None?
    ensures Decision(false, false, true, false, activeEmployee, requiredPermission, pathname) == Decide(true)
  {
  }

  /** On a role-specific page the listed roles are let in even without the route's permission. */
  lemma RoleSpecificFirst(e: Employee, requiredPermission: Option<string>, pathname: string)
    requires RoleSpecificGrants(pathname, e.role)
    ensures Decision(false, false, true, false, Some(e), requiredPermission, pathname) == Decide(true)
  {
  }

  /** The kitchen and delivery pages need 'orders', yet their own staff get in without that permission. */
  lemma KitchenAndDeliveryPages(e: Employee)
    requires "orders" !in e.permissions
    ensures PermissionNeeded(None, "/cozinha") == "orders" && PermissionNeeded(None, "/entregas") == "orders"
    ensures e.role == Kitchen ==> Decision(false, false, true, false, Some(e), None, "/cozinha") == Decide(true)
    ensures e.role == Delivery ==> Decision(false, false, true, false, Some(e), None, "/entregas") == Decide(true)
    ensures e.role == Kitchen ==> Decision(false, false, true, false, Some(e), None, "/entregas") == Decide(false)
  {
    assert RoleSpecific["/cozinha"][2] == RoleName(Kitchen);
    assert RoleSpecific["/entregas"][2] == RoleName(Delivery);
    assert "kitchen"[0] != "admin"[0] && "kitchen"[0] != "manager"[0] && "kitchen"[0] != "delivery"[0];
  }

  /**
   * Everywhere else the decision is the employee session's `hasPermission`,
   * which an admin always passes.
   */
  lemma OtherwiseHasPermission(e: Employee, requiredPermission: Option<string>, pathname: string)
    requires PermissionNeeded(requiredPermission, pathname) != []
    requires !RoleSpecificGrants(pathname, e.role)
    ensures Decision(false, false, true, false, Some(e), requiredPermission, pathname)
      == Decide(PermissionFor(false, Some(e), PermissionNeeded(requiredPermission, pathname)))
    ensures e.role == Admin ==> Decision(false, false, true, false, Some(e), requiredPermission, pathname) == Decide(true)
  {
  }

  /** An explicit `requiredPermission` replaces the route's own. */
  lemma RequiredPermissionOverrides(e: Employee, perm: string, pathname: string)
    requires perm != [] && e.role != Admin && !RoleSpecificGrants(pathname, e.role)
    ensures Decision(false, false, true, false, Some(e), Some(perm), pathname)
      == Decide(perm in e.permissions && e.permissions[perm])
  {
  }

  /** Once the effect has decided, the page shows exactly when the decision was to authorise and the screen is unlocked. */
  lemma PageShownIffAuthorised(g: Guard, hasUser: bool, isLocked: bool,
                               activeEmployee: Option<Employee>, requiredPermission: Option<string>, pathname: string)
    requires Decision(false, false, hasUser, isLocked, activeEmployee, requiredPermission, pathname).Decide?
    requires g.authorized == Decision(false, false, hasUser, isLocked, activeEmployee, requiredPermission, pathname).authorized
    requires !g.checking
    ensures g.Render(false, false, isLocked, activeEmployee) == Page <==>
      Decision(false, false, hasUser, isLocked, activeEmployee, requiredPermission, pathname) == Decide(true)
  {
  }

  /** Every role has its own label, and anything unknown or absent is 'Desconhecido'. */
  lemma RoleLabels(r: Role, other: Option<string>)
    requires other.None? || forall q: Role :: other.value != RoleName(q)
    ensures RoleLabel(Some(RoleName(r))) != "Desconhecido"
    ensures RoleLabel(other) == "Desconhecido"
  {
    if other.Some? {
      assert other.value != RoleName(Admin) && other.value != RoleName(Manager) && other.value != RoleName(Cashier);
      assert other.value != RoleName(Kitchen) && other.value != RoleName(Attendant) && other.value != RoleName(Delivery);
    }
  }

  /** Distinct roles get distinct labels. */
  lemma RoleLabelsDistinct(r: Role, q: Role)
    requires r != q
    ensures RoleLabel(Some(RoleName(r))) != RoleLabel(Some(RoleName(q)))
  {
  }
}
