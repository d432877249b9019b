/**
 * The role guard around the app's pages: each listed path prefix names the
 * roles allowed below it, the longest prefix that matches decides, and an
 * employee who may not stay is sent to their role's home page.
 */
module RoleGuard {
  import opened Strings
  import opened Wrappers
  import opened Employees

  datatype Rule = Rule(path: string, roles: seq<Role>)

  /** `ROUTE_PERMISSIONS`, in declaration order. */
  const RoutePermissions: seq<Rule> := [
    Rule("/dashboard", [Admin, Manager]),
    Rule("/configuracoes", [Admin]),
    Rule("/funcionarios", [Admin]),
    Rule("/relatorios", [Admin, Manager]),
    Rule("/estoque", [Admin, Manager]),
    Rule("/caixa", [Admin, Manager, Cashier]),
    Rule("/pedidos", [Admin, Manager, Cashier, Attendant]),
    Rule("/cozinha", [Admin, Manager, Kitchen]),
    Rule("/entregas", [Admin, Manager, Delivery]),
    Rule("/menu", [Admin, Manager, Cashier, Attendant])
  ]

  /** `ROLE_REDIRECTS`. */
  function RoleRedirect(role: Role): string
  {
    match role
    case Admin => "/dashboard"
    case Manager => "/dashboard"
    case Cashier => "/caixa"
    case Kitchen => "/cozinha"
    case Attendant => "/pedidos"
    case Delivery => "/entregas"
  }

  /**
   * The rule that governs `pathname`: one whose path is a prefix of it, no
   * shorter than any other matching rule, and the first of the longest ones.
   */
  function BestRule(rules: seq<Rule>, pathname: string): (r: Option<nat>)
    ensures r.Some? ==> r.value < |rules| && StartsWith(pathname, rules[r.value].path)
    ensures r.Some? ==> forall k :: 0 <= k < |rules| && StartsWith(pathname, rules[k].path) ==>
      |rules[k].path| <= |rules[r.value].path|
    ensures r.Some? ==> forall k :: 0 <= k < r.value && StartsWith(pathname, rules[k].path) ==>
      |rules[k].path| < |rules[r.value].path|
    ensures r.None? <==> forall k :: 0 <= k < |rules| ==> !StartsWith(pathname, rules[k].path)
  {
    if rules == [] then None
    else
      var rest := BestRule(rules[1..], pathname);
      if StartsWith(pathname, rules[0].path) && (rest.None? || |rules[1 + rest.value].path| <= |rules[0].path|)
      then Some(0)
      else if rest.Some? then Some(rest.value + 1)
      else None
  }

  /** What `checkAuthorization` decides. */
  function Authorized(loading: bool, activeEmployee: Option<Employee>, pathname: string): bool
  {
    if loading then false
    else if activeEmployee.None? || activeEmployee.value.role == Admin then true
    else
      var best := BestRule(RoutePermissions, pathname);
      best.None? || activeEmployee.value.role in RoutePermissions[best.value].roles
  }

  /**
   * `checkAuthorization`: walks the table keeping the longest matching path
   * seen so far (a later path replaces it only when strictly longer).
   */
  method CheckAuthorization(loading: bool, activeEmployee: Option<Employee>, pathname: string) returns (authorized: bool)
    ensures authorized == Authorized(loading, activeEmployee, pathname)
  {
    if loading {
      return false;
    }
    if activeEmployee.None? {
      return true;
    }
    if activeEmployee.value.role == Admin {
      return true;
    }
    var rules := RoutePermissions;
    var matched: Option<nat> := None;
    for i := 0 to |rules|
      invariant matched.Some? ==> matched.value < i && StartsWith(pathname, rules[matched.value].path)
      invariant matched.Some? ==> forall k :: 0 <= k < i && StartsWith(pathname, rules[k].path) ==>
        |rules[k].path| <= |rules[matched.value].path|
      invariant matched.Some? ==> forall k :: 0 <= k < matched.value && StartsWith(pathname, rules[k].path) ==>
        |rules[k].path| < |rules[matched.value].path|
      invariant matched.None? <==> forall k :: 0 <= k < i ==> !StartsWith(pathname, rules[k].path)
    {
      if StartsWith(pathname, rules[i].path) {
        if matched.None? || |rules[i].path| > |rules[matched.value].path| {
          matched := Some(i);
        }
      }
    }
    BestRuleUnique(rules, pathname, matched);
    if matched.None? {
      return true;
    }
    authorized := activeEmployee.value.role in rules[matched.value].roles;
  }

  /** The three properties pin the governing rule down. */
  lemma BestRuleUnique(rules: seq<Rule>, pathname: string, m: Option<nat>)
    requires m.Some? ==> m.value < |rules| && StartsWith(pathname, rules[m.value].path)
    requires m.Some? ==> forall k :: 0 <= k < |rules| && StartsWith(pathname, rules[k].path) ==>
      |rules[k].path| <= |rules[m.value].path|
    requires m.Some? ==> forall k :: 0 <= k < m.value && StartsWith(pathname, rules[k].path) ==>
      |rules[k].path| < |rules[m.value].path|
    requires m.None? <==> forall k :: 0 <= k < |rules| ==> !StartsWith(pathname, rules[k].path)
    ensures m == BestRule(rules, pathname)
  {
  }

  /** `router.push` target of the effect: an employee who may not stay goes to their role's home page. */
  function RedirectTarget(loading: bool, activeEmployee: Option<Employee>, pathname: string): (target: Option<string>)
    ensures target.Some? <==> !loading && activeEmployee.Some? && !Authorized(loading, activeEmployee, pathname)
    ensures target.Some? ==> target.value == RoleRedirect(activeEmployee.value.role)
  {
    if loading then None
    else if !Authorized(loading, activeEmployee, pathname) && activeEmployee.Some? then Some(RoleRedirect(activeEmployee.value.role))
    else None
  }

  /** Nobody is let in while loading; the owner and admins are let in everywhere and never redirected. */
  lemma GuardBasics(activeEmployee: Option<Employee>, pathname: string)
    ensures !Authorized(true, activeEmployee, pathname)
    ensures activeEmployee.None? || activeEmployee.value.role == Admin ==> Authorized(false, activeEmployee, pathname)
    ensures activeEmployee.None? ==> RedirectTarget(false, activeEmployee, pathname).None?
  {
  }

  /** A path below no listed prefix is open to every role. */
  lemma UnlistedPathOpen(activeEmployee: Option<Employee>, pathname: string)
    requires forall k :: 0 <= k < |RoutePermissions| ==> !StartsWith(pathname, RoutePermissions[k].path)
    ensures Authorized(false, activeEmployee, pathname)
  {
  }

  /** The listed paths already differ in their first four characters. */
  function Head(path: string): string
  {
    if |path| < 4 then path else path[..4]
  }

  lemma PrefixSharesHead(s: string, p: string)
    requires |p| >= 4 && StartsWith(s, p)
    ensures Head(s) == Head(p)
  {
    assert s[..4] == s[..|p|][..4];
  }

  /** The first four characters of every listed path, in table order. */
  const Heads: seq<string> := ["/das", "/con", "/fun", "/rel", "/est", "/cai", "/ped", "/coz", "/ent", "/men"]

  lemma ListedHeads()
    ensures |Heads| == |RoutePermissions|
    ensures forall j :: 0 <= j < |RoutePermissions| ==>
      |RoutePermissions[j].path| >= 4 && Head(RoutePermissions[j].path) == Heads[j]
  {
  }

  lemma HeadsDistinct()
    ensures forall i, j :: 0 <= i < j < |Heads| ==> Heads[i] != Heads[j]
  {
  }

  /** A listed path lies below no other listed path. */
  lemma OnlyOwnRuleMatches(k: nat)
    requires k < |RoutePermissions|
    ensures forall j :: 0 <= j < |RoutePermissions| && StartsWith(RoutePermissions[k].path, RoutePermissions[j].path) ==> j == k
  {
    ListedHeads();
    HeadsDistinct();
    forall j | 0 <= j < |RoutePermissions| && StartsWith(RoutePermissions[k].path, RoutePermissions[j].path)
      ensures j == k
    {
      PrefixSharesHead(RoutePermissions[k].path, RoutePermissions[j].path);
    }
  }

  /** On a listed path itself, the roles of that path's own rule decide. */
  lemma ListedPathDecides(e: Employee, k: nat)
    requires k < |RoutePermissions| && e.role != Admin
    ensures Authorized(false, Some(e), RoutePermissions[k].path) <==> e.role in RoutePermissions[k].roles
  {
    OnlyOwnRuleMatches(k);
    BestRuleUnique(RoutePermissions, RoutePermissions[k].path, Some(k));
  }

  /** The rule of a role's home page. */
  function HomeRule(role: Role): (k: nat)
    ensures k < |RoutePermissions| && RoutePermissions[k].path == RoleRedirect(role)
    ensures role in RoutePermissions[k].roles
  {
    match role
    case Admin => 0
    case Manager => 0
    case Cashier => 5
    case Kitchen => 7
    case Attendant => 6
    case Delivery => 8
  }

  /** Sending an employee to their role's home page never sends them somewhere they are refused. */
  lemma RedirectIsAllowed(e: Employee)
    ensures Authorized(false, Some(e), RoleRedirect(e.role))
  {
    if e.role != Admin {
      ListedPathDecides(e, HomeRule(e.role));
    }
  }
}
