/**
 * The sidebar's menu: the catalogue of pages put in the owner's saved
 * order, with hidden pages removed and pages the signed-in employee may not
 * use filtered out, and reordered by drag and drop with a local override
 * that stands in for the saved order until the settings catch up.
 *
 * The saved order and the hidden list are the owner's settings as loaded;
 * the result of saving a new order enters as a flag.
 */
module Sidebar {
  import opened Wrappers
  import opened Sorting
  import opened Employees
  import AuthGuard

  /** A menu entry: its link and its label; the icon is left out. */
  datatype MenuItem = MenuItem(href: string, name: string)

  /** `MENU_ITEMS`. */
  const MenuItems: seq<MenuItem> := [
    MenuItem("/dashboard", "Dashboard"),
    MenuItem("/produtos", "Produtos"),
    MenuItem("/adicionais", "Adicionais"),
    MenuItem("/categorias", "Categorias"),
    MenuItem("/pedidos", "Pedidos"),
    MenuItem("/cozinha", "Cozinha"),
    MenuItem("/entregas", "Entregas"),
    MenuItem("/estoque", "Estoque"),
    MenuItem("/cupons", "Cupons"),
    MenuItem("/fidelidade", "Fidelidade"),
    MenuItem("/caixa", "Caixa"),
    MenuItem("/contas", "Contas"),
    MenuItem("/fluxo-caixa", "Fluxo de Caixa"),
    MenuItem("/funcionarios", "Funcionários"),
    MenuItem("/relatorios", "Relatórios"),
    MenuItem("/historico", "Histórico"),
    MenuItem("/assinatura", "Assinatura")
  ]

  predicate DistinctHrefs(items: seq<MenuItem>)
  {
    forall i, j :: 0 <= i < j < |items| ==> items[i].href != items[j].href
  }

  function Hrefs(items: seq<MenuItem>): (r: seq<string>)
    ensures |r| == |items| && forall i :: 0 <= i < |items| ==> r[i] == items[i].href
  {
    seq(|items|, i requires 0 <= i < |items| => items[i].href)
  }

  // ------------------------------------------------------------- ordering

  /** `MENU_ITEMS.find(item => item.href === href)`. */
  function FindItem(items: seq<MenuItem>, href: string): (r: Option<MenuItem>)
    ensures r.Some? ==> r.value in items && r.value.href == href
    ensures r.None? ==> forall i :: 0 <= i < |items| ==> items[i].href != href
  {
    if items == [] then None
    else if items[0].href == href then Some(items[0])
    else FindItem(items[1..], href)
  }

  /** The saved hrefs mapped to their items, unknown ones dropped. */
  function Reordered(items: seq<MenuItem>, saved: seq<string>): (r: seq<MenuItem>)
    ensures forall x :: x in r ==> x in items && x.href in saved
  {
    if saved == [] then []
    else
      var head := FindItem(items, saved[0]);
      (if head.Some? then [head.value] else []) + Reordered(items, saved[1..])
  }

  /** `l.filter(item => !hrefs.includes(item.href))`. */
  function WithoutHrefs(l: seq<MenuItem>, hrefs: seq<string>): (r: seq<MenuItem>)
    ensures |r| <= |l|
    ensures forall x :: x in r <==> x in l && x.href !in hrefs
  {
    if l == [] then []
    else (if l[0].href in hrefs then [] else [l[0]]) + WithoutHrefs(l[1..], hrefs)
  }

  /** `contextOrderedItems`: the saved order first, then the pages it does not mention in catalogue order. */
  function ContextOrdered(items: seq<MenuItem>, saved: Option<seq<string>>): (r: seq<MenuItem>)
    ensures forall x :: x in r ==> x in items
    ensures forall x :: x in items && (saved.None? || x.href !in saved.value) ==> x in r
  {
    if saved.Some? && |saved.value| > 0 then Reordered(items, saved.value) + WithoutHrefs(items, saved.value)
    else items
  }

  lemma NoSavedOrder(items: seq<MenuItem>)
    ensures ContextOrdered(items, None) == items && ContextOrdered(items, Some([])) == items
  {
  }

  /** With distinct hrefs, every saved href that names a page brings exactly that page. */
  lemma {:induction false} ReorderedMembers(items: seq<MenuItem>, saved: seq<string>)
    requires DistinctHrefs(items)
    ensures forall x :: x in Reordered(items, saved) <==> x in items && x.href in saved
    decreases |saved|
  {
    if saved != [] {
      ReorderedMembers(items, saved[1..]);
      forall x | x in items && x.href == saved[0] ensures FindItem(items, saved[0]) == Some(x) {
        FindItemFinds(items, x);
      }
    }
  }

  /** When every saved href names a page, the saved order is followed exactly. */
  lemma {:induction false} ReorderedFollowsSaved(items: seq<MenuItem>, saved: seq<string>)
    requires forall k :: 0 <= k < |saved| ==> FindItem(items, saved[k]).Some?
    ensures Hrefs(Reordered(items, saved)) == saved
    decreases |saved|
  {
    if saved != [] {
      ReorderedFollowsSaved(items, saved[1..]);
      assert Reordered(items, saved) == [FindItem(items, saved[0]).value] + Reordered(items, saved[1..]);
    }
  }

  /** Every page of the catalogue appears in the ordering, and nothing else does. */
  lemma ContextOrderedMembers(items: seq<MenuItem>, saved: Option<seq<string>>)
    requires DistinctHrefs(items)
    ensures forall x :: x in ContextOrdered(items, saved) <==> x in items
  {
    if saved.Some? && |saved.value| > 0 {
      ReorderedMembers(items, saved.value);
    }
  }

  lemma {:induction false} ReorderedDistinct(items: seq<MenuItem>, saved: seq<string>)
    requires Distinct(saved)
    ensures Distinct(Reordered(items, saved))
    decreases |saved|
  {
    if saved != [] {
      assert Distinct(saved[1..]) by {
        forall i, j | 0 <= i < j < |saved[1..]| ensures saved[1..][i] != saved[1..][j] {
          assert saved[1..][i] == saved[i + 1] && saved[1..][j] == saved[j + 1];
        }
      }
      ReorderedDistinct(items, saved[1..]);
      var rest := Reordered(items, saved[1..]);
      var head := FindItem(items, saved[0]);
      if head.Some? {
        forall k | 0 <= k < |rest| ensures rest[k] != head.value {
          assert rest[k] in rest;
          assert rest[k].href in saved[1..];
          var j :| 0 <= j < |saved[1..]| && saved[1..][j] == rest[k].href;
          assert saved[j + 1] == rest[k].href;
        }
        ConsDistinct(head.value, rest);
      }
    }
  }

  lemma ConsDistinct<T>(x: T, s: seq<T>)
    requires Distinct(s) && forall k :: 0 <= k < |s| ==> s[k] != x
    ensures Distinct([x] + s)
  {
    forall i, j | 0 <= i < j < |[x] + s| ensures ([x] + s)[i] != ([x] + s)[j] {
      assert ([x] + s)[j] == s[j - 1];
      if i > 0 {
        assert ([x] + s)[i] == s[i - 1];
      }
    }
  }

  lemma {:induction false} WithoutHrefsDistinct(l: seq<MenuItem>, hrefs: seq<string>)
    requires Distinct(l)
    ensures Distinct(WithoutHrefs(l, hrefs))
    decreases |l|
  {
    if l != [] {
      assert Distinct(l[1..]) by {
        forall i, j | 0 <= i < j < |l[1..]| ensures l[1..][i] != l[1..][j] {
          assert l[1..][i] == l[i + 1] && l[1..][j] == l[j + 1];
        }
      }
      WithoutHrefsDistinct(l[1..], hrefs);
      var rest := WithoutHrefs(l[1..], hrefs);
      if l[0].href !in hrefs {
        forall k | 0 <= k < |rest| ensures rest[k] != l[0] {
          assert rest[k] in rest;
          var j :| 0 <= j < |l[1..]| && l[1..][j] == rest[k];
          assert l[j + 1] == rest[k];
        }
        ConsDistinct(l[0], rest);
      }
    }
  }

  lemma AppendDistinct<T>(a: seq<T>, b: seq<T>)
    requires Distinct(a) && Distinct(b)
    requires forall i, j :: 0 <= i < |a| && 0 <= j < |b| ==> a[i] != b[j]
    ensures Distinct(a + b)
  {
    forall i, j | 0 <= i < j < |a + b| ensures (a + b)[i] != (a + b)[j] {
      if j < |a| {
      } else if i < |a| {
        assert (a + b)[j] == b[j - |a|];
      } else {
        assert (a + b)[i] == b[i - |a|] && (a + b)[j] == b[j - |a|];
      }
    }
  }

  /** Distinct hrefs make distinct items. */
  lemma HrefsMakeDistinct(items: seq<MenuItem>)
    requires DistinctHrefs(items)
    ensures Distinct(items)
  {
  }

  /** With a saved order that repeats no href, the ordering is a permutation of the catalogue. */
  lemma ContextOrderedPermutation(items: seq<MenuItem>, saved: Option<seq<string>>)
    requires DistinctHrefs(items)
    requires saved.Some? ==> Distinct(saved.value)
    ensures multiset(ContextOrdered(items, saved)) == multiset(items)
  {
    var r := ContextOrdered(items, saved);
    ContextOrderedMembers(items, saved);
    HrefsMakeDistinct(items);
    if saved.Some? && |saved.value| > 0 {
      var a := Reordered(items, saved.value);
      var b := WithoutHrefs(items, saved.value);
      ReorderedDistinct(items, saved.value);
      WithoutHrefsDistinct(items, saved.value);
      forall i, j | 0 <= i < |a| && 0 <= j < |b| ensures a[i] != b[j] {
        assert a[i] in a && b[j] in b;
      }
      AppendDistinct(a, b);
    }
    forall x ensures multiset(r)[x] == multiset(items)[x] {
      DistinctMultiset(r, x);
      DistinctMultiset(items, x);
    }
  }

  /** Hiding and filtering keep the relative order: they distribute over concatenation. */
  lemma {:induction false} WithoutHrefsConcat(a: seq<MenuItem>, b: seq<MenuItem>, hrefs: seq<string>)
    ensures WithoutHrefs(a + b, hrefs) == WithoutHrefs(a, hrefs) + WithoutHrefs(b, hrefs)
    decreases |a|
  {
    if a == [] {
      assert a + b == b;
    } else {
      assert (a + b)[0] == a[0];
      assert (a + b)[1..] == a[1..] + b;
      WithoutHrefsConcat(a[1..], b, hrefs);
    }
  }

  /** `visibleMenuItems`: the ordering without the hidden pages. */
  function VisibleMenuItems(ordered: seq<MenuItem>, hidden: Option<seq<string>>): (r: seq<MenuItem>)
    ensures forall x :: x in r <==> x in ordered && x.href !in hidden.GetOr([])
  {
    WithoutHrefs(ordered, hidden.GetOr([]))
  }

  lemma NothingHidden(ordered: seq<MenuItem>)
    ensures VisibleMenuItems(ordered, None) == ordered
  {
    WithoutHrefsNone(ordered);
  }

  lemma {:induction false} WithoutHrefsNone(l: seq<MenuItem>)
    ensures WithoutHrefs(l, []) == l
    decreases |l|
  {
    if l != [] {
      WithoutHrefsNone(l[1..]);
    }
  }

  // ---------------------------------------------------------- permissions

  /** `href.replace('/', '')`: the first slash removed. */
  function RemoveFirstSlash(s: string): (r: string)
    ensures |s| > 0 && s[0] == '/' ==> r == s[1..]
  {
    if s == [] then []
    else if s[0] == '/' then s[1..]
    else [s[0]] + RemoveFirstSlash(s[1..])
  }

  /** The sidebar's `permissionMap` as written: coupons need 'settings'. */
  const PermissionMapAsWritten: map<string, string> := map[
    "produtos" := "products",
    "adicionais" := "products",
    "categorias" := "categories",
    "pedidos" := "orders",
    "cozinha" := "orders",
    "entregas" := "orders",
    "estoque" := "products",
    "cupons" := "settings",
    "fidelidade" := "customers",
    "caixa" := "finance",
    "contas" := "finance",
    "fluxo-caixa" := "finance",
    "funcionarios" := "employees",
    "relatorios" := "reports",
    "historico" := "reports",
    "configuracoes" := "settings"
  ]

  /** The same map with coupons needing 'customers', the permission the route guard asks for. */
  const PermissionMap: map<string, string> := PermissionMapAsWritten["cupons" := "customers"]

  /** The filter's test for one item under a given permission map. */
  predicate ShownWith(pm: map<string, string>, item: MenuItem, isLocked: bool, activeEmployee: Option<Employee>)
  {
    var path := RemoveFirstSlash(item.href);
    if path == "dashboard" then true
    else if activeEmployee.None? then true
    else if path !in pm || pm[path] == [] then true
    else PermissionFor(isLocked, activeEmployee, pm[path])
  }

  predicate Shown(item: MenuItem, isLocked: bool, activeEmployee: Option<Employee>)
  {
    ShownWith(PermissionMap, item, isLocked, activeEmployee)
  }

  /** `filteredMenuItems`: the visible items the current person may use, in order. */
  function FilteredMenuItems(visible: seq<MenuItem>, isLocked: bool, activeEmployee: Option<Employee>): (r: seq<MenuItem>)
    ensures |r| <= |visible|
    ensures forall x :: x in r <==> x in visible && Shown(x, isLocked, activeEmployee)
  {
    if visible == [] then []
    else (if Shown(visible[0], isLocked, activeEmployee) then [visible[0]] else [])
         + FilteredMenuItems(visible[1..], isLocked, activeEmployee)
  }

  /** The dashboard is always listed; the owner sees every visible page. */
  lemma FilterBasics(visible: seq<MenuItem>, isLocked: bool, activeEmployee: Option<Employee>)
    ensures forall x :: x in visible && x.href == "/dashboard" ==> x in FilteredMenuItems(visible, isLocked, activeEmployee)
    ensures activeEmployee.None? ==> FilteredMenuItems(visible, isLocked, activeEmployee) == visible
  {
    assert RemoveFirstSlash("/dashboard") == "dashboard";
    if activeEmployee.None? {
      OwnerSeesAll(visible, isLocked);
    }
  }

  lemma {:induction false} OwnerSeesAll(visible: seq<MenuItem>, isLocked: bool)
    ensures FilteredMenuItems(visible, isLocked, None) == visible
    decreases |visible|
  {
    if visible != [] {
      OwnerSeesAll(visible[1..], isLocked);
    }
  }

  /** A page with no entry in the map is listed for everyone; a mapped one needs its permission. */
  lemma FilterByPermission(item: MenuItem, isLocked: bool, e: Employee)
    requires RemoveFirstSlash(item.href) != "dashboard"
    ensures RemoveFirstSlash(item.href) !in PermissionMap ==> Shown(item, isLocked, Some(e))
    ensures RemoveFirstSlash(item.href) in PermissionMap ==>
      (Shown(item, isLocked, Some(e)) <==> PermissionFor(isLocked, Some(e), PermissionMap[RemoveFirstSlash(item.href)]))
  {
    var path := RemoveFirstSlash(item.href);
    if path in PermissionMap {
      assert PermissionMap[path] != [];
    }
  }

  /**
   * As written, an employee holding 'settings' but not 'customers' is shown
   * the Cupons link, and the route guard then refuses the page.
   */
  lemma CouponsLinkRefused()
    ensures var e := Employee("", "", Cashier, map["settings" := true]);
      ShownWith(PermissionMapAsWritten, MenuItem("/cupons", "Cupons"), false, Some(e))
      && AuthGuard.Decision(false, false, true, false, Some(e), None, "/cupons") == AuthGuard.Decide(false)
  {
    var e := Employee("", "", Cashier, map["settings" := true]);
    assert RemoveFirstSlash("/cupons") == "cupons";
    assert "cupons" != "dashboard";
    assert AuthGuard.PermissionNeeded(None, "/cupons") == "customers";
    assert "customers" != "settings";
    assert !AuthGuard.RoleSpecificGrants("/cupons", Cashier) by {
      assert "/cupons" != "/cozinha" && "/cupons" != "/entregas";
    }
  }

  /** The sidebar asks, under `pm`, for the permission the route guard asks for on this page. */
  predicate AgreesWithGuard(pm: map<string, string>, item: MenuItem)
  {
    var path := RemoveFirstSlash(item.href);
    var needed := AuthGuard.PermissionNeeded(None, item.href);
    path != "dashboard"
    && (path in pm && pm[path] != [] <==> needed != [])
    && (path in pm && pm[path] != [] ==> pm[path] == needed)
  }

  /**
   * Wherever the two maps agree, a page the sidebar lists for a signed-in
   * employee opens for them, and a page it hides is refused unless the
   * employee's role is one the route guard lets in on its own.
   */
  lemma LinkMatchesGuard(pm: map<string, string>, item: MenuItem, e: Employee)
    requires AgreesWithGuard(pm, item)
    ensures ShownWith(pm, item, false, Some(e)) ==>
      AuthGuard.Decision(false, false, true, false, Some(e), None, item.href) == AuthGuard.Decide(true)
    ensures !AuthGuard.RoleSpecificGrants(item.href, e.role) ==>
      (ShownWith(pm, item, false, Some(e)) <==>
       AuthGuard.Decision(false, false, true, false, Some(e), None, item.href) == AuthGuard.Decide(true))
  {
  }

  /** The corrected map agrees with the route guard on the coupons page; the map as written does not. */
  lemma CouponsAgreement()
    ensures AgreesWithGuard(PermissionMap, MenuItems[8])
    ensures !AgreesWithGuard(PermissionMapAsWritten, MenuItems[8])
  {
    assert MenuItems[8].href == "/cupons";
    assert RemoveFirstSlash("/cupons") == "cupons";
    assert "cupons" != "dashboard";
    assert AuthGuard.PermissionNeeded(None, "/cupons") == "customers";
    assert "customers" != "settings";
  }

  // ------------------------------------------------------------ reordering

  /** `arrayMove(s, from, to)`: the element at `from` taken out and put back at `to`. */
  function ArrayMove<T>(s: seq<T>, from: nat, to: nat): (r: seq<T>)
    requires from < |s| && to < |s|
    ensures |r| == |s| && r[to] == s[from]
  {
    var rest := s[..from] + s[from + 1..];
    rest[..to] + [s[from]] + rest[to..]
  }

  /** Moving keeps every element: the result is a permutation, and taking the moved one out again leaves the others in their old order. */
  lemma ArrayMovePermutation<T>(s: seq<T>, from: nat, to: nat)
    requires from < |s| && to < |s|
    ensures multiset(ArrayMove(s, from, to)) == multiset(s)
    ensures var r := ArrayMove(s, from, to); r[..to] + r[to + 1..] == s[..from] + s[from + 1..]
  {
    var x := s[from];
    var rest := s[..from] + s[from + 1..];
    var a, b := rest[..to], rest[to..];
    var r := ArrayMove(s, from, to);
    assert r == a + [x] + b;
    assert rest == a + b;
    calc {
      multiset(r);
      multiset(a) + multiset([x]) + multiset(b);
      multiset(rest) + multiset([x]);
      multiset(s[..from]) + multiset(s[from + 1..]) + multiset([x]);
      { assert s == s[..from] + [x] + s[from + 1..]; }
      multiset(s);
    }
    assert r[..to] == a;
    assert r[to + 1..] == b;
  }

  /** `findIndex` on the hrefs. */
  function IndexOfHref(l: seq<MenuItem>, href: string): (i: nat)
    requires href in Hrefs(l)
    ensures i < |l| && l[i].href == href
    ensures forall j :: 0 <= j < i ==> l[j].href != href
  {
    if l[0].href == href then 0
    else
      assert href in Hrefs(l[1..]) by {
        var j :| 0 <= j < |l| && Hrefs(l)[j] == href;
        assert Hrefs(l[1..])[j - 1] == href;
      }
      1 + IndexOfHref(l[1..], href)
  }

  /** The override is dropped once the saved order is the override's hrefs, element by element. */
  predicate OrdersMatch(overrideItems: seq<MenuItem>, saved: seq<string>)
  {
    |overrideItems| == |saved| && forall i :: 0 <= i < |saved| ==> overrideItems[i].href == saved[i]
  }

  /** There is an override and the non-empty saved order matches it. */
  predicate Synced(overrideItems: Option<seq<MenuItem>>, saved: Option<seq<string>>)
  {
    overrideItems.Some? && saved.Some? && |saved.value| > 0 && OrdersMatch(overrideItems.value, saved.value)
  }

  lemma OrdersMatchIsEquality(overrideItems: seq<MenuItem>, saved: seq<string>)
    ensures OrdersMatch(overrideItems, saved) <==> Hrefs(overrideItems) == saved
  {
  }

  /** The sidebar's own ordering state. */
  class OrderState {
    var localOrderOverride: Option<seq<MenuItem>>
    var activeId: Option<string>

    constructor()
      ensures localOrderOverride == None && activeId == None
    {
      localOrderOverride := None;
      activeId := None;
    }

    /** `orderedItems`: the override while there is one, else the order from the settings. */
    function OrderedItems(saved: Option<seq<string>>): seq<MenuItem>
      reads this
    {
      localOrderOverride.GetOr(ContextOrdered(MenuItems, saved))
    }

    method HandleDragStart(id: string)
      modifies this
      ensures activeId == Some(id) && localOrderOverride == old(localOrderOverride)
    {
      activeId := Some(id);
    }

    /**
     * `handleDragEnd`. Dropping an item on another one moves it there at
     * once and sends the new hrefs (`request`) to be saved; a failed save
     * rolls the override back. The dragged and the target ids are hrefs of
     * listed items.
     */
    method HandleDragEnd(saved: Option<seq<string>>, active: string, over: Option<string>, saveFailed: bool)
      returns (request: Option<seq<string>>)
      requires active in Hrefs(OrderedItems(saved))
      requires over.Some? ==> over.value in Hrefs(OrderedItems(saved))
      modifies this
      ensures activeId == None
      ensures over.None? || over.value == active ==> request == None && localOrderOverride == old(localOrderOverride)
      ensures over.Some? && over.value != active ==>
        var current := old(OrderedItems(saved));
        var newOrder := ArrayMove(current, IndexOfHref(current, active), IndexOfHref(current, over.value));
        request == Some(Hrefs(newOrder))
        && localOrderOverride == (if saveFailed then None else Some(newOrder))
    {
      activeId := None;
      request := None;
      if over.Some? && active != over.value {
        var currentOrder := OrderedItems(saved);
        var oldIndex := IndexOfHref(currentOrder, active);
        var newIndex := IndexOfHref(currentOrder, over.value);
        var newOrder := ArrayMove(currentOrder, oldIndex, newIndex);
        localOrderOverride := Some(newOrder);
        request := Some(Hrefs(newOrder));
        if saveFailed {
          localOrderOverride := None;
        }
      }
    }

    /** The effect that drops the override once the settings hold the same order. */
    method SyncOverride(saved: Option<seq<string>>)
      modifies this
      ensures activeId == old(activeId)
      ensures Synced(old(localOrderOverride), saved) ==> localOrderOverride == None
      ensures !Synced(old(localOrderOverride), saved) ==> localOrderOverride == old(localOrderOverride)
    {
      if localOrderOverride.None? {
        return;
      }
      if saved.Some? && |saved.value| > 0 {
        var overrideHrefs := Hrefs(localOrderOverride.value);
        if |overrideHrefs| == |saved.value| && forall i :: 0 <= i < |saved.value| ==> overrideHrefs[i] == saved.value[i] {
          localOrderOverride := None;
        }
      }
    }
  }

  /** Once the settings hold the order a drag saved, dropping the override leaves the sidebar as the drag left it. */
  lemma SyncKeepsDraggedOrder(items: seq<MenuItem>, newOrder: seq<MenuItem>)
    requires DistinctHrefs(items) && items != []
    requires multiset(newOrder) == multiset(items)
    ensures ContextOrdered(items, Some(Hrefs(newOrder))) == newOrder
  {
    assert |newOrder| == |items| by {
      assert |multiset(newOrder)| == |multiset(items)|;
    }
    var saved := Hrefs(newOrder);
    forall k | 0 <= k < |saved| ensures FindItem(items, saved[k]) == Some(newOrder[k]) {
      assert newOrder[k] in multiset(items);
      FindItemFinds(items, newOrder[k]);
    }
    ReorderedIsLookup(items, saved, newOrder);
    forall x | x in items ensures x.href in saved {
      assert x in multiset(newOrder);
      var i :| 0 <= i < |newOrder| && newOrder[i] == x;
      assert saved[i] == x.href;
    }
    WithoutHrefsAllGone(items, saved);
    assert newOrder + [] == newOrder;
  }

  /** With distinct hrefs, looking a page up by its href finds that page. */
  lemma FindItemFinds(items: seq<MenuItem>, x: MenuItem)
    requires DistinctHrefs(items) && x in items
    ensures FindItem(items, x.href) == Some(x)
  {
    var f := FindItem(items, x.href);
    var i :| 0 <= i < |items| && items[i] == x;
    var j :| 0 <= j < |items| && items[j] == f.value;
    assert items[i].href == items[j].href;
  }

  lemma {:induction false} ReorderedIsLookup(items: seq<MenuItem>, saved: seq<string>, found: seq<MenuItem>)
    requires |found| == |saved|
    requires forall k :: 0 <= k < |saved| ==> FindItem(items, saved[k]) == Some(found[k])
    ensures Reordered(items, saved) == found
    decreases |saved|
  {
    if saved != [] {
      ReorderedIsLookup(items, saved[1..], found[1..]);
      assert found == [found[0]] + found[1..];
    }
  }

  lemma {:induction false} WithoutHrefsAllGone(l: seq<MenuItem>, hrefs: seq<string>)
    requires forall x :: x in l ==> x.href in hrefs
    ensures WithoutHrefs(l, hrefs) == []
    decreases |l|
  {
    if l != [] {
      assert l[0] in l;
      WithoutHrefsAllGone(l[1..], hrefs);
    }
  }

  /** The first four characters of each catalogue href, in catalogue order. */
  const Heads: seq<string> := ["/das", "/pro", "/adi", "/cat", "/ped", "/coz", "/ent", "/est", "/cup",
                               "/fid", "/cai", "/con", "/flu", "/fun", "/rel", "/his", "/ass"]

  lemma CatalogueHeads()
    ensures |Heads| == |MenuItems|
    ensures forall i :: 0 <= i < |MenuItems| ==> |MenuItems[i].href| >= 4 && MenuItems[i].href[..4] == Heads[i]
  {
  }

  lemma HeadsDistinct()
    ensures forall i, j :: 0 <= i < j < |Heads| ==> Heads[i] != Heads[j]
  {
  }

  /** The catalogue's hrefs are distinct: they already differ in their first four characters. */
  lemma MenuItemsDistinct()
    ensures DistinctHrefs(MenuItems)
  {
    CatalogueHeads();
    HeadsDistinct();
  }
}
