/**
 * Keyboard shortcuts: a list of registered shortcuts, a lookup table keyed
 * by the normalised key combination and rebuilt whenever the list changes,
 * and the key-down handler that fires the matching shortcut.
 *
 * A shortcut's action is named by `Action` rather than held as a closure:
 * toggling and closing the help panel act on the provider's own state, and
 * every fired action is appended to `performed`.
 */
module Shortcuts {
  import opened Wrappers
  import opened Strings

  datatype Action = Navigate(path: string) | ToggleHelp | CloseHelp | PageAction(id: nat)

  datatype Scope = Global | PageScope

  /** A shortcut; an absent modifier flag is `None`, which is not the same as `Some(false)`. */
  datatype Shortcut = Shortcut(key: string, ctrl: Option<bool>, alt: Option<bool>, shift: Option<bool>,
                               description: string, action: Action, scope: Option<Scope>)

  /** A key combination compared the way `registerShortcut` compares it, flags as given. */
  datatype Combo = Combo(key: string, ctrl: Option<bool>, alt: Option<bool>, shift: Option<bool>)

  function ComboOf(s: Shortcut): Combo
  {
    Combo(s.key, s.ctrl, s.alt, s.shift)
  }

  /** The shortcuts the provider installs on mount. */
  const BaseShortcuts: seq<Shortcut> := [
    Shortcut("h", None, Some(true), None, "Ir para Dashboard", Navigate("/dashboard"), Some(Global)),
    Shortcut("p", None, Some(true), None, "Ir para Pedidos", Navigate("/pedidos"), Some(Global)),
    Shortcut("c", None, Some(true), None, "Ir para Cozinha", Navigate("/cozinha"), Some(Global)),
    Shortcut("e", None, Some(true), None, "Ir para Estoque", Navigate("/estoque"), Some(Global)),
    Shortcut("r", None, Some(true), None, "Ir para Relatórios", Navigate("/relatorios"), Some(Global)),
    Shortcut("n", None, Some(true), None, "Novo Pedido", Navigate("/pedidos/novo"), Some(Global)),
    Shortcut("/", Some(true), None, None, "Mostrar Atalhos", ToggleHelp, Some(Global)),
    Shortcut("Escape", None, None, None, "Fechar Modal/Menu", CloseHelp, Some(Global))
  ]

  // ------------------------------------------------------------ the list

  /** `prev.filter(...)`: every shortcut whose combination is not `c`, in order. */
  function Without(l: seq<Shortcut>, c: Combo): (r: seq<Shortcut>)
    ensures |r| <= |l|
    ensures forall x :: x in r <==> x in l && ComboOf(x) != c
  {
    if l == [] then []
    else (if ComboOf(l[0]) == c then [] else [l[0]]) + Without(l[1..], c)
  }

  /** The list after `registerShortcut(s)`. */
  function Registered(l: seq<Shortcut>, s: Shortcut): seq<Shortcut>
  {
    Without(l, ComboOf(s)) + [s]
  }

  /** No two entries share a combination, flags compared as given. */
  predicate DistinctCombos(l: seq<Shortcut>)
  {
    forall i, j :: 0 <= i < j < |l| ==> ComboOf(l[i]) != ComboOf(l[j])
  }

  /** Filtering keeps the relative order: it distributes over concatenation. */
  lemma {:induction false} WithoutConcat(a: seq<Shortcut>, b: seq<Shortcut>, c: Combo)
    ensures Without(a + b, c) == Without(a, c) + Without(b, c)
    decreases |a|
  {
    if a == [] {
      assert a + b == b;
    } else {
      assert (a + b)[0] == a[0];
      assert (a + b)[1..] == a[1..] + b;
      WithoutConcat(a[1..], b, c);
    }
  }

  /** Removing a combination nobody has changes nothing; removing it twice is removing it once. */
  lemma {:induction false} WithoutAbsent(l: seq<Shortcut>, c: Combo)
    requires forall k :: 0 <= k < |l| ==> ComboOf(l[k]) != c
    ensures Without(l, c) == l
    decreases |l|
  {
    if l != [] {
      WithoutAbsent(l[1..], c);
    }
  }

  lemma WithoutIdempotent(l: seq<Shortcut>, c: Combo)
    ensures Without(Without(l, c), c) == Without(l, c)
  {
    var r := Without(l, c);
    forall k | 0 <= k < |r| ensures ComboOf(r[k]) != c {
      assert r[k] in r;
    }
    WithoutAbsent(r, c);
  }

  /** Filtering a list of distinct combinations keeps them distinct. */
  lemma {:induction false} WithoutDistinct(l: seq<Shortcut>, c: Combo)
    requires DistinctCombos(l)
    ensures DistinctCombos(Without(l, c))
    decreases |l|
  {
    if l != [] {
      WithoutDistinct(l[1..], c);
      var rest := Without(l[1..], c);
      var head := if ComboOf(l[0]) == c then [] else [l[0]];
      forall k | 0 <= k < |rest| ensures ComboOf(l[0]) != ComboOf(rest[k]) {
        assert rest[k] in rest;
        var j :| 0 <= j < |l[1..]| && l[1..][j] == rest[k];
        assert l[j + 1] == rest[k];
      }
      assert Without(l, c) == head + rest;
    }
  }

  /**
   * `registerShortcut`: the new shortcut ends up last, every other entry with
   * its exact combination is gone, and everything else keeps its order.
   */
  lemma RegisteredShape(l: seq<Shortcut>, s: Shortcut)
    ensures var r := Registered(l, s); |r| >= 1 && r[|r| - 1] == s
    ensures forall x :: x in Registered(l, s) <==> x == s || (x in l && ComboOf(x) != ComboOf(s))
    ensures forall k :: 0 <= k < |Registered(l, s)| - 1 ==> ComboOf(Registered(l, s)[k]) != ComboOf(s)
    ensures DistinctCombos(l) ==> DistinctCombos(Registered(l, s))
  {
    var w := Without(l, ComboOf(s));
    forall k | 0 <= k < |w| ensures ComboOf(Registered(l, s)[k]) != ComboOf(s) {
      assert Registered(l, s)[k] == w[k];
      assert w[k] in w;
    }
    if DistinctCombos(l) {
      WithoutDistinct(l, ComboOf(s));
    }
  }

  /** Registering the same shortcut twice leaves the list as registering it once. */
  lemma RegisterIdempotent(l: seq<Shortcut>, s: Shortcut)
    ensures Registered(Registered(l, s), s) == Registered(l, s)
  {
    var w := Without(l, ComboOf(s));
    WithoutConcat(w, [s], ComboOf(s));
    WithoutIdempotent(l, ComboOf(s));
    assert Without([s], ComboOf(s)) == [];
  }

  /** A page shortcut's clean-up undoes its registration: every entry with that combination is gone. */
  lemma RegisterThenUnregister(l: seq<Shortcut>, s: Shortcut)
    ensures Without(Registered(l, s), ComboOf(s)) == Without(l, ComboOf(s))
  {
    var w := Without(l, ComboOf(s));
    WithoutConcat(w, [s], ComboOf(s));
    WithoutIdempotent(l, ComboOf(s));
    assert Without([s], ComboOf(s)) == [];
  }

  // --------------------------------------------------------- the lookup

  function BoolText(b: bool): string
  {
    if b then "true" else "false"
  }

  /** `!!flag`: an absent flag is off. */
  function Flag(f: Option<bool>): bool
  {
    f.Some? && f.value
  }

  /** The composite key `key-ctrl-alt-shift`, with the key lowercased. */
  function CompositeKey(key: string, ctrl: bool, alt: bool, shift: bool): string
  {
    ToLower(key) + "-" + BoolText(ctrl) + "-" + BoolText(alt) + "-" + BoolText(shift)
  }

  function ShortcutKey(s: Shortcut): string
  {
    CompositeKey(s.key, Flag(s.ctrl), Flag(s.alt), Flag(s.shift))
  }

  /** `shortcutMap`: the list's entries set one after another, so a later entry overwrites an earlier one. */
  function ShortcutMapOf(l: seq<Shortcut>): map<string, Shortcut>
    decreases |l|
  {
    if l == [] then map[]
    else ShortcutMapOf(l[..|l| - 1])[ShortcutKey(l[|l| - 1]) := l[|l| - 1]]
  }

  /** Every registered combination is in the map, and each entry is a registered shortcut under its own combination. */
  lemma {:induction false} ShortcutMapMembers(l: seq<Shortcut>)
    ensures forall s :: s in l ==> ShortcutKey(s) in ShortcutMapOf(l)
    ensures forall k :: k in ShortcutMapOf(l) ==> ShortcutMapOf(l)[k] in l && ShortcutKey(ShortcutMapOf(l)[k]) == k
    decreases |l|
  {
    if l != [] {
      var init := l[..|l| - 1];
      ShortcutMapMembers(init);
      assert l == init + [l[|l| - 1]];
    }
  }

  /** The last of the first `n` entries of `l` whose composite key is `k`. */
  function LastWithKey(l: seq<Shortcut>, k: string, n: nat): (r: Option<nat>)
    requires n <= |l|
    ensures r.Some? ==> r.value < n && ShortcutKey(l[r.value]) == k
    ensures r.Some? ==> forall j :: r.value < j < n ==> ShortcutKey(l[j]) != k
    ensures r.None? ==> forall j :: 0 <= j < n ==> ShortcutKey(l[j]) != k
  {
    if n == 0 then None
    else if ShortcutKey(l[n - 1]) == k then Some(n - 1)
    else LastWithKey(l, k, n - 1)
  }

  /** The table built from the first `n` entries holds a key exactly when one of them has it, and then holds the last such entry. */
  lemma {:induction false} MapHoldsLast(l: seq<Shortcut>, k: string, n: nat)
    requires n <= |l|
    ensures k in ShortcutMapOf(l[..n]) <==> LastWithKey(l, k, n).Some?
    ensures k in ShortcutMapOf(l[..n]) ==> ShortcutMapOf(l[..n])[k] == l[LastWithKey(l, k, n).value]
  {
    if n != 0 {
      assert l[..n][..n - 1] == l[..n - 1];
      MapHoldsLast(l, k, n - 1);
    }
  }

  /** Appending `x` and `-true`/`-false` can be undone: the last flag and the rest are recovered. */
  lemma PeelFlag(x: string, b: bool, y: string, c: bool)
    requires x + "-" + BoolText(b) == y + "-" + BoolText(c)
    ensures x == y && b == c
  {
    var s := x + "-" + BoolText(b);
    if b == c {
      assert x == s[..|x|];
      assert y == (y + "-" + BoolText(c))[..|y|];
    } else if b {
      TrueFalseDiffer(x, y);
    } else {
      TrueFalseDiffer(y, x);
    }
  }

  lemma TrueFalseDiffer(x: string, y: string)
    ensures x + "-" + "true" != y + "-" + "false"
  {
    if |x| == |y| + 1 {
      assert (x + "-" + "true")[|x|] == '-';
      assert (y + "-" + "false")[|x|] == 'f';
    }
  }

  /**
   * Two combinations get the same composite key exactly when their keys
   * agree once lowercased and their normalised flags agree: the key's own
   * dashes cannot make two combinations collide.
   */
  lemma CompositeKeyInjective(k1: string, c1: bool, a1: bool, s1: bool, k2: string, c2: bool, a2: bool, s2: bool)
    ensures CompositeKey(k1, c1, a1, s1) == CompositeKey(k2, c2, a2, s2) <==>
      ToLower(k1) == ToLower(k2) && c1 == c2 && a1 == a2 && s1 == s2
  {
    if CompositeKey(k1, c1, a1, s1) == CompositeKey(k2, c2, a2, s2) {
      PeelFlag(ToLower(k1) + "-" + BoolText(c1) + "-" + BoolText(a1), s1,
               ToLower(k2) + "-" + BoolText(c2) + "-" + BoolText(a2), s2);
      PeelFlag(ToLower(k1) + "-" + BoolText(c1), a1, ToLower(k2) + "-" + BoolText(c2), a2);
      PeelFlag(ToLower(k1), c1, ToLower(k2), c2);
    }
  }

  /** `shortcutMap`'s `forEach` loop. */
  method BuildShortcutMap(shortcuts: seq<Shortcut>) returns (m: map<string, Shortcut>)
    ensures m == ShortcutMapOf(shortcuts)
  {
    m := map[];
    for i := 0 to |shortcuts|
      invariant m == ShortcutMapOf(shortcuts[..i])
    {
      assert shortcuts[..i + 1][..i] == shortcuts[..i];
      m := m[ShortcutKey(shortcuts[i]) := shortcuts[i]];
    }
    assert shortcuts[..|shortcuts|] == shortcuts;
  }

  // ------------------------------------------------------------ key down

  /** The parts of a `KeyboardEvent` the handler reads. */
  datatype KeyEvent = KeyEvent(key: string, ctrlKey: bool, metaKey: bool, altKey: bool, shiftKey: bool,
                               tagName: string, isContentEditable: bool)

  /** The focus is in a text field. */
  predicate Typing(e: KeyEvent)
  {
    e.tagName == "INPUT" || e.tagName == "TEXTAREA" || e.isContentEditable
  }

  /** The event's composite key; Cmd counts as Ctrl. */
  function EventKey(e: KeyEvent): string
  {
    CompositeKey(e.key, e.ctrlKey || e.metaKey, e.altKey, e.shiftKey)
  }

  /** The shortcut `handleKeyDown` fires, if any. */
  function Dispatch(m: map<string, Shortcut>, e: KeyEvent): (r: Option<Shortcut>)
    ensures Typing(e) && e.key != "Escape" ==> r.None?
    ensures r.Some? ==> r.value in m.Values
    ensures !Typing(e) && EventKey(e) in m ==> r.Some?
  {
    if Typing(e) && e.key != "Escape" then None
    else if EventKey(e) in m then Some(m[EventKey(e)])
    else None
  }

  /**
   * What fires for an event: while typing only Escape gets through, and
   * otherwise the last registered shortcut whose key matches ignoring case
   * and whose flags match the event's, Cmd standing in for Ctrl.
   */
  lemma DispatchFiresLastMatch(l: seq<Shortcut>, e: KeyEvent)
    ensures Typing(e) && e.key != "Escape" ==> Dispatch(ShortcutMapOf(l), e).None?
    ensures Dispatch(ShortcutMapOf(l), e).Some? ==>
      var s := Dispatch(ShortcutMapOf(l), e).value;
      s in l && ToLower(s.key) == ToLower(e.key) && Flag(s.ctrl) == (e.ctrlKey || e.metaKey)
      && Flag(s.alt) == e.altKey && Flag(s.shift) == e.shiftKey
    ensures !(Typing(e) && e.key != "Escape") ==>
      (Dispatch(ShortcutMapOf(l), e).Some? <==> LastWithKey(l, EventKey(e), |l|).Some?)
  {
    assert l[..|l|] == l;
    MapHoldsLast(l, EventKey(e), |l|);
    var r := LastWithKey(l, EventKey(e), |l|);
    if r.Some? {
      var s := l[r.value];
      CompositeKeyInjective(s.key, Flag(s.ctrl), Flag(s.alt), Flag(s.shift), e.key, e.ctrlKey || e.metaKey, e.altKey, e.shiftKey);
    }
  }

  /** The strict comparison when registering and the normalised one when looking up disagree: both entries stay listed and only the later one can fire. */
  lemma DuplicatesSurvive(a: Action, b: Action)
    ensures var s1 := Shortcut("k", None, None, None, "", a, Some(PageScope));
      var s2 := Shortcut("K", Some(false), None, None, "", b, Some(PageScope));
      var l := Registered(Registered([], s1), s2);
      l == [s1, s2] && ShortcutKey(s1) == ShortcutKey(s2) && ShortcutMapOf(l)[ShortcutKey(s1)] == s2
  {
    var s1 := Shortcut("k", None, None, None, "", a, Some(PageScope));
    var s2 := Shortcut("K", Some(false), None, None, "", b, Some(PageScope));
    RegisterDistinctPair(s1, s2);
    LowerK();
    assert ShortcutKey(s1) == ShortcutKey(s2);
    MapOfPair(s1, s2);
  }

  /** Registering a second combination after a first keeps both, in order. */
  lemma RegisterDistinctPair(s1: Shortcut, s2: Shortcut)
    requires ComboOf(s1) != ComboOf(s2)
    ensures Registered(Registered([], s1), s2) == [s1, s2]
  {
    assert Registered([], s1) == [s1];
    assert Without([s1], ComboOf(s2)) == [s1];
  }

  lemma LowerK()
    ensures ToLower("K") == "k"
  {
    assert ToLower("K")[0] == ToLowerChar('K');
  }

  /** Of two entries with the same composite key, the table keeps the later. */
  lemma MapOfPair(s1: Shortcut, s2: Shortcut)
    ensures ShortcutMapOf([s1, s2])[ShortcutKey(s2)] == s2
  {
    assert [s1, s2][..1] == [s1];
  }

  // ------------------------------------------------------- the provider

  class Provider {
    var shortcuts: seq<Shortcut>
    var shortcutMap: map<string, Shortcut>
    var showHelp: bool
    var performed: seq<Action>

    /** The lookup table always reflects the list. */
    ghost predicate Valid()
      reads this
    {
      shortcutMap == ShortcutMapOf(shortcuts)
    }

    constructor()
      ensures Valid() && shortcuts == [] && !showHelp && performed == []
    {
      shortcuts := [];
      shortcutMap := map[];
      showHelp := false;
      performed := [];
    }

    /** The mount effect: the global shortcuts replace the list. */
    method InstallBase()
      modifies this
      ensures Valid() && shortcuts == BaseShortcuts
      ensures showHelp == old(showHelp) && performed == old(performed)
    {
      shortcuts := BaseShortcuts;
      shortcutMap := BuildShortcutMap(shortcuts);
    }

    /** `registerShortcut`. */
    method RegisterShortcut(s: Shortcut)
      modifies this
      ensures Valid() && shortcuts == Registered(old(shortcuts), s)
      ensures showHelp == old(showHelp) && performed == old(performed)
    {
      var filtered := Without(shortcuts, ComboOf(s));
      shortcuts := filtered + [s];
      shortcutMap := BuildShortcutMap(shortcuts);
    }

    /** `unregisterShortcut`. */
    method UnregisterShortcut(key: string, ctrl: Option<bool>, alt: Option<bool>, shift: Option<bool>)
      modifies this
      ensures Valid() && shortcuts == Without(old(shortcuts), Combo(key, ctrl, alt, shift))
      ensures showHelp == old(showHelp) && performed == old(performed)
    {
      shortcuts := Without(shortcuts, Combo(key, ctrl, alt, shift));
      shortcutMap := BuildShortcutMap(shortcuts);
    }

    /** `handleKeyDown`: looks the event up and runs the action; `prevented` is `preventDefault()`. */
    method HandleKeyDown(e: KeyEvent) returns (prevented: bool)
      requires Valid()
      modifies this
      ensures Valid() && shortcuts == old(shortcuts)
      ensures prevented <==> Dispatch(ShortcutMapOf(shortcuts), e).Some?
      ensures !prevented ==> showHelp == old(showHelp) && performed == old(performed)
      ensures prevented ==>
        var a := Dispatch(ShortcutMapOf(shortcuts), e).value.action;
        performed == old(performed) + [a]
        && showHelp == (if a == ToggleHelp then !old(showHelp) else if a == CloseHelp then false else old(showHelp))
    {
      if Typing(e) && e.key != "Escape" {
        return false;
      }
      var compositeKey := CompositeKey(e.key, e.ctrlKey || e.metaKey, e.altKey, e.shiftKey);
      if compositeKey !in shortcutMap {
        return false;
      }
      var matching := shortcutMap[compositeKey];
      prevented := true;
      performed := performed + [matching.action];
      if matching.action == ToggleHelp {
        showHelp := !showHelp;
      } else if matching.action == CloseHelp {
        showHelp := false;
      }
    }
  }
}
