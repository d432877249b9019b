/**
 * The stock page: a stock movement on one ingredient, the low-stock alert,
 * the total value in stock and the search over ingredients.
 */
module Stock {
  import opened Wrappers
  import opened Strings

  datatype Ingredient = Ingredient(
    id: string,
    name: string,
    unit: string,
    currentStock: real,
    minStock: real,
    costPerUnit: real)

  datatype MovementType = Purchase | Usage | Adjustment | Waste

  /** The `stock_movements` row a movement inserts. */
  datatype MovementRow = MovementRow(
    ingredientId: string,
    userId: string,
    quantity: real,
    movementType: MovementType,
    notes: Option<string>)

  /** How a movement ends: which writes were attempted, and what they wrote. */
  datatype StockOutcome =
    | Ignored
    | MovementFailed(movement: MovementRow)
    | UpdateFailed(movement: MovementRow)
    | Updated(movement: MovementRow, ingredientId: string, newStock: real)

  function Abs(x: real): (r: real)
    ensures r >= 0.0 && (r == x || r == -x)
  {
    if x < 0.0 then -x else x
  }

  /** The quantity recorded: a waste is always a removal, any other type is taken as entered. */
  function SignedQuantity(t: MovementType, q: real): (r: real)
    ensures t == Waste ==> r <= 0.0 && Abs(r) == Abs(q)
    ensures t != Waste ==> r == q
  {
    if t == Waste then -Abs(q) else q
  }

  /** `Math.max(0, current + q)`. */
  function ClampedStock(current: real, q: real): (r: real)
    ensures r >= 0.0 && r >= current + q
    ensures r == current + q || r == 0.0
  {
    if current + q > 0.0 then current + q else 0.0
  }

  /**
   * `handleStockMovement`: nothing without a user, a selected ingredient and
   * a non-empty quantity; otherwise the movement row is inserted and then
   * the ingredient's stock is set. `parsed` is `parseFloat` of the quantity
   * text; `movementOk` and `updateOk` say whether each write succeeds.
   */
  function HandleStockMovement(
    userId: Option<string>, selected: Option<Ingredient>, rawQuantity: string, parsed: real,
    t: MovementType, notes: string, movementOk: bool, updateOk: bool): (o: StockOutcome)
    ensures o.Ignored? <==> userId.None? || selected.None? || rawQuantity == []
    ensures o.Updated? ==> movementOk && updateOk && o.newStock >= 0.0 && o.ingredientId == selected.value.id
    ensures o.Updated? && t == Waste ==> o.movement.quantity <= 0.0 && (o.newStock <= selected.value.currentStock || o.newStock == 0.0)
  {
    if userId.None? || selected.None? || rawQuantity == [] then Ignored
    else
      var ingredient := selected.value;
      var q := SignedQuantity(t, parsed);
      var row := MovementRow(ingredient.id, userId.value, q, t, if notes == [] then None else Some(notes));
      if !movementOk then MovementFailed(row)
      else if !updateOk then UpdateFailed(row)
      else Updated(row, ingredient.id, ClampedStock(ingredient.currentStock, q))
  }

  /** A movement writes nothing exactly when the user, the ingredient or the quantity is missing. */
  lemma MovementGuards(
    userId: Option<string>, selected: Option<Ingredient>, rawQuantity: string, parsed: real,
    t: MovementType, notes: string, movementOk: bool, updateOk: bool)
    ensures HandleStockMovement(userId, selected, rawQuantity, parsed, t, notes, movementOk, updateOk).Ignored?
      <==> userId.None? || selected.None? || rawQuantity == []
    ensures var o := HandleStockMovement(userId, selected, rawQuantity, parsed, t, notes, movementOk, updateOk);
      o.Updated? || o.UpdateFailed? ==> movementOk
  {
  }

  /**
   * A completed movement records the signed quantity for the selected
   * ingredient and sets its stock to the old stock plus that quantity, or to
   * zero when that would be negative.
   */
  lemma MovementEffect(
    userId: Option<string>, ingredient: Ingredient, rawQuantity: string, parsed: real,
    t: MovementType, notes: string)
    requires userId.Some? && rawQuantity != []
    ensures var o := HandleStockMovement(userId, Some(ingredient), rawQuantity, parsed, t, notes, true, true);
      o.Updated? && o.ingredientId == ingredient.id && o.movement.ingredientId == ingredient.id
      && o.movement.quantity == SignedQuantity(t, parsed)
      && o.newStock >= 0.0
      && o.newStock == (if ingredient.currentStock + o.movement.quantity < 0.0 then 0.0
                        else ingredient.currentStock + o.movement.quantity)
  {
  }

  /** A waste never raises the stock, whatever sign its quantity was typed with. */
  lemma WasteNeverRaises(current: real, q: real)
    requires current >= 0.0
    ensures ClampedStock(current, SignedQuantity(Waste, q)) <= current
    ensures SignedQuantity(Waste, q) == SignedQuantity(Waste, -q)
  {
  }

  // ---------------------------------------------------------------------------
  // Low stock, stock value, search
  // ---------------------------------------------------------------------------

  /** At or under its minimum, for an ingredient that has a minimum. */
  predicate IsLow(i: Ingredient)
  {
    i.currentStock <= i.minStock && i.minStock > 0.0
  }

  /** `getLowStockIngredients`. */
  function LowStockIngredients(s: seq<Ingredient>): (r: seq<Ingredient>)
    ensures forall x :: x in r <==> x in s && IsLow(x)
    ensures |r| <= |s|
  {
    if s == [] then []
    else (if IsLow(s[0]) then [s[0]] else []) + LowStockIngredients(s[1..])
  }
  /** Filtering works piece by piece: the low ingredients keep their order. */
  lemma {:induction false} LowStockConcat(a: seq<Ingredient>, b: seq<Ingredient>)
    ensures LowStockIngredients(a + b) == LowStockIngredients(a) + LowStockIngredients(b)
    decreases |a|
  {
    if a == [] {
      assert a + b == b;
    } else {
      assert (a + b)[0] == a[0];
      assert (a + b)[1..] == a[1..] + b;
      LowStockConcat(a[1..], b);
    }
  }


  /** A movement that empties the stock of an ingredient with a minimum raises the alert. */
  lemma EmptiedIsLow(i: Ingredient, current: real, q: real)
    requires i.minStock > 0.0 && ClampedStock(current, q) == 0.0
    ensures IsLow(i.(currentStock := ClampedStock(current, q)))
  {
  }

  /** `getTotalStockValue`: stock times unit cost, summed left to right. */
  function TotalStockValue(s: seq<Ingredient>): real
  {
    if s == [] then 0.0
    else TotalStockValue(s[..|s| - 1]) + s[|s| - 1].currentStock * s[|s| - 1].costPerUnit
  }

  lemma {:induction false} TotalStockValueConcat(a: seq<Ingredient>, b: seq<Ingredient>)
    ensures TotalStockValue(a + b) == TotalStockValue(a) + TotalStockValue(b)
    decreases |b|
  {
    if b == [] {
      assert a + b == a;
    } else {
      var init := b[..|b| - 1];
      assert (a + b)[..|a + b| - 1] == a + init;
      TotalStockValueConcat(a, init);
    }
  }

  /** Changing one ingredient's stock changes the total by the change times its unit cost. */
  lemma StockValueAfterUpdate(s: seq<Ingredient>, k: int, newStock: real)
    requires 0 <= k < |s|
    ensures TotalStockValue(s[k := s[k].(currentStock := newStock)])
      == TotalStockValue(s) + (newStock - s[k].currentStock) * s[k].costPerUnit
  {
    var t := s[k := s[k].(currentStock := newStock)];
    assert s == s[..k] + [s[k]] + s[k + 1..];
    assert t == s[..k] + [t[k]] + s[k + 1..];
    TotalStockValueConcat(s[..k] + [s[k]], s[k + 1..]);
    TotalStockValueConcat(s[..k], [s[k]]);
    TotalStockValueConcat(s[..k] + [t[k]], s[k + 1..]);
    TotalStockValueConcat(s[..k], [t[k]]);
    assert TotalStockValue([t[k]]) == newStock * s[k].costPerUnit;
    assert TotalStockValue([s[k]]) == s[k].currentStock * s[k].costPerUnit;
  }

  /** With no negative stock or cost, the total value is not negative. */
  lemma {:induction false} TotalStockValueNonNegative(s: seq<Ingredient>)
    requires forall i :: 0 <= i < |s| ==> s[i].currentStock >= 0.0 && s[i].costPerUnit >= 0.0
    ensures TotalStockValue(s) >= 0.0
    decreases |s|
  {
    if s != [] {
      var init := s[..|s| - 1];
      assert forall i :: 0 <= i < |init| ==> init[i] == s[i];
      TotalStockValueNonNegative(init);
      var last := s[|s| - 1];
      assert last.currentStock * last.costPerUnit >= 0.0;
    }
  }

  /** Ingredient names that contain the search text, ignoring case. */
  predicate NameMatches(i: Ingredient, search: string)
  {
    Contains(ToLower(i.name), ToLower(search))
  }

  /** `filteredIngredients`. */
  function FilteredIngredients(s: seq<Ingredient>, search: string): (r: seq<Ingredient>)
    ensures forall x :: x in r <==> x in s && NameMatches(x, search)
    ensures |r| <= |s|
  {
    if s == [] then []
    else (if NameMatches(s[0], search) then [s[0]] else []) + FilteredIngredients(s[1..], search)
  }
  /** Filtering works piece by piece: the matching ingredients keep their order. */
  lemma {:induction false} FilteredIngredientsConcat(a: seq<Ingredient>, b: seq<Ingredient>, search: string)
    ensures FilteredIngredients(a + b, search) == FilteredIngredients(a, search) + FilteredIngredients(b, search)
    decreases |a|
  {
    if a == [] {
      assert a + b == b;
    } else {
      assert (a + b)[0] == a[0];
      assert (a + b)[1..] == a[1..] + b;
      FilteredIngredientsConcat(a[1..], b, search);
    }
  }


  /** An empty search shows every ingredient. */
  lemma {:induction false} EmptySearchKeepsAll(s: seq<Ingredient>)
    ensures FilteredIngredients(s, []) == s
    decreases |s|
  {
    if s != [] {
      assert OccursAt(ToLower(s[0].name), ToLower([]), 0);
      EmptySearchKeepsAll(s[1..]);
      assert s == [s[0]] + s[1..];
    }
  }
}
