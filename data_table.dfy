/**
 * The admin data table: a search box that filters the rows, a click on a
 * column header that sorts them, pages of `pageSize` rows, and check boxes
 * that select rows by their key field.
 *
 * A row is a map from field names to values; the values are the primitive
 * values a JSON row holds (null, booleans, whole numbers, strings) and
 * nested objects. `undefined` and `null` are one value here, `Missing`.
 */
module DataTable {
  import opened Wrappers
  import opened Strings
  import opened Sorting

  datatype Value = Missing | Bool(b: bool) | Num(n: int) | Text(s: string) | Obj(fields: map<string, Value>)

  type Row = map<string, Value>

  datatype Dir = Asc | Desc

  /** `row[key]`: a field that is not there reads as `Missing`. */
  function Field(row: Row, key: string): (v: Value)
    ensures key !in row ==> v == Missing
    ensures key in row ==> v == row[key]
  {
    if key in row then row[key] else Missing
  }

  /** `String(val)`. */
  function JsString(v: Value): string
  {
    match v
    case Missing => "null"
    case Bool(b) => if b then "true" else "false"
    case Num(n) => IntToString(n)
    case Text(s) => s
    case Obj(_) => "[object Object]"
  }

  // ------------------------------------------------------------------ search

  /** Some field of the row, written as a string and lowercased, contains `lowerSearch`. */
  predicate RowMatches(row: Row, lowerSearch: string)
  {
    exists k :: k in row && Contains(ToLower(JsString(row[k])), lowerSearch)
  }

  /** `data.filter(...)`: the rows that match, in their order. */
  function KeepMatching(data: seq<Row>, lowerSearch: string): (r: seq<Row>)
    ensures |r| <= |data|
  {
    if data == [] then []
    else (if RowMatches(data[0], lowerSearch) then [data[0]] else []) + KeepMatching(data[1..], lowerSearch)
  }

  /** The rows kept are exactly the rows of `data` that match. */
  lemma {:induction false} KeepMatchingMembers(data: seq<Row>, lowerSearch: string)
    ensures forall row :: row in KeepMatching(data, lowerSearch) <==> row in data && RowMatches(row, lowerSearch)
  {
    if data != [] {
      KeepMatchingMembers(data[1..], lowerSearch);
      assert data == [data[0]] + data[1..];
    }
  }

  /** `filteredData`: a blank search keeps every row; otherwise the search is lowercased but not trimmed. */
  function FilteredData(data: seq<Row>, search: string): (r: seq<Row>)
    ensures IsBlank(search) ==> r == data
    ensures |r| <= |data|
    ensures forall row :: row in r ==> row in data
  {
    KeepMatchingMembers(data, ToLower(search));
    if IsBlank(search) then data else KeepMatching(data, ToLower(search))
  }

  /** A blank search shows every row; any other keeps exactly the rows with a matching field. */
  lemma FilterMeaning(data: seq<Row>, search: string)
    ensures IsBlank(search) ==> FilteredData(data, search) == data
    ensures !IsBlank(search) ==> forall row :: row in FilteredData(data, search) <==>
      row in data && RowMatches(row, ToLower(search))
  {
    KeepMatchingMembers(data, ToLower(search));
  }

  /** Filtering keeps the order of the rows it keeps and never adds one. */
  lemma {:induction false} FilterIsSubsequence(data: seq<Row>, lowerSearch: string, extra: seq<Row>)
    ensures KeepMatching(data + extra, lowerSearch) == KeepMatching(data, lowerSearch) + KeepMatching(extra, lowerSearch)
    decreases |data|
  {
    if data == [] {
      assert data + extra == extra;
    } else {
      var head := if RowMatches(data[0], lowerSearch) then [data[0]] else [];
      assert (data + extra)[0] == data[0];
      assert (data + extra)[1..] == data[1..] + extra;
      FilterIsSubsequence(data[1..], lowerSearch, extra);
      var b, c := KeepMatching(data[1..], lowerSearch), KeepMatching(extra, lowerSearch);
      assert head + (b + c) == (head + b) + c;
    }
  }

  // ---------------------------------------------------------------- ordering

  /** Values of different kinds are ordered by kind, booleans first and objects last. */
  function Rank(v: Value): nat
  {
    match v
    case Missing => 4
    case Bool(_) => 0
    case Num(_) => 1
    case Text(_) => 2
    case Obj(_) => 3
  }

  /** The strict order on present values that the sort follows; two objects are tied. */
  predicate Precedes(a: Value, b: Value)
  {
    Rank(a) < Rank(b)
    || (a.Bool? && b.Bool? && !a.b && b.b)
    || (a.Num? && b.Num? && a.n < b.n)
    || (a.Text? && b.Text? && StrLt(a.s, b.s))
  }

  /** `Precedes` is irreflexive and its complement is transitive: a strict weak order. */
  lemma PrecedesWeakOrder(a: Value, b: Value, c: Value)
    ensures !Precedes(a, a)
    ensures !Precedes(b, a) && !Precedes(c, b) ==> !Precedes(c, a)
  {
    if a.Text? && b.Text? && c.Text? {
      StrLtIrreflexive(a.s);
      StrLtTrichotomy(a.s, b.s);
      StrLtTrichotomy(b.s, c.s);
      StrLtAsymmetric(a.s, c.s);
      if StrLt(a.s, b.s) && StrLt(b.s, c.s) {
        StrLtTransitive(a.s, b.s, c.s);
      }
    } else if a.Text? {
      StrLtIrreflexive(a.s);
    }
  }

  /** Either of two present values may be placed first unless the other precedes it. */
  lemma PrecedesAsymmetric(a: Value, b: Value)
    ensures !(Precedes(a, b) && Precedes(b, a))
  {
    if a.Text? && b.Text? {
      StrLtAsymmetric(a.s, b.s);
    }
  }

  /** "a may come before b" in an ascending sort: missing values last. */
  predicate AscLe(a: Value, b: Value)
  {
    b.Missing? || (!a.Missing? && !Precedes(b, a))
  }

  /** "a may come before b" in a descending sort: the order of present values reversed, missing values still last. */
  predicate DescLe(a: Value, b: Value)
  {
    b.Missing? || (!a.Missing? && !Precedes(a, b))
  }

  function ValueLe(dir: Dir): (Value, Value) -> bool
  {
    if dir == Asc then AscLe else DescLe
  }

  /** The order between two rows, by one field. */
  function RowLe(key: string, dir: Dir): (Row, Row) -> bool
  {
    (a: Row, b: Row) => ValueLe(dir)(Field(a, key), Field(b, key))
  }

  lemma ValueLeIsPreorder(dir: Dir)
    ensures TotalPreorder(ValueLe(dir))
  {
    forall a, b ensures ValueLe(dir)(a, b) || ValueLe(dir)(b, a) {
      PrecedesAsymmetric(a, b);
    }
    forall a, b, c | ValueLe(dir)(a, b) && ValueLe(dir)(b, c) ensures ValueLe(dir)(a, c) {
      if dir == Asc {
        PrecedesWeakOrder(a, b, c);
      } else {
        PrecedesWeakOrder(c, b, a);
      }
    }
  }

  lemma RowLeIsPreorder(key: string, dir: Dir)
    ensures TotalPreorder(RowLe(key, dir))
  {
    ValueLeIsPreorder(dir);
    forall a: Row, b: Row ensures RowLe(key, dir)(a, b) || RowLe(key, dir)(b, a) {
      assert ValueLe(dir)(Field(a, key), Field(b, key)) || ValueLe(dir)(Field(b, key), Field(a, key));
    }
    forall a: Row, b: Row, c: Row | RowLe(key, dir)(a, b) && RowLe(key, dir)(b, c) ensures RowLe(key, dir)(a, c) {
      assert ValueLe(dir)(Field(a, key), Field(b, key)) && ValueLe(dir)(Field(b, key), Field(c, key));
    }
  }

  /** JavaScript's `aVal < bVal` where it is a consistent order: two values of the same primitive kind. */
  predicate JsLess(a: Value, b: Value)
  {
    (a.Bool? && b.Bool? && !a.b && b.b)
    || (a.Num? && b.Num? && a.n < b.n)
    || (a.Text? && b.Text? && StrLt(a.s, b.s))
  }

  /** The comparator handed to `sort`. */
  function JsCompare(a: Value, b: Value, dir: Dir): int
  {
    if a == b then 0
    else if a.Missing? then 1
    else if b.Missing? then -1
    else
      var comparison := if JsLess(a, b) then -1 else 1;
      if dir == Asc then comparison else -comparison
  }

  /** Values the comparator orders consistently: either is missing, or both are of one primitive kind. */
  predicate Comparable(a: Value, b: Value)
  {
    a.Missing? || b.Missing? || (a.Bool? && b.Bool?) || (a.Num? && b.Num?) || (a.Text? && b.Text?)
  }

  /** On such values the sort's order is exactly "the comparator does not put b first". */
  lemma ComparatorAgrees(a: Value, b: Value, dir: Dir)
    requires Comparable(a, b)
    ensures ValueLe(dir)(a, b) <==> JsCompare(a, b, dir) <= 0
  {
    PrecedesWeakOrder(a, a, a);
    if a.Text? && b.Text? {
      StrLtTrichotomy(a.s, b.s);
      PrecedesAsymmetric(a, b);
    }
  }

  /** `sortedData`: no sort key keeps the filtered order; otherwise a stable sort of a copy by that field. */
  function SortedData(filtered: seq<Row>, sortKey: Option<string>, dir: Dir): (r: seq<Row>)
    ensures |r| == |filtered| && multiset(r) == multiset(filtered)
    ensures sortKey.Some? && sortKey.value != [] ==> Sorted(r, RowLe(sortKey.value, dir))
  {
    if sortKey.None? || sortKey.value == [] then filtered
    else
      RowLeIsPreorder(sortKey.value, dir);
      SortBy(filtered, RowLe(sortKey.value, dir))
  }

  /** Rows missing the sort field come after every row that has it, in both directions. */
  lemma MissingLast(filtered: seq<Row>, key: string, dir: Dir, i: int, j: int)
    requires key != []
    requires 0 <= i < j < |filtered|
    requires Field(SortedData(filtered, Some(key), dir)[i], key).Missing?
    ensures Field(SortedData(filtered, Some(key), dir)[j], key).Missing?
  {
    var r := SortedData(filtered, Some(key), dir);
    assert RowLe(key, dir)(r[i], r[j]);
    assert ValueLe(dir)(Field(r[i], key), Field(r[j], key));
  }

  /** No two rows with comparable fields are in an order the `sortedData` comparator would swap. */
  lemma SortedAgreesWithComparator(filtered: seq<Row>, key: string, dir: Dir, i: int, j: int)
    requires key != []
    requires 0 <= i < j < |filtered|
    requires Comparable(Field(SortedData(filtered, Some(key), dir)[i], key), Field(SortedData(filtered, Some(key), dir)[j], key))
    ensures JsCompare(Field(SortedData(filtered, Some(key), dir)[i], key), Field(SortedData(filtered, Some(key), dir)[j], key), dir) <= 0
  {
    var r := SortedData(filtered, Some(key), dir);
    assert RowLe(key, dir)(r[i], r[j]);
    ComparatorAgrees(Field(r[i], key), Field(r[j], key), dir);
  }

  // -------------------------------------------------------------- pagination

  /** `Math.ceil(n / pageSize)`. */
  function TotalPages(n: nat, pageSize: nat): (pages: nat)
    requires pageSize >= 1
    ensures pages == 0 <==> n == 0
    ensures n > 0 ==> (pages - 1) * pageSize < n <= pages * pageSize
  {
    CeilDivision(n, pageSize);
    (n + pageSize - 1) / pageSize
  }

  lemma CeilDivision(n: nat, d: nat)
    requires d >= 1
    ensures var q := (n + d - 1) / d; (q == 0 <==> n == 0) && (n > 0 ==> (q - 1) * d < n <= q * d)
  {
    var q := (n + d - 1) / d;
    var r := (n + d - 1) % d;
    assert n + d - 1 == q * d + r && 0 <= r < d;
    assert (q - 1) * d == q * d - d;
  }

  /** Multiplying by a non-negative number keeps the order. */
  lemma MulMono(a: int, b: int, c: int)
    requires c >= 0
    ensures a <= b ==> a * c <= b * c
  {
    if a <= b {
      assert b * c - a * c == (b - a) * c;
    }
  }

  /** The index of a page's first row. */
  function PageStart(currentPage: int, pageSize: int): (start: nat)
    requires currentPage >= 1 && pageSize >= 1
    ensures start == (currentPage - 1) * pageSize
  {
    MulMono(0, currentPage - 1, pageSize);
    (currentPage - 1) * pageSize
  }

  /** `sortedData.slice(start, start + pageSize)` with `start = (currentPage - 1) * pageSize`. */
  function PaginatedData(sorted: seq<Row>, currentPage: int, pageSize: int): (r: seq<Row>)
    requires currentPage >= 1 && pageSize >= 1
    ensures |r| <= pageSize
    ensures forall i :: 0 <= i < |r| ==>
      (PageStart(currentPage, pageSize) + i < |sorted| && r[i] == sorted[PageStart(currentPage, pageSize) + i])
    ensures PageStart(currentPage, pageSize) + pageSize <= |sorted| ==> |r| == pageSize
    ensures |sorted| <= PageStart(currentPage, pageSize) ==> r == []
  {
    var start := PageStart(currentPage, pageSize);
    if start >= |sorted| then []
    else if start + pageSize >= |sorted| then sorted[start..]
    else sorted[start..start + pageSize]
  }

  /** Every row is on one of the pages the table offers, at the position its index gives. */
  lemma EveryRowOnAPage(sorted: seq<Row>, pageSize: int, i: int)
    requires pageSize >= 1 && 0 <= i < |sorted|
    ensures 1 <= i / pageSize + 1 <= TotalPages(|sorted|, pageSize)
    ensures PaginatedData(sorted, i / pageSize + 1, pageSize)[i % pageSize] == sorted[i]
  {
    var p := i / pageSize + 1;
    assert (p - 1) * pageSize + i % pageSize == i;
    var n := TotalPages(|sorted|, pageSize);
    MulMono(n, p - 1, pageSize);
  }

  /** Every page before the last is full, and past the last there is nothing. */
  lemma PageSizes(sorted: seq<Row>, currentPage: int, pageSize: int)
    requires currentPage >= 1 && pageSize >= 1
    ensures currentPage < TotalPages(|sorted|, pageSize) ==> |PaginatedData(sorted, currentPage, pageSize)| == pageSize
    ensures currentPage > TotalPages(|sorted|, pageSize) ==> PaginatedData(sorted, currentPage, pageSize) == []
  {
    var n := TotalPages(|sorted|, pageSize);
    MulMono(currentPage, n as int - 1, pageSize);
    MulMono(n, currentPage - 1, pageSize);
  }

  // --------------------------------------------------------------- selection

  /** The keys of some rows. */
  function KeysOf(rows: seq<Row>, keyField: string): (keys: set<Value>)
    ensures forall k :: k in keys <==> exists i :: 0 <= i < |rows| && Field(rows[i], keyField) == k
  {
    if rows == [] then {}
    else KeysOf(rows[..|rows| - 1], keyField) + {Field(rows[|rows| - 1], keyField)}
  }

  /** No two rows share a key. */
  predicate DistinctKeys(rows: seq<Row>, keyField: string)
  {
    forall i, j :: 0 <= i < j < |rows| ==> Field(rows[i], keyField) != Field(rows[j], keyField)
  }

  lemma {:induction false} DistinctKeysCount(rows: seq<Row>, keyField: string)
    requires DistinctKeys(rows, keyField)
    ensures |KeysOf(rows, keyField)| == |rows|
  {
    if rows != [] {
      var init := rows[..|rows| - 1];
      LastKeyIsNew(rows, keyField);
      DistinctKeysCount(init, keyField);
      assert KeysOf(rows, keyField) == KeysOf(init, keyField) + {Field(rows[|rows| - 1], keyField)};
    }
  }

  /** With distinct keys, the last row's key is not among the others', which are distinct too. */
  lemma LastKeyIsNew(rows: seq<Row>, keyField: string)
    requires rows != [] && DistinctKeys(rows, keyField)
    ensures DistinctKeys(rows[..|rows| - 1], keyField)
    ensures Field(rows[|rows| - 1], keyField) !in KeysOf(rows[..|rows| - 1], keyField)
  {
    var init := rows[..|rows| - 1];
    var last := Field(rows[|rows| - 1], keyField);
    forall i | 0 <= i < |init| ensures Field(init[i], keyField) != last {
      assert init[i] == rows[i];
    }
  }

  /** The rows, in table order, whose key is selected: what `onSelectionChange` receives. */
  function RowsWithKeys(data: seq<Row>, keyField: string, keys: set<Value>): (r: seq<Row>)
    ensures |r| <= |data|
    ensures forall i :: 0 <= i < |r| ==> r[i] in data && Field(r[i], keyField) in keys
    ensures forall row :: row in data && Field(row, keyField) in keys ==> row in r
  {
    if data == [] then []
    else
      var rest := RowsWithKeys(data[..|data| - 1], keyField, keys);
      var last := data[|data| - 1];
      assert forall row :: row in data ==> row in data[..|data| - 1] || row == last;
      if Field(last, keyField) in keys then rest + [last] else rest
  }
  /** Filtering works piece by piece: the rows kept keep their order and their repeats. */
  lemma {:induction false} RowsWithKeysConcat(a: seq<Row>, b: seq<Row>, keyField: string, keys: set<Value>)
    ensures RowsWithKeys(a + b, keyField, keys) == RowsWithKeys(a, keyField, keys) + RowsWithKeys(b, keyField, keys)
    decreases |b|
  {
    if b == [] {
      assert a + b == a;
    } else {
      var init := b[..|b| - 1];
      assert (a + b)[..|a + b| - 1] == a + init;
      assert (a + b)[|a + b| - 1] == b[|b| - 1];
      RowsWithKeysConcat(a, init, keyField, keys);
    }
  }


  /** `toggleSelect`'s new set: the one key flips, every other stays as it was. */
  function Toggled(selected: set<Value>, key: Value): (r: set<Value>)
    ensures key in r <==> key !in selected
    ensures forall k :: k != key ==> (k in r <==> k in selected)
  {
    if key in selected then selected - {key} else selected + {key}
  }

  /** Toggling the same row twice restores the selection. */
  lemma ToggleTwice(selected: set<Value>, key: Value)
    ensures Toggled(Toggled(selected, key), key) == selected
  {
    var r := Toggled(Toggled(selected, key), key);
    assert forall k :: k in r <==> k in selected;
  }

  /** `toggleSelectAll` as written: it clears when the selection is as large as the page, else selects the page. */
  function SelectAllAsWritten(selected: set<Value>, page: seq<Row>, keyField: string): (r: (set<Value>, seq<Row>))
    ensures |selected| == |page| ==> r == ({}, [])
    ensures |selected| != |page| ==> r == (KeysOf(page, keyField), page)
  {
    if |selected| == |page| then ({}, []) else (KeysOf(page, keyField), page)
  }

  /** The header box shows as ticked when the selection is as large as a non-empty page. */
  predicate HeaderTicked(selected: set<Value>, page: seq<Row>)
  {
    |selected| == |page| && |page| > 0
  }

  /**
   * `toggleSelectAll` as evidently meant: when every row on the page is
   * already selected it clears the selection, otherwise it selects exactly
   * the page.
   */
  function SelectAll(selected: set<Value>, page: seq<Row>, keyField: string): (r: (set<Value>, seq<Row>))
    ensures KeysOf(page, keyField) <= selected ==> r == ({}, [])
    ensures !(KeysOf(page, keyField) <= selected) ==> r == (KeysOf(page, keyField), page)
  {
    if KeysOf(page, keyField) <= selected then ({}, []) else (KeysOf(page, keyField), page)
  }

  /** Clicking the corrected box twice on a page not wholly selected selects the page and then clears. */
  lemma SelectAllTwice(selected: set<Value>, page: seq<Row>, keyField: string)
    requires !(KeysOf(page, keyField) <= selected)
    ensures SelectAll(selected, page, keyField).0 == KeysOf(page, keyField)
    ensures SelectAll(SelectAll(selected, page, keyField).0, page, keyField).0 == {}
  {
  }

  /** While the selection lies within a page of distinct keys, the size test decides as the corrected test does. */
  lemma SelectAllAgreesOnOnePage(selected: set<Value>, page: seq<Row>, keyField: string)
    requires DistinctKeys(page, keyField) && selected <= KeysOf(page, keyField)
    ensures SelectAllAsWritten(selected, page, keyField) == SelectAll(selected, page, keyField)
  {
    var keys := KeysOf(page, keyField);
    DistinctKeysCount(page, keyField);
    if |selected| == |page| {
      assert |keys - selected| == |keys| - |selected|;
      assert keys - selected == {};
      assert keys <= selected;
    } else {
      assert selected != keys;
    }
  }

  /**
   * The size test on another page: with both rows of page one selected, the
   * box of page two shows ticked, and clicking it clears the selection
   * instead of selecting page two.
   */
  lemma SelectAllAsWrittenClearsOtherPage()
    ensures var page := [map["id" := Num(3)], map["id" := Num(4)]];
      var selected := {Num(1), Num(2)};
      HeaderTicked(selected, page)
      && SelectAllAsWritten(selected, page, "id").0 == {}
      && SelectAll(selected, page, "id").0 == {Num(3), Num(4)}
  {
    var page := [map["id" := Num(3)], map["id" := Num(4)]];
    var selected := {Num(1), Num(2)};
    assert Field(page[0], "id") == Num(3);
    assert Field(page[1], "id") == Num(4);
    assert KeysOf(page, "id") == {Num(3), Num(4)};
    assert |selected| == 2;
    assert Num(3) !in selected;
  }

  // ----------------------------------------------------------- nested fields

  /** `key.split('.').reduce((obj, k) => obj?.[k], row)`: a step into anything but an object gives `Missing`. */
  function Path(v: Value, keys: seq<string>): Value
    decreases |keys|
  {
    if keys == [] then v
    else
      var next := if v.Obj? && keys[0] in v.fields then v.fields[keys[0]] else Missing;
      Path(next, keys[1..])
  }

  /** A walk along two paths in turn is the walk along the joined path. */
  lemma {:induction false} PathConcat(v: Value, a: seq<string>, b: seq<string>)
    ensures Path(v, a + b) == Path(Path(v, a), b)
    decreases |a|
  {
    if a != [] {
      var next := if v.Obj? && a[0] in v.fields then v.fields[a[0]] else Missing;
      assert (a + b)[0] == a[0] && (a + b)[1..] == a[1..] + b;
      PathConcat(next, a[1..], b);
      assert Path(v, a + b) == Path(next, a[1..] + b);
      assert Path(v, a) == Path(next, a[1..]);
    } else {
      assert a + b == b;
    }
  }

  /** Past a missing value every walk stays missing: `?.` short-circuits. */
  lemma {:induction false} PathFromMissing(keys: seq<string>)
    ensures Path(Missing, keys) == Missing
    decreases |keys|
  {
    if keys != [] {
      PathFromMissing(keys[1..]);
    }
  }

  /** `getValue`: a key with a dot walks into nested objects, any other reads the field. */
  function GetValue(row: Row, key: string): (v: Value)
    ensures '.' !in key ==> v == Field(row, key)
    ensures '.' in key && Split(key, '.')[0] !in row ==> v == Missing
  {
    PathFromMissing(Split(key, '.')[1..]);
    if '.' in key then Path(Obj(row), Split(key, '.')) else Field(row, key)
  }

  /** `"owner.email"` reads `email` inside the `owner` object, and nothing where `owner` is not an object. */
  lemma GetNested(row: Row, outer: string, inner: string)
    requires '.' !in outer && '.' !in inner
    ensures GetValue(row, outer + "." + inner) ==
      (if Field(row, outer).Obj? then Field(Field(row, outer).fields, inner) else Missing)
  {
    var key := outer + "." + inner;
    assert key[|outer|] == '.';
    SplitAtSep(outer, inner, '.');
    SplitNoSep(outer, '.');
    SplitNoSep(inner, '.');
    assert Split(key, '.') == [outer, inner];
    var next := Field(row, outer);
    assert Path(Obj(row), [outer, inner]) == Path(next, [inner]) by {
      assert [outer, inner][0] == outer && [outer, inner][1..] == [inner];
    }
    var last := if next.Obj? && inner in next.fields then next.fields[inner] else Missing;
    assert Path(next, [inner]) == Path(last, []) by {
      assert [inner][1..] == [];
    }
  }

  // ------------------------------------------------------------------- state

  /** The component's state. */
  class Table {
    var search: string
    var sortKey: Option<string>
    var sortDir: Dir
    var selected: set<Value>
    var currentPage: int

    /** The page number never drops below one. */
    predicate Valid()
      reads this
    {
      currentPage >= 1
    }

    constructor()
      ensures Valid()
      ensures search == [] && sortKey == None && sortDir == Asc && selected == {} && currentPage == 1
    {
      search := [];
      sortKey := None;
      sortDir := Asc;
      selected := {};
      currentPage := 1;
    }

    /** The rows on screen: filtered, sorted, then the current page. */
    function Shown(data: seq<Row>, pageSize: int): seq<Row>
      reads this
      requires Valid() && pageSize >= 1
    {
      PaginatedData(SortedData(FilteredData(data, search), sortKey, sortDir), currentPage, pageSize)
    }

    /** The search box: a new query always starts again at page one. */
    method SetSearch(query: string)
      modifies this
      ensures Valid()
      ensures search == query && currentPage == 1
      ensures sortKey == old(sortKey) && sortDir == old(sortDir) && selected == old(selected)
    {
      search := query;
      currentPage := 1;
    }

    /** `handleSort`: the sorted column flips direction, another column becomes the ascending sort. */
    method HandleSort(key: string)
      requires Valid()
      modifies this
      ensures Valid()
      ensures old(sortKey) == Some(key) ==> sortKey == Some(key) && sortDir == (if old(sortDir) == Asc then Desc else Asc)
      ensures old(sortKey) != Some(key) ==> sortKey == Some(key) && sortDir == Asc
      ensures search == old(search) && selected == old(selected) && currentPage == old(currentPage)
    {
      if sortKey == Some(key) {
        sortDir := if sortDir == Asc then Desc else Asc;
      } else {
        sortKey := Some(key);
        sortDir := Asc;
      }
    }

    /** `toggleSelect`: flips the row's key and reports every row of the data whose key is now selected. */
    method ToggleSelect(data: seq<Row>, keyField: string, row: Row) returns (reported: seq<Row>)
      requires Valid()
      modifies this
      ensures Valid()
      ensures selected == Toggled(old(selected), Field(row, keyField))
      ensures reported == RowsWithKeys(data, keyField, selected)
      ensures search == old(search) && sortKey == old(sortKey) && sortDir == old(sortDir) && currentPage == old(currentPage)
    {
      var key := Field(row, keyField);
      var newSelected := selected;
      if key in newSelected {
        newSelected := newSelected - {key};
      } else {
        newSelected := newSelected + {key};
      }
      selected := newSelected;
      reported := RowsWithKeys(data, keyField, newSelected);
    }

    /** `toggleSelectAll` on the rows shown, with the page test corrected; it reports the new selection's rows. */
    method ToggleSelectAll(page: seq<Row>, keyField: string) returns (reported: seq<Row>)
      requires Valid()
      modifies this
      ensures Valid()
      ensures (selected, reported) == SelectAll(old(selected), page, keyField)
      ensures search == old(search) && sortKey == old(sortKey) && sortDir == old(sortDir) && currentPage == old(currentPage)
    {
      if KeysOf(page, keyField) <= selected {
        selected := {};
        reported := [];
      } else {
        selected := KeysOf(page, keyField);
        reported := page;
      }
    }

    /** The previous-page button: never below page one. */
    method PreviousPage()
      requires Valid()
      modifies this
      ensures Valid()
      ensures currentPage == if old(currentPage) > 1 then old(currentPage) - 1 else 1
      ensures search == old(search) && sortKey == old(sortKey) && sortDir == old(sortDir) && selected == old(selected)
    {
      currentPage := if currentPage - 1 > 1 then currentPage - 1 else 1;
    }

    /** The next-page button, shown only with more than one page: never past the last page. */
    method NextPage(totalPages: int)
      requires Valid() && totalPages > 1
      modifies this
      ensures Valid()
      ensures currentPage == if old(currentPage) + 1 < totalPages then old(currentPage) + 1 else totalPages
      ensures currentPage <= totalPages
      ensures search == old(search) && sortKey == old(sortKey) && sortDir == old(sortDir) && selected == old(selected)
    {
      currentPage := if totalPages < currentPage + 1 then totalPages else currentPage + 1;
    }
  }

  /** After a new search the table shows the first rows of the new filter. */
  lemma SearchShowsFirstPage(t: Table, data: seq<Row>, pageSize: int)
    requires t.Valid() && t.currentPage == 1 && pageSize >= 1
    ensures forall i :: 0 <= i < |t.Shown(data, pageSize)| ==>
      t.Shown(data, pageSize)[i] == SortedData(FilteredData(data, t.search), t.sortKey, t.sortDir)[i]
  {
    var sorted := SortedData(FilteredData(data, t.search), t.sortKey, t.sortDir);
    var page := PaginatedData(sorted, 1, pageSize);
    assert PageStart(1, pageSize) == 0;
    assert t.Shown(data, pageSize) == page;
    assert forall i :: 0 <= i < |page| ==> page[i] == sorted[i];
  }
}
