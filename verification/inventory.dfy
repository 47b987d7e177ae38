/**
 * The store list behind `GET /api/stores`: the inventory sheet is folded into a
 * per-store tree `[store][category][model][status][color] -> count`, and the
 * store sheet is joined with that tree.
 *
 * The fold mutates its map row by row, so it is a method (BuildInventoryMap)
 * proved against the specification function Aggregate; the join is a
 * filter/map/filter chain, so it is a function.
 */
module Inventory {
  import opened Wrappers
  import opened Text

  // ---------------------------------------------------------------------------
  // The inventory tree

  datatype Category = Phones | Sims | Wearables | SmartDevices

  /** Column E's kind: SIM, wearable and smart device have their own branch; everything else is a phone. */
  function CategoryOf(kind: string): (c: Category)
    ensures c == Sims <==> kind == "유심"
    ensures c == Wearables <==> kind == "웨어러블"
    ensures c == SmartDevices <==> kind == "스마트기기"
  {
    if kind == "유심" then Sims
    else if kind == "웨어러블" then Wearables
    else if kind == "스마트기기" then SmartDevices
    else Phones
  }

  /** A leaf is created at 1 and only ever incremented. */
  type Count = n: nat | n >= 1 witness 1

  /** model -> status -> color -> count */
  type Tally = map<string, map<string, map<string, Count>>>

  /** One store's four category branches, all present from the store's first row on. */
  datatype StoreInventory = StoreInventory(phones: Tally, sims: Tally, wearables: Tally, smartDevices: Tally)
  {
    function Branch(c: Category): Tally
    {
      match c
      case Phones => phones
      case Sims => sims
      case Wearables => wearables
      case SmartDevices => smartDevices
    }

    function WithBranch(c: Category, t: Tally): (r: StoreInventory)
      ensures r.Branch(c) == t
      ensures forall d :: d != c ==> r.Branch(d) == Branch(d)
    {
      match c
      case Phones => this.(phones := t)
      case Sims => this.(sims := t)
      case Wearables => this.(wearables := t)
      case SmartDevices => this.(smartDevices := t)
    }
  }

  const EmptyStore := StoreInventory(map[], map[], map[], map[])

  type InventoryMap = map<string, StoreInventory>

  /** The position of one leaf of the tree. */
  datatype Path = Path(store: string, category: Category, model: string, status: string, color: string)

  /** The count at p, or 0 where the tree has no such leaf. */
  function CountAt(m: InventoryMap, p: Path): nat
  {
    if p.store in m then
      var t := m[p.store].Branch(p.category);
      if p.model in t && p.status in t[p.model] && p.color in t[p.model][p.status]
      then t[p.model][p.status][p.color] as nat
      else 0
    else 0
  }

  /** One surviving row: create the store (with all four branches), model, status and color as needed, then add 1. */
  function Bump(m: InventoryMap, p: Path): (r: InventoryMap)
    ensures r.Keys == m.Keys + {p.store}
  {
    var si := if p.store in m then m[p.store] else EmptyStore;
    var t := si.Branch(p.category);
    var byStatus: map<string, map<string, Count>> := if p.model in t then t[p.model] else map[];
    var byColor: map<string, Count> := if p.status in byStatus then byStatus[p.status] else map[];
    var n: Count := if p.color in byColor then byColor[p.color] + 1 else 1;
    m[p.store := si.WithBranch(p.category, t[p.model := byStatus[p.status := byColor[p.color := n]]])]
  }

  /** Bump adds exactly 1 at p and leaves every other leaf as it was. */
  lemma BumpCount(m: InventoryMap, p: Path, q: Path)
    ensures CountAt(Bump(m, p), q) == CountAt(m, q) + (if q == p then 1 else 0)
  {
    var r := Bump(m, p);
    var si := if p.store in m then m[p.store] else EmptyStore;
    if q.store == p.store && q.category != p.category {
      assert r[q.store].Branch(q.category) == si.Branch(q.category);
    }
  }

  // ---------------------------------------------------------------------------
  // Which inventory rows count

  /**
   * The shipped-recently test: a non-empty column O that parses to a date no
   * earlier than threeDaysAgo. A date that does not parse compares false.
   */
  predicate RecentlyShipped(row: Row, threeDaysAgo: int, parseDate: string -> Option<int>)
  {
    var shipped := Cell(row, 14);
    shipped != "" && parseDate(shipped).Some? && parseDate(shipped).value >= threeDaysAgo
  }

  /**
   * The leaf an inventory data row adds 1 to, or None for a row that
   * contributes nothing: fewer than 15 cells, a blank store, model or color,
   * or (only when includeShipped is the text "false") a recent shipment.
   */
  function Classify(row: Row, includeShipped: string, threeDaysAgo: int, parseDate: string -> Option<int>): (r: Option<Path>)
  {
    if |row| < 15 then None
    else
      var store := Trim(Cell(row, 13));
      var model := Trim(Cell(row, 5));
      var color := Trim(Cell(row, 6));
      var status := Trim(Cell(row, 7));
      var kind := Trim(Cell(row, 4));
      if store == "" || model == "" || color == "" then None
      else if includeShipped == "false" && RecentlyShipped(row, threeDaysAgo, parseDate) then None
      else Some(Path(store, CategoryOf(kind), model, status, color))
  }

  /**
   * A row counts exactly when it has at least 15 cells, non-blank trimmed
   * store, model and color, and is not excluded as recently shipped; it then
   * counts under its trimmed cells and the category of its kind.
   */
  lemma ClassifyKeeps(row: Row, includeShipped: string, threeDaysAgo: int, parseDate: string -> Option<int>)
    ensures var r := Classify(row, includeShipped, threeDaysAgo, parseDate);
      && (r.Some? <==>
          && |row| >= 15
          && Trim(Cell(row, 13)) != "" && Trim(Cell(row, 5)) != "" && Trim(Cell(row, 6)) != ""
          && !(includeShipped == "false" && RecentlyShipped(row, threeDaysAgo, parseDate)))
      && (r.Some? ==> r.value == Path(Trim(Cell(row, 13)), CategoryOf(Trim(Cell(row, 4))),
                                      Trim(Cell(row, 5)), Trim(Cell(row, 7)), Trim(Cell(row, 6))))
  {
  }

  /** The row filter of one request, as a function of the row alone. */
  function RowFilter(includeShipped: string, threeDaysAgo: int, parseDate: string -> Option<int>): Row -> Option<Path>
  {
    row => Classify(row, includeShipped, threeDaysAgo, parseDate)
  }

  /** The leaves the rows add 1 to, in row order. */
  function Survivors(rows: seq<Row>, keep: Row -> Option<Path>): (r: seq<Path>)
    ensures |r| <= |rows|
  {
    if rows == [] then []
    else
      var before := Survivors(rows[..|rows| - 1], keep);
      match keep(rows[|rows| - 1])
      case None => before
      case Some(p) => before + [p]
  }

  /** The tree after the `forEach` over rows. */
  function Aggregate(rows: seq<Row>, keep: Row -> Option<Path>): InventoryMap
  {
    if rows == [] then map[]
    else
      var m := Aggregate(rows[..|rows| - 1], keep);
      match keep(rows[|rows| - 1])
      case None => m
      case Some(p) => Bump(m, p)
  }

  /** The `forEach` over the inventory data rows, building the map in place. */
  method BuildInventoryMap(rows: seq<Row>, includeShipped: string, threeDaysAgo: int, parseDate: string -> Option<int>)
    returns (m: InventoryMap)
    ensures m == Aggregate(rows, RowFilter(includeShipped, threeDaysAgo, parseDate))
  {
    ghost var keep := RowFilter(includeShipped, threeDaysAgo, parseDate);
    m := map[];
    var i := 0;
    while i < |rows|
      invariant 0 <= i <= |rows|
      invariant m == Aggregate(rows[..i], keep)
    {
      assert rows[..i + 1][..i] == rows[..i];
      var leaf := Classify(rows[i], includeShipped, threeDaysAgo, parseDate);
      assert keep(rows[..i + 1][i]) == leaf;
      if leaf.Some? {
        m := Bump(m, leaf.value);
      }
      i := i + 1;
    }
    assert rows[..i] == rows;
  }

  // ---------------------------------------------------------------------------
  // What the tree holds

  /** Every leaf counts exactly the surviving rows with that store, category, model, status and color. */
  lemma {:induction false} AggregateCounts(rows: seq<Row>, keep: Row -> Option<Path>, p: Path)
    ensures CountAt(Aggregate(rows, keep), p) == multiset(Survivors(rows, keep))[p]
  {
    if rows != [] {
      var init := rows[..|rows| - 1];
      AggregateCounts(init, keep, p);
      var leaf := keep(rows[|rows| - 1]);
      if leaf.Some? {
        BumpCount(Aggregate(init, keep), leaf.value, p);
      }
    }
  }

  /** The stores of the tree are exactly the stores of the surviving rows. */
  lemma {:induction false} AggregateStores(rows: seq<Row>, keep: Row -> Option<Path>)
    ensures Aggregate(rows, keep).Keys == set p | p in Survivors(rows, keep) :: p.store
  {
    if rows != [] {
      AggregateStores(rows[..|rows| - 1], keep);
    }
  }

  /** Survivors keeps row order: it distributes over concatenation. */
  lemma {:induction false} SurvivorsAppend(a: seq<Row>, b: seq<Row>, keep: Row -> Option<Path>)
    ensures Survivors(a + b, keep) == Survivors(a, keep) + Survivors(b, keep)
  {
    if b == [] {
      assert a + b == a;
    } else {
      var ab := a + b;
      assert ab[..|ab| - 1] == a + b[..|b| - 1];
      assert ab[|ab| - 1] == b[|b| - 1];
      SurvivorsAppend(a, b[..|b| - 1], keep);
    }
  }

  /** A single row survives exactly when the filter keeps it, with the leaf the filter names. */
  lemma SurvivorsSingle(row: Row, keep: Row -> Option<Path>)
    ensures Survivors([row], keep) == match keep(row) case None => [] case Some(p) => [p]
  {
    assert [row][..0] == [];
  }

  /** Unless includeShipped is the text "false", shipping dates are never looked at. */
  lemma ShippedIgnoredUnlessFalse(row: Row, includeShipped: string, d1: int, d2: int,
                                  parse1: string -> Option<int>, parse2: string -> Option<int>)
    requires includeShipped != "false"
    ensures Classify(row, includeShipped, d1, parse1) == Classify(row, includeShipped, d2, parse2)
  {
  }

  /** With includeShipped "false", a well-formed row shipped at or after the cutoff is dropped; one shipped before it is counted. */
  lemma ShippedExclusion(row: Row, threeDaysAgo: int, parseDate: string -> Option<int>)
    requires |row| >= 15 && Trim(Cell(row, 13)) != "" && Trim(Cell(row, 5)) != "" && Trim(Cell(row, 6)) != ""
    ensures Classify(row, "false", threeDaysAgo, parseDate).None? <==> RecentlyShipped(row, threeDaysAgo, parseDate)
    ensures Classify(row, "true", threeDaysAgo, parseDate).Some?
  {
  }

  // ---------------------------------------------------------------------------
  // The store list

  /**
   * One entry of the store list. latitude and longitude are the texts the
   * source hands to parseFloat; inventory None is the empty object `{}`.
   */
  datatype StoreRecord = StoreRecord(
    id: string, name: string, address: string, phone: string, manager: string,
    latitude: string, longitude: string, uniqueId: string, inventory: Option<StoreInventory>)

  /** The three filters of the join: non-blank trimmed name, status exactly "사용", non-blank store id. */
  predicate Listed(row: Row)
  {
    Trim(Cell(row, 6)) != "" && Cell(row, 4) == "사용" && Trim(Cell(row, 7)) != ""
  }

  function StoreOf(row: Row, inv: InventoryMap): StoreRecord
  {
    var name := Trim(Cell(row, 6));
    var id := Cell(row, 7);
    StoreRecord(id, name, Cell(row, 3), Cell(row, 9), Cell(row, 13),
                OrElse(Cell(row, 0), "0"), OrElse(Cell(row, 1), "0"),
                id + "_" + name,
                if name in inv then Some(inv[name]) else None)
  }

  /** The filter/map/filter chain over the store data rows. */
  function Join(rows: seq<Row>, inv: InventoryMap): (r: seq<StoreRecord>)
    ensures |r| <= |rows|
  {
    if rows == [] then []
    else
      var rest := Join(rows[1..], inv);
      if Listed(rows[0]) then [StoreOf(rows[0], inv)] + rest else rest
  }

  /** The join keeps table order: it distributes over concatenation. */
  lemma {:induction false} JoinAppend(a: seq<Row>, b: seq<Row>, inv: InventoryMap)
    ensures Join(a + b, inv) == Join(a, inv) + Join(b, inv)
  {
    if a != [] {
      assert (a + b)[0] == a[0];
      assert (a + b)[1..] == a[1..] + b;
      JoinAppend(a[1..], b, inv);
    } else {
      assert a + b == b;
    }
  }

  /** A single row yields one store exactly when it passes the three filters. */
  lemma JoinSingle(row: Row, inv: InventoryMap)
    ensures Join([row], inv) == if Listed(row) then [StoreOf(row, inv)] else []
  {
    assert [row][1..] == [];
  }

  /**
   * Every listed store has a non-blank trimmed name and id, a uniqueId of
   * `<id>_<name>`, and the tree of its name, or `{}` when that name has no rows.
   */
  lemma {:induction false} JoinRecords(rows: seq<Row>, inv: InventoryMap)
    ensures forall s :: s in Join(rows, inv) ==>
      && s.name != "" && s.name == Trim(s.name)
      && Trim(s.id) != ""
      && s.uniqueId == s.id + "_" + s.name
      && s.inventory == (if s.name in inv then Some(inv[s.name]) else None)
      && s.latitude != "" && s.longitude != ""
  {
    if rows != [] {
      JoinRecords(rows[1..], inv);
      if Listed(rows[0]) {
        TrimIdempotent(Cell(rows[0], 6));
      }
    }
  }

  /** A row lists a store exactly when one of the rows passes the filters and maps to it. */
  lemma {:induction false} JoinMembers(rows: seq<Row>, inv: InventoryMap, s: StoreRecord)
    ensures s in Join(rows, inv) <==> exists i :: 0 <= i < |rows| && Listed(rows[i]) && StoreOf(rows[i], inv) == s
  {
    if rows != [] {
      JoinMembers(rows[1..], inv, s);
      if exists i :: 0 <= i < |rows| && Listed(rows[i]) && StoreOf(rows[i], inv) == s {
        var i :| 0 <= i < |rows| && Listed(rows[i]) && StoreOf(rows[i], inv) == s;
        if i > 0 {
          assert rows[1..][i - 1] == rows[i];
        }
      }
      if s in Join(rows[1..], inv) {
        var i :| 0 <= i < |rows[1..]| && Listed(rows[1..][i]) && StoreOf(rows[1..][i], inv) == s;
        assert rows[i + 1] == rows[1..][i];
      }
    }
  }
}
