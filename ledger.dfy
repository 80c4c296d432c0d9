/** The stock ledger: the `Stocks` table as a sequence of movements in row order, the
    queries the controller runs on it, and the two ways it writes to it. */
module Ledger {
  import opened Models

  /** `Stocks.Any(s => s.Fk_Producto == id)`. */
  predicate HasMovement(s: seq<Stock>, id: int32) {
    exists i :: 0 <= i < |s| && s[i].fkProducto == id
  }

  /** How many movements product `id` has. */
  function MovementCount(s: seq<Stock>, id: int32): (n: nat)
    ensures n <= |s|
    ensures n > 0 <==> HasMovement(s, id)
  {
    if s == [] then 0
    else
      var prev := MovementCount(s[..|s| - 1], id);
      assert forall i :: 0 <= i < |s| - 1 ==> s[..|s| - 1][i] == s[i];
      if s[|s| - 1].fkProducto == id then prev + 1 else prev
  }

  /** The indices of product `id`'s rows. */
  ghost function RowsOf(s: seq<Stock>, id: int32): set<int> {
    set i | 0 <= i < |s| && s[i].fkProducto == id
  }

  /** `MovementCount` is the number of rows of the product. */
  lemma {:induction false} MovementCountIsRowCount(s: seq<Stock>, id: int32)
    ensures MovementCount(s, id) == |RowsOf(s, id)|
  {
    if s != [] {
      var last := |s| - 1;
      var p := s[..last];
      MovementCountIsRowCount(p, id);
      assert forall i :: 0 <= i < last ==> p[i] == s[i];
      if s[last].fkProducto == id {
        assert RowsOf(s, id) == RowsOf(p, id) + {last};
        assert last !in RowsOf(p, id);
      } else {
        assert RowsOf(s, id) == RowsOf(p, id);
      }
    }
  }

  /** Index `k` holds the movement of product `id` that ordering by `FechaMovimiento`
      descending puts first: no movement of `id` is later, and every earlier row of `id`
      is strictly older. This is the model's tie rule: among equal timestamps the first row in
      table order wins. */
  ghost predicate IsNewestAt(s: seq<Stock>, id: int32, k: int) {
    && 0 <= k < |s|
    && s[k].fkProducto == id
    && (forall j :: 0 <= j < |s| && s[j].fkProducto == id ==> s[j].fechaMovimiento <= s[k].fechaMovimiento)
    && (forall j :: 0 <= j < k && s[j].fkProducto == id ==> s[j].fechaMovimiento < s[k].fechaMovimiento)
  }

  /** At most one index is the newest movement of a product. */
  lemma NewestAtUnique(s: seq<Stock>, id: int32, k1: int, k2: int)
    requires IsNewestAt(s, id, k1) && IsNewestAt(s, id, k2)
    ensures k1 == k2
  {
  }

  /** Index of the most recent movement of product `id`, or None when it has none
      (`Where(s => s.Fk_Producto == id).OrderByDescending(s => s.FechaMovimiento).FirstOrDefault()`). */
  function NewestIndex(s: seq<Stock>, id: int32): (r: Option<nat>)
    ensures r.None? <==> !HasMovement(s, id)
    ensures r.Some? ==> IsNewestAt(s, id, r.value)
  {
    if s == [] then None
    else
      var last := |s| - 1;
      var prev := NewestIndex(s[..last], id);
      assert forall i :: 0 <= i < last ==> s[..last][i] == s[i];
      if s[last].fkProducto != id then prev
      else if prev.None? || s[last].fechaMovimiento > s[prev.value].fechaMovimiento then Some(last)
      else prev
  }

  /** The most recent movement of product `id`, or None. */
  function Newest(s: seq<Stock>, id: int32): (r: Option<Stock>)
    ensures r.None? <==> !HasMovement(s, id)
    ensures r.Some? ==> r.value in s && r.value.fkProducto == id
    ensures r.Some? ==> forall j :: 0 <= j < |s| && s[j].fkProducto == id ==> s[j].fechaMovimiento <= r.value.fechaMovimiento
  {
    match NewestIndex(s, id)
    case None => None
    case Some(k) => Some(s[k])
  }

  /** The newest movement depends only on each row's product and timestamp. */
  lemma {:induction false} NewestIndexDependsOnKeys(s: seq<Stock>, t: seq<Stock>, id: int32)
    requires |s| == |t|
    requires forall j :: 0 <= j < |s| ==> s[j].fkProducto == t[j].fkProducto && s[j].fechaMovimiento == t[j].fechaMovimiento
    ensures NewestIndex(s, id) == NewestIndex(t, id)
  {
    assert HasMovement(s, id) <==> HasMovement(t, id) by {
      if HasMovement(s, id) {
        var i :| 0 <= i < |s| && s[i].fkProducto == id;
        assert t[i].fkProducto == id;
      }
      if HasMovement(t, id) {
        var i :| 0 <= i < |t| && t[i].fkProducto == id;
        assert s[i].fkProducto == id;
      }
    }
    if NewestIndex(s, id).Some? {
      var k := NewestIndex(s, id).value;
      assert IsNewestAt(t, id, k);
      NewestAtUnique(t, id, k, NewestIndex(t, id).value);
    }
  }

  /** The `stockDictionary` both views build: movements grouped by `Fk_Producto`, each
      group reduced to its most recent movement, keyed by product id. */
  function LatestPerProduct(s: seq<Stock>): (d: map<int32, Stock>)
    ensures forall id :: id in d <==> HasMovement(s, id)
    ensures forall id :: id in d ==> d[id] in s && d[id].fkProducto == id
    ensures forall id, j :: id in d && 0 <= j < |s| && s[j].fkProducto == id ==> s[j].fechaMovimiento <= d[id].fechaMovimiento
  {
    if s == [] then map[]
    else
      var last := s[|s| - 1];
      var d0 := LatestPerProduct(s[..|s| - 1]);
      assert forall i :: 0 <= i < |s| - 1 ==> s[..|s| - 1][i] == s[i];
      assert s == s[..|s| - 1] + [last];
      if last.fkProducto !in d0 || last.fechaMovimiento > d0[last.fkProducto].fechaMovimiento
      then d0[last.fkProducto := last]
      else d0
  }

  /** The dictionary holds, for every product, the very movement the per-product query picks. */
  lemma {:induction false} LatestPerProductIsNewest(s: seq<Stock>, id: int32)
    ensures id in LatestPerProduct(s) <==> Newest(s, id).Some?
    ensures id in LatestPerProduct(s) ==> LatestPerProduct(s)[id] == Newest(s, id).value
  {
    if s != [] {
      var last := |s| - 1;
      var p := s[..last];
      LatestPerProductIsNewest(p, id);
      assert forall i :: 0 <= i < last ==> p[i] == s[i];
      var d0 := LatestPerProduct(p);
      var prev := NewestIndex(p, id);
      assert NewestIndex(s, id) == (
        if s[last].fkProducto != id then prev
        else if prev.None? || s[last].fechaMovimiento > s[prev.value].fechaMovimiento then Some(last)
        else prev);
      if prev.Some? {
        assert d0[id] == s[prev.value];
      }
    }
  }

  // ----- Restock (`LlenarStock`) -----

  const Reabastecimiento: string := "Reabastecimiento"
  const Inicial: string := "Inicial"
  const DefaultStockMinimo: int32 := 5
  const DefaultStockMaximo: int32 := 30

  /** `FechaMovimiento` of a row the controller creates without setting it: `default(DateTime)`. */
  const DefaultFecha: nat := 0

  /** The row a restock of `nuevoStock` units appends after `latest`. */
  function RestockRecord(latest: Stock, nuevoStock: int32, now: nat): Stock {
    Stock(latest.fkProducto, nuevoStock, WrappingAdd(latest.stockActual, nuevoStock),
          latest.stockMinimo, latest.stockMaximo, Some(Reabastecimiento), now)
  }

  /** The ledger after restocking product `id` with `nuevoStock` units at time `now`. */
  function Restocked(s: seq<Stock>, id: int32, nuevoStock: int32, now: nat): (t: seq<Stock>)
    ensures |t| == |s| + (if HasMovement(s, id) then 1 else 0)
    ensures t[..|s|] == s
  {
    match Newest(s, id)
    case None => s
    case Some(latest) => s + [RestockRecord(latest, nuevoStock, now)]
  }

  /** A restock of a product without movements writes nothing. */
  lemma RestockWithoutMovementIsNoOp(s: seq<Stock>, id: int32, nuevoStock: int32, now: nat)
    requires !HasMovement(s, id)
    ensures Restocked(s, id, nuevoStock, now) == s
    ensures MovementCount(Restocked(s, id, nuevoStock, now), id) == 0
  {
  }

  /** Otherwise it appends exactly one row and leaves every existing row as it was; the new
      row carries the newest movement's current stock plus the amount. */
  lemma RestockAppendsOne(s: seq<Stock>, id: int32, nuevoStock: int32, now: nat)
    requires HasMovement(s, id)
    ensures var t := Restocked(s, id, nuevoStock, now);
      var latest := Newest(s, id).value;
      && |t| == |s| + 1
      && t[..|s|] == s
      && t[|s|].fkProducto == id
      && t[|s|].stockInicial == nuevoStock
      && t[|s|].stockActual == WrappingAdd(latest.stockActual, nuevoStock)
      && t[|s|].stockMinimo == latest.stockMinimo
      && t[|s|].stockMaximo == latest.stockMaximo
      && t[|s|].tipoMovimiento == Some(Reabastecimiento)
      && t[|s|].fechaMovimiento == now
  {
  }

  /** The restocked product's movement count grows by exactly one; other products' counts stay. */
  lemma RestockCount(s: seq<Stock>, id: int32, other: int32, nuevoStock: int32, now: nat)
    requires HasMovement(s, id)
    ensures MovementCount(Restocked(s, id, nuevoStock, now), id) == MovementCount(s, id) + 1
    ensures other != id ==> MovementCount(Restocked(s, id, nuevoStock, now), other) == MovementCount(s, other)
  {
    var t := Restocked(s, id, nuevoStock, now);
    assert t[..|t| - 1] == s;
  }

  /** When the clock has moved past the newest movement, the appended row becomes the new
      current stock: the old current stock plus the amount (recency decides, not size). */
  lemma {:induction false} RestockBecomesNewest(s: seq<Stock>, id: int32, nuevoStock: int32, now: nat)
    requires HasMovement(s, id)
    requires now > Newest(s, id).value.fechaMovimiento
    ensures Newest(Restocked(s, id, nuevoStock, now), id).value.stockActual
         == WrappingAdd(Newest(s, id).value.stockActual, nuevoStock)
    ensures NewestIndex(Restocked(s, id, nuevoStock, now), id) == Some(|s|)
  {
    var t := Restocked(s, id, nuevoStock, now);
    assert t[..|t| - 1] == s;
  }

  /** When the clock has not moved past it, the appended row is not the current stock: the
      first row with the largest timestamp still is. */
  lemma {:induction false} RestockAtSameTimeIsHidden(s: seq<Stock>, id: int32, nuevoStock: int32, now: nat)
    requires HasMovement(s, id)
    requires now <= Newest(s, id).value.fechaMovimiento
    ensures Newest(Restocked(s, id, nuevoStock, now), id) == Newest(s, id)
  {
    var t := Restocked(s, id, nuevoStock, now);
    assert t[..|t| - 1] == s;
  }

  /** A restock never changes another product's current stock. */
  lemma {:induction false} RestockKeepsOtherProducts(s: seq<Stock>, id: int32, other: int32, nuevoStock: int32, now: nat)
    requires other != id
    ensures Newest(Restocked(s, id, nuevoStock, now), other) == Newest(s, other)
  {
    var t := Restocked(s, id, nuevoStock, now);
    if t != s {
      assert t[..|t| - 1] == s;
    }
  }

  // ----- Set stock (`ActualizarStock`) -----

  /** Index of the first row of product `id` in table order, or None
      (`FirstOrDefaultAsync(s => s.Fk_Producto == id)`). */
  function FirstIndex(s: seq<Stock>, id: int32): (r: Option<nat>)
    ensures r.None? <==> !HasMovement(s, id)
    ensures r.Some? ==> r.value < |s| && s[r.value].fkProducto == id
    ensures r.Some? ==> forall j :: 0 <= j < r.value ==> s[j].fkProducto != id
  {
    if s == [] then None
    else if s[0].fkProducto == id then Some(0)
    else
      match FirstIndex(s[1..], id)
      case None => None
      case Some(k) => Some(k + 1)
  }

  /** The "Inicial" row created for a product that has no movement yet. */
  function InitialRecord(id: int32, nuevoStock: int32): Stock {
    Stock(id, nuevoStock, nuevoStock, DefaultStockMinimo, DefaultStockMaximo, Some(Inicial), DefaultFecha)
  }

  /** The ledger after setting product `id`'s stock to `nuevoStock`: find-or-create. */
  function StockSet(s: seq<Stock>, id: int32, nuevoStock: int32): (t: seq<Stock>)
    ensures |t| == |s| + (if HasMovement(s, id) then 0 else 1)
    ensures HasMovement(t, id)
    ensures forall j :: 0 <= j < |s| && FirstIndex(s, id) != Some(j) ==> t[j] == s[j]
  {
    match FirstIndex(s, id)
    case None =>
      var t := s + [InitialRecord(id, nuevoStock)];
      assert t[|s|].fkProducto == id;
      t
    case Some(i) =>
      var t := s[i := s[i].(stockInicial := nuevoStock, stockActual := nuevoStock)];
      assert t[i].fkProducto == id;
      t
  }

  /** Without a movement, set stock appends one "Inicial" row with the default thresholds. */
  lemma SetStockCreatesInitial(s: seq<Stock>, id: int32, nuevoStock: int32)
    requires !HasMovement(s, id)
    ensures var t := StockSet(s, id, nuevoStock);
      && |t| == |s| + 1
      && t[..|s|] == s
      && t[|s|].fkProducto == id
      && t[|s|].stockInicial == nuevoStock && t[|s|].stockActual == nuevoStock
      && t[|s|].stockMinimo == 5 && t[|s|].stockMaximo == 30
      && t[|s|].tipoMovimiento == Some(Inicial)
      && t[|s|].fechaMovimiento == DefaultFecha
  {
  }

  /** With a movement, set stock keeps the ledger's length and changes only the first row of
      the product, and of it only `StockInicial` and `StockActual`. */
  lemma SetStockOverwritesFirst(s: seq<Stock>, id: int32, nuevoStock: int32)
    requires HasMovement(s, id)
    ensures var t := StockSet(s, id, nuevoStock);
      var i := FirstIndex(s, id).value;
      && |t| == |s|
      && (forall j :: 0 <= j < i ==> s[j].fkProducto != id)
      && s[i].fkProducto == id
      && t[i] == s[i].(stockInicial := nuevoStock, stockActual := nuevoStock)
      && (forall j :: 0 <= j < |s| && j != i ==> t[j] == s[j])
  {
  }

  /** After set stock the product has a movement, and which products have one is otherwise
      unchanged. */
  lemma {:induction false} SetStockRegistersProduct(s: seq<Stock>, id: int32, other: int32, nuevoStock: int32)
    ensures HasMovement(StockSet(s, id, nuevoStock), other) <==> HasMovement(s, other) || other == id
  {
    var t := StockSet(s, id, nuevoStock);
    if HasMovement(s, id) {
      var i := FirstIndex(s, id).value;
      assert t[i].fkProducto == id;
      assert forall j :: 0 <= j < |s| ==> t[j].fkProducto == s[j].fkProducto;
    } else {
      assert t[|s|].fkProducto == id;
      assert forall j :: 0 <= j < |s| ==> t[j] == s[j];
    }
  }

  /** Setting the same value twice is the same as setting it once. */
  lemma {:induction false} SetStockIdempotent(s: seq<Stock>, id: int32, nuevoStock: int32)
    ensures StockSet(StockSet(s, id, nuevoStock), id, nuevoStock) == StockSet(s, id, nuevoStock)
  {
    var t := StockSet(s, id, nuevoStock);
    var i := if HasMovement(s, id) then FirstIndex(s, id).value else |s|;
    assert i < |t| && t[i].fkProducto == id;
    assert forall j :: 0 <= j < i ==> t[j].fkProducto != id;
    assert FirstIndex(t, id) == Some(i);
  }

  /** Set stock keeps every row's product and timestamp, so which row is the newest of each
      product does not move. The product's current stock becomes `nuevoStock` only when its
      first row is also its newest; otherwise the newest row, and so the current stock shown,
      is left as it was. */
  lemma {:induction false} SetStockCurrent(s: seq<Stock>, id: int32, other: int32, nuevoStock: int32)
    requires HasMovement(s, id)
    ensures other != id ==> NewestIndex(StockSet(s, id, nuevoStock), other) == NewestIndex(s, other)
    ensures NewestIndex(StockSet(s, id, nuevoStock), id) == NewestIndex(s, id)
    ensures FirstIndex(s, id) == NewestIndex(s, id) ==> Newest(StockSet(s, id, nuevoStock), id).value.stockActual == nuevoStock
    ensures FirstIndex(s, id) != NewestIndex(s, id) ==> Newest(StockSet(s, id, nuevoStock), id) == Newest(s, id)
    ensures other != id ==> Newest(StockSet(s, id, nuevoStock), other) == Newest(s, other)
  {
    var t := StockSet(s, id, nuevoStock);
    NewestIndexDependsOnKeys(s, t, other);
    NewestIndexDependsOnKeys(s, t, id);
  }

  /** A product set for the first time has that value as its current stock. */
  lemma {:induction false} SetStockFirstTimeIsCurrent(s: seq<Stock>, id: int32, nuevoStock: int32)
    requires !HasMovement(s, id)
    ensures Newest(StockSet(s, id, nuevoStock), id) == Some(InitialRecord(id, nuevoStock))
  {
    var t := StockSet(s, id, nuevoStock);
    assert t[..|t| - 1] == s;
  }
}
