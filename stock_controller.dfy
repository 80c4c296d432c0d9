/** The stock controller's four actions over an in-memory database context. */
module Controllers {
  import opened Models
  import opened Text
  import opened ImageUrls
  import opened Ledger
  import opened Reconcile

  /** The typed payload both views hand to the `StockGestion` view. */
  datatype StockView = StockView(
    productosSinStock: seq<Producto>,
    productosConStock: seq<Producto>,
    stockDictionary: map<int32, Stock>)

  /** `Buscar` either redirects (blank query) or shows the stock view. */
  datatype BuscarResult = RedirectToIndex | ShowView(view: StockView)

  class StockController {
    /** `_context.Stocks`, in table order. */
    var stocks: seq<Stock>
    /** `_context.Productos`, in table order. */
    var productos: seq<Producto>
    /** The injected image host and the controller's `Url.Content`. */
    const urls: UrlBuilders

    constructor (stocks: seq<Stock>, productos: seq<Producto>, urls: UrlBuilders)
      ensures this.stocks == stocks && this.productos == productos && this.urls == urls
    {
      this.stocks := stocks;
      this.productos := productos;
      this.urls := urls;
    }

    /** Search: a blank query redirects; otherwise the products whose name or code contains
        the query, with `Foto` resolved by `ResolverUrlFoto`, split by the dictionary. */
    method Buscar(query: Option<string>) returns (r: BuscarResult)
      ensures r.RedirectToIndex? <==> IsNullOrWhiteSpace(query)
      ensures r.ShowView? ==>
        var found := WithFotos(Matching(productos, query.value), ResolverRule, urls);
        && r.view.stockDictionary == LatestPerProduct(stocks)
        && r.view.productosSinStock == SinStock(found, r.view.stockDictionary)
        && r.view.productosConStock == ConStock(found, r.view.stockDictionary)
      ensures r.ShowView? ==>
        forall p :: p in r.view.productosSinStock || p in r.view.productosConStock ==> MatchesQuery(p, query.value)
      ensures r.ShowView? ==> forall p :: p in r.view.productosConStock ==> HasMovement(stocks, p.productoId)
      ensures r.ShowView? ==> forall p :: p in r.view.productosSinStock ==> !HasMovement(stocks, p.productoId)
    {
      if IsNullOrWhiteSpace(query) {
        return RedirectToIndex;
      }
      var q := query.value;
      var matching := Matching(productos, q);
      var a := new Producto[|matching|](i requires 0 <= i < |matching| => matching[i]);
      assert a[..] == matching;
      OverwriteFotos(a, ResolverRule, urls);
      var found := a[..];
      var stockDictionary := LatestPerProduct(stocks);
      r := ShowView(StockView(SinStock(found, stockDictionary), ConStock(found, stockDictionary), stockDictionary));
      WithFotosCommutes(productos, ResolverRule, urls, stockDictionary, q);
      assert found == Matching(WithFotos(productos, ResolverRule, urls), q);
    }

    /** The stock page: both product queries, `Foto` resolved by `ObtenerUrlImagen`, and the
        dictionary; the lists are the dictionary partition of all products. */
    method StockGestion() returns (v: StockView)
      ensures v.productosSinStock == WithFotos(WithoutMovements(productos, stocks), ObtenerRule, urls)
      ensures v.productosConStock == WithFotos(WithMovements(productos, stocks), ObtenerRule, urls)
      ensures v.stockDictionary == LatestPerProduct(stocks)
      ensures v.productosSinStock == SinStock(WithFotos(productos, ObtenerRule, urls), v.stockDictionary)
      ensures v.productosConStock == ConStock(WithFotos(productos, ObtenerRule, urls), v.stockDictionary)
    {
      var productosSinStock := WithoutMovements(productos, stocks);
      var productosConStock := WithMovements(productos, stocks);
      var sin := new Producto[|productosSinStock|](i requires 0 <= i < |productosSinStock| => productosSinStock[i]);
      var con := new Producto[|productosConStock|](i requires 0 <= i < |productosConStock| => productosConStock[i]);
      assert sin[..] == productosSinStock && con[..] == productosConStock;
      OverwriteFotos(sin, ObtenerRule, urls);
      OverwriteFotos(con, ObtenerRule, urls);
      var stockDictionary := LatestPerProduct(stocks);
      v := StockView(sin[..], con[..], stockDictionary);
      PartitionByMovements(productos, stocks);
      WithFotosCommutes(productos, ObtenerRule, urls, stockDictionary, "");
    }

    /** Restock: appends a "Reabastecimiento" row after the product's newest movement, or
        writes nothing when it has none; the success flag is set either way. */
    method LlenarStock(id: int32, nuevoStock: int32, now: nat) returns (actualizacionExitosa: bool)
      modifies this`stocks
      ensures actualizacionExitosa
      ensures stocks == Restocked(old(stocks), id, nuevoStock, now)
    {
      var stock := Newest(stocks, id);
      if stock.Some? {
        var nuevoRegistro := RestockRecord(stock.value, nuevoStock, now);
        stocks := stocks + [nuevoRegistro];
      }
      actualizacionExitosa := true;
    }

    /** Set stock: overwrites `StockInicial` and `StockActual` of the product's first row in
        place, or appends an "Inicial" row with thresholds 5 and 30 when it has none. */
    method ActualizarStock(id: int32, nuevoStock: int32)
      modifies this`stocks
      ensures stocks == StockSet(old(stocks), id, nuevoStock)
    {
      var first := FirstIndex(stocks, id);
      if first.None? {
        stocks := stocks + [InitialRecord(id, nuevoStock)];
      } else {
        var i := first.value;
        stocks := stocks[i := stocks[i].(stockInicial := nuevoStock, stockActual := nuevoStock)];
      }
    }
  }
}
