/** The view-building logic: the query filter, the with/without-stock partition and the
    pass that overwrites each product's `Foto` with a displayable URL. */
module Reconcile {
  import opened Models
  import opened Text
  import opened ImageUrls
  import opened Ledger

  /** LINQ `Where`: the elements of `xs` that `keep` accepts, in their order. */
  function Filter<T(==,!new)>(xs: seq<T>, keep: T -> bool): (r: seq<T>)
    ensures |r| <= |xs|
    ensures forall x :: x in r <==> x in xs && keep(x)
  {
    if xs == [] then []
    else if keep(xs[0]) then [xs[0]] + Filter(xs[1..], keep)
    else Filter(xs[1..], keep)
  }

  /** `a` is `b` with some elements left out, the rest in the same order. */
  predicate IsSubsequence<T(==,!new)>(a: seq<T>, b: seq<T>)
    decreases |b|
  {
    if a == [] then true
    else if b == [] then false
    else (a[0] == b[0] && IsSubsequence(a[1..], b[1..])) || IsSubsequence(a, b[1..])
  }

  /** Filtering keeps the input order. */
  lemma {:induction false} FilterIsSubsequence<T(!new)>(xs: seq<T>, keep: T -> bool)
    ensures IsSubsequence(Filter(xs, keep), xs)
  {
    if xs != [] {
      FilterIsSubsequence(xs[1..], keep);
      var r := Filter(xs, keep);
      if keep(xs[0]) {
        assert r[0] == xs[0] && r[1..] == Filter(xs[1..], keep);
      }
    }
  }

  /** Filtering by a condition and by its negation splits the input: every element lands in
      exactly one of the two results, as many times as it occurs in the input. */
  lemma {:induction false} FilterSplits<T(!new)>(xs: seq<T>, keep: T -> bool, drop: T -> bool)
    requires forall x :: drop(x) == !keep(x)
    ensures multiset(Filter(xs, keep)) + multiset(Filter(xs, drop)) == multiset(xs)
  {
    if xs != [] {
      FilterSplits(xs[1..], keep, drop);
      assert xs == [xs[0]] + xs[1..];
    }
  }

  /** Two conditions that agree on the input select the same elements. */
  lemma {:induction false} FilterCongruent<T(!new)>(xs: seq<T>, f: T -> bool, g: T -> bool)
    requires forall x :: x in xs ==> f(x) == g(x)
    ensures Filter(xs, f) == Filter(xs, g)
  {
    if xs != [] {
      FilterCongruent(xs[1..], f, g);
    }
  }

  /** `p.Nombre.Contains(query) || p.Codigo_Producto.Contains(query)`; a null column matches nothing. */
  predicate MatchesQuery(p: Producto, query: string) {
    || (p.nombre.Some? && Contains(p.nombre.value, query))
    || (p.codigoProducto.Some? && Contains(p.codigoProducto.value, query))
  }

  /** The products whose name or code contains `query`. */
  function Matching(ps: seq<Producto>, query: string): (r: seq<Producto>)
    ensures forall p :: p in r <==> p in ps && MatchesQuery(p, query)
  {
    Filter(ps, (p: Producto) => MatchesQuery(p, query))
  }

  /** `Buscar`'s "without stock" list: products with no key in the dictionary. */
  function SinStock(ps: seq<Producto>, d: map<int32, Stock>): (r: seq<Producto>)
    ensures forall p :: p in r <==> p in ps && p.productoId !in d
  {
    Filter(ps, (p: Producto) => p.productoId !in d)
  }

  /** `Buscar`'s "with stock" list: products with a key in the dictionary. */
  function ConStock(ps: seq<Producto>, d: map<int32, Stock>): (r: seq<Producto>)
    ensures forall p :: p in r <==> p in ps && p.productoId in d
  {
    Filter(ps, (p: Producto) => p.productoId in d)
  }

  /** `StockGestion`'s "without stock" query: products no movement refers to. */
  function WithoutMovements(ps: seq<Producto>, s: seq<Stock>): (r: seq<Producto>)
    ensures forall p :: p in r <==> p in ps && !HasMovement(s, p.productoId)
  {
    Filter(ps, (p: Producto) => !HasMovement(s, p.productoId))
  }

  /** `StockGestion`'s "with stock" query: products some movement refers to. */
  function WithMovements(ps: seq<Producto>, s: seq<Stock>): (r: seq<Producto>)
    ensures forall p :: p in r <==> p in ps && HasMovement(s, p.productoId)
  {
    Filter(ps, (p: Producto) => HasMovement(s, p.productoId))
  }

  /** The dictionary partition: the two lists are disjoint, keep the input order, together
      hold every input product exactly as often as the input does, and a product is "with
      stock" exactly when the dictionary has its id. */
  lemma PartitionByDictionary(ps: seq<Producto>, d: map<int32, Stock>)
    ensures forall p :: p in ConStock(ps, d) <==> p in ps && p.productoId in d
    ensures forall p :: p in SinStock(ps, d) <==> p in ps && p.productoId !in d
    ensures forall p :: !(p in SinStock(ps, d) && p in ConStock(ps, d))
    ensures IsSubsequence(SinStock(ps, d), ps) && IsSubsequence(ConStock(ps, d), ps)
    ensures multiset(SinStock(ps, d)) + multiset(ConStock(ps, d)) == multiset(ps)
  {
    var without := (p: Producto) => p.productoId !in d;
    var with := (p: Producto) => p.productoId in d;
    FilterIsSubsequence(ps, without);
    FilterIsSubsequence(ps, with);
    FilterSplits(ps, without, with);
  }

  /** Over a ledger's own dictionary, a product is "with stock" in `Buscar` exactly when
      some movement has its id, and the two views' queries pick the same products. */
  lemma {:induction false} PartitionByMovements(ps: seq<Producto>, s: seq<Stock>)
    ensures SinStock(ps, LatestPerProduct(s)) == WithoutMovements(ps, s)
    ensures ConStock(ps, LatestPerProduct(s)) == WithMovements(ps, s)
    ensures forall p :: p in ConStock(ps, LatestPerProduct(s)) <==> p in ps && HasMovement(s, p.productoId)
  {
    var d := LatestPerProduct(s);
    FilterCongruent(ps, (p: Producto) => p.productoId !in d, (p: Producto) => !HasMovement(s, p.productoId));
    FilterCongruent(ps, (p: Producto) => p.productoId in d, (p: Producto) => HasMovement(s, p.productoId));
  }

  /** The product with its `Foto` replaced by the URL the rule resolves it to. */
  function WithFoto(p: Producto, rule: FotoRule, urls: UrlBuilders): (r: Producto)
    ensures r == p.(foto := r.foto) && r.foto.Some?
  {
    p.(foto := Some(ResolveFoto(rule, p.foto, urls)))
  }

  /** Every product of `ps` with its `Foto` resolved: same length and order, each product
      replaced by itself with only `Foto` resolved. */
  function WithFotos(ps: seq<Producto>, rule: FotoRule, urls: UrlBuilders): (r: seq<Producto>)
    ensures |r| == |ps|
    ensures forall k :: 0 <= k < |ps| ==> r[k] == WithFoto(ps[k], rule, urls)
  {
    if ps == [] then [] else [WithFoto(ps[0], rule, urls)] + WithFotos(ps[1..], rule, urls)
  }

  /** Since resolving leaves ids, names and codes alone, it does not matter whether it
      happens before filtering (as in `Buscar`) or after (as in `StockGestion`). */
  lemma {:induction false} WithFotosCommutes(ps: seq<Producto>, rule: FotoRule, urls: UrlBuilders, d: map<int32, Stock>, query: string)
    ensures SinStock(WithFotos(ps, rule, urls), d) == WithFotos(SinStock(ps, d), rule, urls)
    ensures ConStock(WithFotos(ps, rule, urls), d) == WithFotos(ConStock(ps, d), rule, urls)
    ensures Matching(WithFotos(ps, rule, urls), query) == WithFotos(Matching(ps, query), rule, urls)
  {
    if ps != [] {
      WithFotosCommutes(ps[1..], rule, urls, d, query);
      var x := WithFoto(ps[0], rule, urls);
      var rs := WithFotos(ps, rule, urls);
      assert rs == [x] + WithFotos(ps[1..], rule, urls);
      assert rs[0] == x && rs[1..] == WithFotos(ps[1..], rule, urls);
      assert x.productoId == ps[0].productoId;
      assert MatchesQuery(x, query) == MatchesQuery(ps[0], query);
    }
  }

  /** `foreach (var p in productos) p.Foto = …(p.Foto);` over the fetched list. */
  method OverwriteFotos(a: array<Producto>, rule: FotoRule, urls: UrlBuilders)
    modifies a
    ensures a[..] == WithFotos(old(a[..]), rule, urls)
  {
    for i := 0 to a.Length
      invariant forall k :: 0 <= k < i ==> a[k] == WithFoto(old(a[k]), rule, urls)
      invariant forall k :: i <= k < a.Length ==> a[k] == old(a[k])
    {
      a[i] := WithFoto(a[i], rule, urls);
    }
  }
}
