/** The database both repositories work on: the `categorias` and `productos` tables keyed
    by id, each with its own IDENTITY counter, and the invariants the command services keep. */
module Store {
  import opened Wrappers
  import opened Text
  import opened Entities
  import Seqs

  datatype Db = Db(
    categorias: map<int, Categoria>,
    productos: map<int, Producto>,
    nextCategoriaId: int,
    nextProductoId: int)

  /** Structural facts of every stored state: ids are generated from 1 upward and below the
      counter, each row carries its own key, each product references an existing category
      (the foreign key) and has a stock (the NOT NULL column of Producto.java). */
  predicate WellFormed(db: Db) {
    && db.nextCategoriaId >= 1
    && db.nextProductoId >= 1
    && (forall k :: k in db.categorias ==> 1 <= k < db.nextCategoriaId && db.categorias[k].id == Some(k))
    && (forall k :: k in db.productos ==>
          && 1 <= k < db.nextProductoId
          && db.productos[k].id == Some(k)
          && db.productos[k].categoria in db.categorias
          && db.productos[k].stock.Some?)
  }

  /** No two active categories have the same name ignoring case. */
  predicate UniqueActiveCategoriaNames(db: Db) {
    forall a, b ::
      a in db.categorias && b in db.categorias
      && !db.categorias[a].eliminado && !db.categorias[b].eliminado
      && Fold(db.categorias[a].nombre) == Fold(db.categorias[b].nombre)
      ==> a == b
  }

  /** No two active products have the same name ignoring case. */
  predicate UniqueActiveProductoNames(db: Db) {
    forall a, b ::
      a in db.productos && b in db.productos
      && !db.productos[a].eliminado && !db.productos[b].eliminado
      && Fold(db.productos[a].nombre) == Fold(db.productos[b].nombre)
      ==> a == b
  }

  /** The category of a product, when its row exists. */
  predicate InActiveCategoria(db: Db, p: Producto) {
    p.categoria in db.categorias && !db.categorias[p.categoria].eliminado
  }

  /** Every active product belongs to an active category. */
  predicate ActiveProductsInActiveCategories(db: Db) {
    forall k :: k in db.productos && !db.productos[k].eliminado ==> InActiveCategoria(db, db.productos[k])
  }

  /** The business invariants the command services maintain. */
  predicate Consistent(db: Db) {
    UniqueActiveCategoriaNames(db) && UniqueActiveProductoNames(db) && ActiveProductsInActiveCategories(db)
  }

  /** The rows of table m with keys in [lo, hi), in ascending key order: a table scan. */
  function RowsFrom<T>(m: map<int, T>, lo: int, hi: int): seq<T>
    decreases hi - lo
  {
    if lo >= hi then [] else (if lo in m then [m[lo]] else []) + RowsFrom(m, lo + 1, hi)
  }

  /** The keys of table m in [lo, hi) whose row satisfies p. */
  function KeysWhere<T>(m: map<int, T>, lo: int, hi: int, p: T -> bool): set<int> {
    set k | k in m && lo <= k < hi && p(m[k])
  }

  /** A scan lists a row exactly when some key in range holds it. */
  lemma {:induction false} RowsFromMembership<T>(m: map<int, T>, lo: int, hi: int, x: T)
    ensures x in RowsFrom(m, lo, hi) <==> exists k :: lo <= k < hi && k in m && m[k] == x
    decreases hi - lo
  {
    if lo < hi {
      RowsFromMembership(m, lo + 1, hi, x);
      var head := if lo in m then [m[lo]] else [];
      assert x in RowsFrom(m, lo, hi) <==> x in head || x in RowsFrom(m, lo + 1, hi);
      if x in RowsFrom(m, lo + 1, hi) {
        var k :| lo + 1 <= k < hi && k in m && m[k] == x;
        assert lo <= k < hi;
      }
    }
  }

  /** The number of rows a filtered scan lists is the number of matching keys: a COUNT over
      the same condition. */
  lemma {:induction false} FilterRowsCount<T>(m: map<int, T>, lo: int, hi: int, p: T -> bool)
    ensures |Seqs.Filter(p, RowsFrom(m, lo, hi))| == |KeysWhere(m, lo, hi, p)|
    decreases hi - lo
  {
    if lo >= hi {
      assert KeysWhere(m, lo, hi, p) == {};
    } else {
      FilterRowsCount(m, lo + 1, hi, p);
      var head := if lo in m then [m[lo]] else [];
      Seqs.FilterConcat(p, head, RowsFrom(m, lo + 1, hi));
      if lo in m && p(m[lo]) {
        assert Seqs.Filter(p, head) == [m[lo]];
        assert KeysWhere(m, lo, hi, p) == {lo} + KeysWhere(m, lo + 1, hi, p);
      } else {
        assert Seqs.Filter(p, head) == [];
        assert KeysWhere(m, lo, hi, p) == KeysWhere(m, lo + 1, hi, p);
      }
    }
  }

  /** All category rows, in ascending id order. */
  function CategoriaRows(db: Db): seq<Categoria> {
    RowsFrom(db.categorias, 1, db.nextCategoriaId)
  }

  /** All product rows, in ascending id order. */
  function ProductoRows(db: Db): seq<Producto> {
    RowsFrom(db.productos, 1, db.nextProductoId)
  }

  /** c is the row stored under its own id. */
  predicate StoredCategoria(db: Db, c: Categoria) {
    c.id.Some? && c.id.value in db.categorias && db.categorias[c.id.value] == c
  }

  /** p is the row stored under its own id. */
  predicate StoredProducto(db: Db, p: Producto) {
    p.id.Some? && p.id.value in db.productos && db.productos[p.id.value] == p
  }

  /** On a well-formed state the scan lists every category row and nothing else. */
  lemma CategoriaRowsMembership(db: Db)
    requires WellFormed(db)
    ensures forall c :: c in CategoriaRows(db) <==> StoredCategoria(db, c)
  {
    forall c ensures c in CategoriaRows(db) <==> StoredCategoria(db, c) {
      RowsFromMembership(db.categorias, 1, db.nextCategoriaId, c);
      if StoredCategoria(db, c) {
        var k := c.id.value;
        assert 1 <= k < db.nextCategoriaId && k in db.categorias && db.categorias[k] == c;
      }
    }
  }

  /** On a well-formed state the scan lists every product row and nothing else. */
  lemma ProductoRowsMembership(db: Db)
    requires WellFormed(db)
    ensures forall p :: p in ProductoRows(db) <==> StoredProducto(db, p)
  {
    forall p ensures p in ProductoRows(db) <==> StoredProducto(db, p) {
      RowsFromMembership(db.productos, 1, db.nextProductoId, p);
      if StoredProducto(db, p) {
        var k := p.id.value;
        assert 1 <= k < db.nextProductoId && k in db.productos && db.productos[k] == p;
      }
    }
  }

  /** A filtered category scan holds exactly the stored rows satisfying the filter. */
  lemma FilterCategoriaRows(db: Db, p: Categoria -> bool)
    requires WellFormed(db)
    ensures forall c :: c in Seqs.Filter(p, CategoriaRows(db)) <==> StoredCategoria(db, c) && p(c)
  {
    CategoriaRowsMembership(db);
    forall c ensures c in Seqs.Filter(p, CategoriaRows(db)) <==> StoredCategoria(db, c) && p(c) {
      Seqs.FilterMembership(p, CategoriaRows(db), c);
    }
  }

  /** A filtered product scan holds exactly the stored rows satisfying the filter. */
  lemma FilterProductoRows(db: Db, p: Producto -> bool)
    requires WellFormed(db)
    ensures forall x :: x in Seqs.Filter(p, ProductoRows(db)) <==> StoredProducto(db, x) && p(x)
  {
    ProductoRowsMembership(db);
    forall x ensures x in Seqs.Filter(p, ProductoRows(db)) <==> StoredProducto(db, x) && p(x) {
      Seqs.FilterMembership(p, ProductoRows(db), x);
    }
  }

  /** The live database: the two tables and their id counters. */
  class Catalog {
    var categorias: map<int, Categoria>
    var productos: map<int, Producto>
    var nextCategoriaId: int
    var nextProductoId: int

    /** The current contents as a value, for the read-only queries. */
    function Snapshot(): Db
      reads this
    {
      Db(categorias, productos, nextCategoriaId, nextProductoId)
    }

    predicate Valid()
      reads this
    {
      WellFormed(Snapshot())
    }

    /** An empty database whose first generated ids are 1. */
    constructor ()
      ensures Valid() && Consistent(Snapshot())
      ensures Snapshot() == Db(map[], map[], 1, 1)
    {
      categorias := map[];
      productos := map[];
      nextCategoriaId := 1;
      nextProductoId := 1;
    }
  }
}
