/** ProductoRepository: the JPQL queries over the `productos` table, joined to `categorias`
    where they navigate `p.categoria`, as functions of the database state; its two UPDATE
    statements and `save` as methods on the live Catalog. */
module ProductoRepository {
  import opened Wrappers
  import opened Text
  import opened Entities
  import opened Store
  import opened SqlLike
  import CategoriaRepository
  import Seqs

  /** The NOT NULL `stock` column rejects the insert. */
  datatype SaveError = StockNulo

  predicate Activo(p: Producto) {
    !p.eliminado
  }

  predicate Eliminado(p: Producto) {
    p.eliminado
  }

  /** JpaRepository.findById, inherited and not redeclared. Nothing in Producto.java
      restricts it, so it sees deleted products too. */
  function FindById(db: Db, id: int): Option<Producto> {
    if id in db.productos then Some(db.productos[id]) else None
  }

  /** `SELECT p FROM Producto p WHERE p.id = :id` */
  function FindByIdIncludingDeleted(db: Db, id: int): Option<Producto> {
    if id in db.productos then Some(db.productos[id]) else None
  }

  /** `SELECT COUNT(p) > 0 FROM Producto p WHERE p.id = :id` */
  predicate ExistsByIdIncludingDeleted(db: Db, id: int) {
    id in db.productos
  }

  /** The product lookup by id does not filter on the flag: it finds a row exactly when the
      existence check does, and it is the same lookup as the one including deleted rows. */
  lemma FindByIdSeesDeleted(db: Db, id: int)
    ensures FindById(db, id).Some? <==> ExistsByIdIncludingDeleted(db, id)
    ensures FindById(db, id) == FindByIdIncludingDeleted(db, id)
  {
  }

  /** `p.eliminado = false AND LOWER(p.nombre) = LOWER(:nombre)` */
  predicate ActivoConNombre(p: Producto, nombre: string) {
    !p.eliminado && Fold(p.nombre) == Fold(nombre)
  }

  /** `SELECT COUNT(p) > 0 FROM Producto p WHERE p.eliminado = false AND LOWER(p.nombre) =
      LOWER(:nombre)`: some active product has this name, ignoring case. */
  predicate ExistsByNombreIgnoreCase(db: Db, nombre: string) {
    exists k :: k in db.productos && ActivoConNombre(db.productos[k], nombre)
  }

  /** `LOWER(p.nombre) LIKE LOWER(CONCAT('%', :nombre, '%'))` on an active row. */
  predicate ActivoQueContiene(p: Producto, nombre: string) {
    !p.eliminado && Like(Fold(p.nombre), Fold(ContainingPattern(nombre)))
  }

  /** `SELECT p FROM Producto p WHERE p.eliminado = false AND LOWER(p.nombre) LIKE
      LOWER(CONCAT('%', :nombre, '%'))` */
  function FindByNombreContainingIgnoreCase(db: Db, nombre: string): (r: seq<Producto>)
    requires WellFormed(db)
    ensures forall p :: p in r <==> StoredProducto(db, p) && ActivoQueContiene(p, nombre)
  {
    var f := (p: Producto) => ActivoQueContiene(p, nombre);
    FilterProductoRows(db, f);
    Seqs.Filter(f, ProductoRows(db))
  }

  /** For an argument without '%' or '_', the search is a case-insensitive substring search
      over the active products. */
  lemma FindByNombreContainingIsSubstringSearch(db: Db, nombre: string, p: Producto)
    requires WellFormed(db) && NoWildcards(nombre)
    ensures p in FindByNombreContainingIgnoreCase(db, nombre)
            <==> StoredProducto(db, p) && !p.eliminado && ContainsIgnoreCase(p.nombre, nombre)
  {
    LikeIgnoreCaseIffContains(p.nombre, nombre);
  }

  /** `p.eliminado = false AND p.categoria.id = :categoriaId AND p.categoria.eliminado = false` */
  predicate ActivoDeCategoriaActiva(db: Db, p: Producto, categoriaId: int) {
    !p.eliminado && p.categoria == categoriaId && InActiveCategoria(db, p)
  }

  /** The filter of findByCategoriaId and countActiveByCategoriaId, as a value. */
  function DeCategoriaActiva(db: Db, categoriaId: int): Producto -> bool {
    (p: Producto) => ActivoDeCategoriaActiva(db, p, categoriaId)
  }

  /** `SELECT p FROM Producto p WHERE p.eliminado = false AND p.categoria.id = :categoriaId
      AND p.categoria.eliminado = false` */
  function FindByCategoriaId(db: Db, categoriaId: int): (r: seq<Producto>)
    requires WellFormed(db)
    ensures forall p :: p in r <==> StoredProducto(db, p) && ActivoDeCategoriaActiva(db, p, categoriaId)
  {
    FilterProductoRows(db, DeCategoriaActiva(db, categoriaId));
    Seqs.Filter(DeCategoriaActiva(db, categoriaId), ProductoRows(db))
  }

  /** A deleted (or missing) category has no products by this query. */
  lemma FindByCategoriaIdOfInactiveCategoria(db: Db, categoriaId: int)
    requires WellFormed(db)
    requires categoriaId !in db.categorias || db.categorias[categoriaId].eliminado
    ensures FindByCategoriaId(db, categoriaId) == []
  {
    Seqs.EmptyIfNoMember(FindByCategoriaId(db, categoriaId));
  }

  /** `SELECT COUNT(p) FROM Producto p WHERE p.eliminado = false AND p.categoria.id =
      :categoriaId AND p.categoria.eliminado = false` */
  function CountActiveByCategoriaId(db: Db, categoriaId: int): nat {
    |set k | k in db.productos && ActivoDeCategoriaActiva(db, db.productos[k], categoriaId)|
  }

  /** The COUNT agrees with the length of the list that findByCategoriaId returns. */
  lemma CountIsLengthOfFindByCategoriaId(db: Db, categoriaId: int)
    requires WellFormed(db)
    ensures CountActiveByCategoriaId(db, categoriaId) == |FindByCategoriaId(db, categoriaId)|
  {
    var f := DeCategoriaActiva(db, categoriaId);
    FilterRowsCount(db.productos, 1, db.nextProductoId, f);
    assert KeysWhere(db.productos, 1, db.nextProductoId, f)
        == set k | k in db.productos && ActivoDeCategoriaActiva(db, db.productos[k], categoriaId);
  }

  /** For an active category the count is zero exactly when canBeDeleted holds; for a deleted
      or missing one the count is zero whatever its products are. */
  lemma CountZeroIffCanBeDeleted(db: Db, categoriaId: int)
    requires WellFormed(db)
    ensures categoriaId in db.categorias && !db.categorias[categoriaId].eliminado ==>
              (CountActiveByCategoriaId(db, categoriaId) == 0 <==> CategoriaRepository.CanBeDeleted(db, categoriaId))
    ensures (categoriaId !in db.categorias || db.categorias[categoriaId].eliminado) ==>
              CountActiveByCategoriaId(db, categoriaId) == 0
  {
    CountIsLengthOfFindByCategoriaId(db, categoriaId);
    var r := FindByCategoriaId(db, categoriaId);
    if categoriaId !in db.categorias || db.categorias[categoriaId].eliminado {
      FindByCategoriaIdOfInactiveCategoria(db, categoriaId);
    } else if CategoriaRepository.CanBeDeleted(db, categoriaId) {
      forall x ensures StoredProducto(db, x) ==> !ActivoDeCategoriaActiva(db, x, categoriaId) {
        if StoredProducto(db, x) {
          var k := x.id.value;
          assert db.productos[k] == x;
          assert k in db.productos && db.productos[k].categoria == categoriaId ==> db.productos[k].eliminado;
        }
      }
      Seqs.EmptyIfNoMember(r);
    } else {
      var k :| k in db.productos && db.productos[k].categoria == categoriaId && !db.productos[k].eliminado;
      assert db.productos[k] in r;
    }
  }

  /** `SELECT p FROM Producto p WHERE p.eliminado = false AND p.precio BETWEEN :precioMin AND
      :precioMax`: both bounds included; a null price never matches. */
  function FindByPrecioBetween(db: Db, precioMin: real, precioMax: real): (r: seq<Producto>)
    requires WellFormed(db)
    ensures forall p :: p in r <==> StoredProducto(db, p) && !p.eliminado && p.precio.Some? && precioMin <= p.precio.value <= precioMax
  {
    var f := (p: Producto) => !p.eliminado && p.precio.Some? && precioMin <= p.precio.value <= precioMax;
    FilterProductoRows(db, f);
    Seqs.Filter(f, ProductoRows(db))
  }

  /** `SELECT p FROM Producto p WHERE p.eliminado = false AND p.stock > :stock`: strict. */
  function FindByStockGreaterThan(db: Db, stock: int): (r: seq<Producto>)
    requires WellFormed(db)
    ensures forall p :: p in r <==> StoredProducto(db, p) && !p.eliminado && p.stock.Some? && p.stock.value > stock
  {
    var f := (p: Producto) => !p.eliminado && p.stock.Some? && p.stock.value > stock;
    FilterProductoRows(db, f);
    Seqs.Filter(f, ProductoRows(db))
  }

  /** `p.eliminado = false AND c.eliminado = false` over `JOIN FETCH p.categoria c` */
  predicate ActivoConCategoriaActiva(db: Db, p: Producto) {
    !p.eliminado && InActiveCategoria(db, p)
  }

  /** `SELECT p FROM Producto p JOIN FETCH p.categoria c WHERE p.id = :id AND p.eliminado =
      false AND c.eliminado = false` */
  function FindByIdWithCategoria(db: Db, id: int): (r: Option<Producto>)
    ensures r.Some? <==> id in db.productos && ActivoConCategoriaActiva(db, db.productos[id])
    ensures r.Some? ==> r == FindById(db, id)
  {
    if id in db.productos && ActivoConCategoriaActiva(db, db.productos[id]) then Some(db.productos[id]) else None
  }

  /** `SELECT p FROM Producto p JOIN FETCH p.categoria c WHERE p.eliminado = false AND
      c.eliminado = false` */
  function FindAllWithCategoria(db: Db): (r: seq<Producto>)
    requires WellFormed(db)
    ensures forall p :: p in r <==> StoredProducto(db, p) && ActivoConCategoriaActiva(db, p)
  {
    var f := (p: Producto) => ActivoConCategoriaActiva(db, p);
    FilterProductoRows(db, f);
    Seqs.Filter(f, ProductoRows(db))
  }

  /** `SELECT p FROM Producto p WHERE p.eliminado = true` */
  function FindAllDeleted(db: Db): (r: seq<Producto>)
    requires WellFormed(db)
    ensures forall p :: p in r <==> StoredProducto(db, p) && p.eliminado
  {
    FilterProductoRows(db, Eliminado);
    Seqs.Filter(Eliminado, ProductoRows(db))
  }

  /** No product is both listed with its category and listed as deleted. */
  lemma WithCategoriaAndDeletedDisjoint(db: Db, p: Producto)
    requires WellFormed(db)
    ensures !(p in FindAllWithCategoria(db) && p in FindAllDeleted(db))
  {
  }

  /** The table after `UPDATE Producto p SET p.eliminado = :flag WHERE p.id = :id`. */
  function WithEliminado(m: map<int, Producto>, id: int, flag: bool): (r: map<int, Producto>)
    ensures r.Keys == m.Keys
    ensures forall k :: k in m && k != id ==> r[k] == m[k]
    ensures id in m ==> r[id] == m[id].(eliminado := flag)
  {
    if id in m then m[id := m[id].(eliminado := flag)] else m
  }

  /** Restoring a product that was just soft-deleted gives back the table it was. */
  lemma RestoreUndoesSoftDelete(m: map<int, Producto>, id: int)
    requires id in m ==> !m[id].eliminado
    ensures WithEliminado(WithEliminado(m, id, true), id, false) == m
  {
    var r := WithEliminado(WithEliminado(m, id, true), id, false);
    assert r.Keys == m.Keys;
    forall k | k in m ensures r[k] == m[k] {
    }
  }

  /** Setting the flag twice is setting it once. */
  lemma WithEliminadoIdempotent(m: map<int, Producto>, id: int, flag: bool)
    ensures WithEliminado(WithEliminado(m, id, flag), id, flag) == WithEliminado(m, id, flag)
  {
    var once := WithEliminado(m, id, flag);
    var twice := WithEliminado(once, id, flag);
    assert twice.Keys == once.Keys;
  }

  /** softDeleteById: `UPDATE Producto p SET p.eliminado = true WHERE p.id = :id` */
  method SoftDeleteById(db: Catalog, id: int)
    requires db.Valid()
    modifies db
    ensures db.Valid()
    ensures db.Snapshot() == old(db.Snapshot()).(productos := WithEliminado(old(db.productos), id, true))
  {
    db.productos := WithEliminado(db.productos, id, true);
  }

  /** restoreById: `UPDATE Producto p SET p.eliminado = false WHERE p.id = :id` */
  method RestoreById(db: Catalog, id: int)
    requires db.Valid()
    modifies db
    ensures db.Valid()
    ensures db.Snapshot() == old(db.Snapshot()).(productos := WithEliminado(old(db.productos), id, false))
  {
    db.productos := WithEliminado(db.productos, id, false);
  }

  /** JpaRepository.save: a row whose id is stored overwrites that row; any other row is
      inserted under the next generated id. A null stock violates the NOT NULL column and
      nothing is written. The category reference is a loaded row, so its key exists. */
  method Save(db: Catalog, p: Producto) returns (r: Result<int, SaveError>)
    requires db.Valid()
    requires p.categoria in db.categorias
    modifies db
    ensures db.Valid()
    ensures db.categorias == old(db.categorias) && db.nextCategoriaId == old(db.nextCategoriaId)
    ensures r.Err? <==> p.stock.None?
    ensures r.Err? ==> db.Snapshot() == old(db.Snapshot())
    ensures r.Ok? && p.id.Some? && p.id.value in old(db.productos) ==>
              && r.value == p.id.value
              && db.productos == old(db.productos)[r.value := p]
              && db.nextProductoId == old(db.nextProductoId)
    ensures r.Ok? && !(p.id.Some? && p.id.value in old(db.productos)) ==>
              && r.value == old(db.nextProductoId)
              && r.value !in old(db.productos)
              && db.productos == old(db.productos)[r.value := p.(id := Some(r.value))]
              && db.nextProductoId == r.value + 1
  {
    if p.stock.None? {
      return Err(StockNulo);
    }
    var id: int;
    if p.id.Some? && p.id.value in db.productos {
      id := p.id.value;
      db.productos := db.productos[id := p];
    } else {
      id := db.nextProductoId;
      db.productos := db.productos[id := p.(id := Some(id))];
      db.nextProductoId := id + 1;
    }
    r := Ok(id);
  }
}
