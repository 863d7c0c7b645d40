/** CategoriaRepository: the JPQL and native queries over the `categorias` table as
    functions of the database state, and its two UPDATE statements as methods on the live
    Catalog. */
module CategoriaRepository {
  import opened Wrappers
  import opened Text
  import opened Entities
  import opened Store
  import opened SqlLike
  import Seqs

  /** More than one row for a query declared to return at most one. */
  datatype QueryError = IncorrectResultSize(count: nat)

  predicate Activa(c: Categoria) {
    !c.eliminado
  }

  predicate Eliminada(c: Categoria) {
    c.eliminado
  }

  /** `c.eliminado = false AND LOWER(c.nombre) = LOWER(:nombre)` */
  predicate ActivaConNombre(c: Categoria, nombre: string) {
    !c.eliminado && Fold(c.nombre) == Fold(nombre)
  }

  /** The filter of findByNombreIgnoreCase and existsByNombreIgnoreCase, as a value. */
  function ConNombre(nombre: string): Categoria -> bool {
    (c: Categoria) => ActivaConNombre(c, nombre)
  }

  /** JpaRepository.findById, inherited and not redeclared. The Categoria entity is not part
      of this model. This lookup is ASSUMED to see active categories only, because the
      service comments say so (CategoriaCommandServiceImpl.java:46 and :68,
      ProductoCommandServiceImpl.java:33). No mechanism in the repository is modelled as
      the cause: the including-deleted queries above and below still see every row. The
      "already deleted" branch of eliminarCategoria, the "category not found or deleted"
      branch of the product commands, and the rule that every active product is in an
      active category all depend on this assumption. */
  function FindById(db: Db, id: int): Option<Categoria> {
    if id in db.categorias && !db.categorias[id].eliminado then Some(db.categorias[id]) else None
  }

  /** `SELECT c FROM Categoria c WHERE c.id = :id` */
  function FindByIdIncludingDeleted(db: Db, id: int): Option<Categoria> {
    if id in db.categorias then Some(db.categorias[id]) else None
  }

  /** `SELECT COUNT(c) > 0 FROM Categoria c WHERE c.id = :id`: at most one row has the id. */
  predicate ExistsByIdIncludingDeleted(db: Db, id: int) {
    id in db.categorias
  }

  /** The active-only lookup is the unfiltered lookup restricted to active rows. */
  lemma FindByIdIsActiveLookup(db: Db, id: int)
    ensures ExistsByIdIncludingDeleted(db, id) <==> FindByIdIncludingDeleted(db, id).Some?
    ensures FindById(db, id).Some? ==> FindByIdIncludingDeleted(db, id) == FindById(db, id)
    ensures FindById(db, id).None? && FindByIdIncludingDeleted(db, id).Some? ==> FindByIdIncludingDeleted(db, id).value.eliminado
    ensures FindById(db, id).Some? ==> !FindById(db, id).value.eliminado
  {
  }

  /** `SELECT COUNT(c) > 0 FROM Categoria c WHERE c.eliminado = false AND LOWER(c.nombre) =
      LOWER(:nombre)`: some active category has this name, ignoring case. */
  predicate ExistsByNombreIgnoreCase(db: Db, nombre: string) {
    exists k :: k in db.categorias && ActivaConNombre(db.categorias[k], nombre)
  }

  /** The active rows with this name ignoring case, in id order. */
  function ActivasConNombre(db: Db, nombre: string): (r: seq<Categoria>)
    requires WellFormed(db)
    ensures forall c :: c in r <==> StoredCategoria(db, c) && ActivaConNombre(c, nombre)
  {
    FilterCategoriaRows(db, ConNombre(nombre));
    Seqs.Filter(ConNombre(nombre), CategoriaRows(db))
  }

  /** The filtered list is empty exactly when existence by name fails. */
  lemma ActivasConNombreEmptyIff(db: Db, nombre: string)
    requires WellFormed(db)
    ensures |ActivasConNombre(db, nombre)| == 0 <==> !ExistsByNombreIgnoreCase(db, nombre)
  {
    var matches := ActivasConNombre(db, nombre);
    if k :| k in db.categorias && ActivaConNombre(db.categorias[k], nombre) {
      assert StoredCategoria(db, db.categorias[k]);
      assert db.categorias[k] in matches;
      assert |matches| > 0;
    }
    if |matches| > 0 {
      var c := matches[0];
      assert c in matches;
      var k := c.id.value;
      assert k in db.categorias && ActivaConNombre(db.categorias[k], nombre);
      assert ExistsByNombreIgnoreCase(db, nombre);
    }
  }

  /** `SELECT c FROM Categoria c WHERE c.eliminado = false AND LOWER(c.nombre) = LOWER(:nombre)`
      into an Optional: no row gives empty, one row gives it, more than one is an error. */
  function FindByNombreIgnoreCase(db: Db, nombre: string): (r: Result<Option<Categoria>, QueryError>)
    requires WellFormed(db)
    ensures r.Ok? && r.value.Some? ==> StoredCategoria(db, r.value.value) && ActivaConNombre(r.value.value, nombre)
    ensures r == Ok(None) <==> !ExistsByNombreIgnoreCase(db, nombre)
  {
    var matches := ActivasConNombre(db, nombre);
    ActivasConNombreEmptyIff(db, nombre);
    if |matches| == 0 then Ok(None)
    else if |matches| == 1 then
      assert matches[0] in matches;
      Ok(Some(matches[0]))
    else Err(IncorrectResultSize(|matches|))
  }

  /** With active names unique, the Optional query never fails, and it finds a row exactly
      when existence by name holds. */
  lemma FindByNombreIgnoreCaseAgreesWithExists(db: Db, nombre: string)
    requires WellFormed(db) && UniqueActiveCategoriaNames(db)
    ensures FindByNombreIgnoreCase(db, nombre).Ok?
    ensures FindByNombreIgnoreCase(db, nombre).value.Some? <==> ExistsByNombreIgnoreCase(db, nombre)
  {
    var n := db.nextCategoriaId;
    var matches := ActivasConNombre(db, nombre);
    FilterRowsCount(db.categorias, 1, n, ConNombre(nombre));
    var keys := KeysWhere(db.categorias, 1, n, ConNombre(nombre));
    if |matches| > 0 {
      var a := matches[0].id.value;
      assert matches[0] in matches;
      assert keys == {a};
    }
  }

  /** `LOWER(c.nombre) LIKE LOWER(CONCAT('%', :nombre, '%'))` on an active row. */
  predicate ActivaQueContiene(c: Categoria, nombre: string) {
    !c.eliminado && Like(Fold(c.nombre), Fold(ContainingPattern(nombre)))
  }

  /** The active categories whose name matches the containing pattern, in id order. */
  function FindByNombreContainingIgnoreCase(db: Db, nombre: string): (r: seq<Categoria>)
    requires WellFormed(db)
    ensures forall c :: c in r <==> StoredCategoria(db, c) && ActivaQueContiene(c, nombre)
  {
    var p := (c: Categoria) => ActivaQueContiene(c, nombre);
    FilterCategoriaRows(db, p);
    Seqs.Filter(p, CategoriaRows(db))
  }

  /** For an argument without '%' or '_', the search is a case-insensitive substring search
      over the active categories. */
  lemma FindByNombreContainingIsSubstringSearch(db: Db, nombre: string, c: Categoria)
    requires WellFormed(db) && NoWildcards(nombre)
    ensures c in FindByNombreContainingIgnoreCase(db, nombre)
            <==> StoredCategoria(db, c) && !c.eliminado && ContainsIgnoreCase(c.nombre, nombre)
  {
    LikeIgnoreCaseIffContains(c.nombre, nombre);
  }

  /** `SELECT * FROM categorias WHERE eliminado = true` (no ORDER BY; modelled in id order). */
  function FindAllDeleted(db: Db): (r: seq<Categoria>)
    requires WellFormed(db)
    ensures forall c :: c in r <==> StoredCategoria(db, c) && c.eliminado
  {
    FilterCategoriaRows(db, Eliminada);
    Seqs.Filter(Eliminada, CategoriaRows(db))
  }

  /** Lists ordered by `nombre`, adjacent pairs in order. */
  predicate SortedByNombre(s: seq<Categoria>) {
    forall i :: 0 <= i < |s| - 1 ==> LessEq(s[i].nombre, s[i + 1].nombre)
  }

  /** Adjacent order gives order between any two positions. */
  lemma {:induction false} SortedByNombreAll(s: seq<Categoria>)
    requires SortedByNombre(s)
    ensures forall i, j :: 0 <= i < j < |s| ==> LessEq(s[i].nombre, s[j].nombre)
    decreases |s|
  {
    if |s| > 1 {
      SortedByNombreAll(s[1..]);
      forall j | 1 < j < |s| ensures LessEq(s[0].nombre, s[j].nombre) {
        assert s[1..][0] == s[1] && s[1..][j - 1] == s[j];
        LessEqTransitive(s[0].nombre, s[1].nombre, s[j].nombre);
      }
      forall i, j | 0 <= i < j < |s| ensures LessEq(s[i].nombre, s[j].nombre) {
        if i > 0 {
          assert s[1..][i - 1] == s[i] && s[1..][j - 1] == s[j];
        }
      }
    }
  }

  /** One step of insertion sort. */
  function InsertByNombre(c: Categoria, s: seq<Categoria>): (r: seq<Categoria>)
    requires SortedByNombre(s)
    ensures SortedByNombre(r)
    ensures multiset(r) == multiset(s) + multiset{c}
    ensures r[0] == c || (s != [] && r[0] == s[0])
  {
    if s == [] then [c]
    else if LessEq(c.nombre, s[0].nombre) then [c] + s
    else
      var rest := InsertByNombre(c, s[1..]);
      LessEqTotal(c.nombre, s[0].nombre);
      assert s == [s[0]] + s[1..];
      [s[0]] + rest
  }

  /** ORDER BY nombre, by insertion sort. */
  function SortByNombre(s: seq<Categoria>): (r: seq<Categoria>)
    ensures SortedByNombre(r)
    ensures multiset(r) == multiset(s)
  {
    if s == [] then []
    else
      assert s == [s[0]] + s[1..];
      InsertByNombre(s[0], SortByNombre(s[1..]))
  }

  /** `SELECT c FROM Categoria c WHERE c.eliminado = false ORDER BY c.nombre` */
  function FindAllActive(db: Db): (r: seq<Categoria>)
    requires WellFormed(db)
    ensures forall c :: c in r <==> StoredCategoria(db, c) && !c.eliminado
    ensures forall i, j :: 0 <= i < j < |r| ==> LessEq(r[i].nombre, r[j].nombre)
  {
    FilterCategoriaRows(db, Activa);
    var active := Seqs.Filter(Activa, CategoriaRows(db));
    var r := SortByNombre(active);
    SortedByNombreAll(r);
    assert forall c :: c in r <==> c in multiset(active);
    r
  }

  /** Every stored category is listed by exactly one of findAllActive and findAllDeleted. */
  lemma ActiveOrDeleted(db: Db, c: Categoria)
    requires WellFormed(db) && StoredCategoria(db, c)
    ensures c in FindAllActive(db) <==> c !in FindAllDeleted(db)
  {
  }

  /** The active and deleted keys split the table. */
  lemma KeysSplit(db: Db)
    requires WellFormed(db)
    ensures KeysWhere(db.categorias, 1, db.nextCategoriaId, Activa) + KeysWhere(db.categorias, 1, db.nextCategoriaId, Eliminada) == db.categorias.Keys
    ensures KeysWhere(db.categorias, 1, db.nextCategoriaId, Activa) * KeysWhere(db.categorias, 1, db.nextCategoriaId, Eliminada) == {}
  {
  }

  /** findAllActive and findAllDeleted together are as long as the table. */
  lemma ActiveAndDeletedCover(db: Db)
    requires WellFormed(db)
    ensures |FindAllActive(db)| + |FindAllDeleted(db)| == |db.categorias|
  {
    var n := db.nextCategoriaId;
    var active := Seqs.Filter(Activa, CategoriaRows(db));
    assert |FindAllActive(db)| == |multiset(SortByNombre(active))| == |active|;
    FilterRowsCount(db.categorias, 1, n, Activa);
    FilterRowsCount(db.categorias, 1, n, Eliminada);
    KeysSplit(db);
    var ka := KeysWhere(db.categorias, 1, n, Activa);
    var kd := KeysWhere(db.categorias, 1, n, Eliminada);
    assert |ka + kd| == |ka| + |kd|;
    assert |db.categorias.Keys| == |db.categorias|;
  }

  /** `SELECT COUNT(p) = 0 FROM Producto p WHERE p.categoria.id = :categoriaId AND
      p.eliminado = false`: no active product references the category. The category's own
      flag is not consulted. */
  predicate CanBeDeleted(db: Db, categoriaId: int) {
    forall k :: k in db.productos && db.productos[k].categoria == categoriaId ==> db.productos[k].eliminado
  }

  /** The table after `UPDATE Categoria c SET c.eliminado = :flag WHERE c.id = :id`. */
  function WithEliminado(m: map<int, Categoria>, id: int, flag: bool): (r: map<int, Categoria>)
    ensures r.Keys == m.Keys
    ensures forall k :: k in m && k != id ==> r[k] == m[k]
    ensures id in m ==> r[id] == m[id].(eliminado := flag)
  {
    if id in m then m[id := m[id].(eliminado := flag)] else m
  }

  /** Restoring a category that was just soft-deleted gives back the table it was. */
  lemma RestoreUndoesSoftDelete(m: map<int, Categoria>, id: int)
    requires id in m ==> !m[id].eliminado
    ensures WithEliminado(WithEliminado(m, id, true), id, false) == m
  {
    var r := WithEliminado(WithEliminado(m, id, true), id, false);
    assert r.Keys == m.Keys;
    forall k | k in m ensures r[k] == m[k] {
    }
  }

  /** Setting the flag twice is setting it once. */
  lemma WithEliminadoIdempotent(m: map<int, Categoria>, id: int, flag: bool)
    ensures WithEliminado(WithEliminado(m, id, flag), id, flag) == WithEliminado(m, id, flag)
  {
    var once := WithEliminado(m, id, flag);
    var twice := WithEliminado(once, id, flag);
    assert twice.Keys == once.Keys;
  }

  /** softDeleteById: `UPDATE Categoria c SET c.eliminado = true WHERE c.id = :id` */
  method SoftDeleteById(db: Catalog, id: int)
    requires db.Valid()
    modifies db
    ensures db.Valid()
    ensures db.Snapshot() == old(db.Snapshot()).(categorias := WithEliminado(old(db.categorias), id, true))
  {
    db.categorias := WithEliminado(db.categorias, id, true);
  }

  /** restoreById: `UPDATE Categoria c SET c.eliminado = false WHERE c.id = :id` */
  method RestoreById(db: Catalog, id: int)
    requires db.Valid()
    modifies db
    ensures db.Valid()
    ensures db.Snapshot() == old(db.Snapshot()).(categorias := WithEliminado(old(db.categorias), id, false))
  {
    db.categorias := WithEliminado(db.categorias, id, false);
  }

  /** JpaRepository.save: a row whose id is stored overwrites that row; any other row is
      inserted under the next generated id. Returns the id of the saved row. */
  method Save(db: Catalog, c: Categoria) returns (id: int)
    requires db.Valid()
    modifies db
    ensures db.Valid()
    ensures db.productos == old(db.productos) && db.nextProductoId == old(db.nextProductoId)
    ensures c.id.Some? && c.id.value in old(db.categorias) ==>
              && id == c.id.value
              && db.categorias == old(db.categorias)[id := c]
              && db.nextCategoriaId == old(db.nextCategoriaId)
    ensures !(c.id.Some? && c.id.value in old(db.categorias)) ==>
              && id == old(db.nextCategoriaId)
              && id !in old(db.categorias)
              && db.categorias == old(db.categorias)[id := c.(id := Some(id))]
              && db.nextCategoriaId == id + 1
  {
    if c.id.Some? && c.id.value in db.categorias {
      id := c.id.value;
      db.categorias := db.categorias[id := c];
    } else {
      id := db.nextCategoriaId;
      db.categorias := db.categorias[id := c.(id := Some(id))];
      db.nextCategoriaId := id + 1;
    }
  }
}
