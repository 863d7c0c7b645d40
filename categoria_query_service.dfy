/** The category queries: each composes a repository read with the query mapper. They are
    functions of the database state, so none of them changes it (the class runs in a
    read-only transaction). */
module CategoriaQueryService {
  import opened Wrappers
  import opened Text
  import opened Entities
  import opened Store
  import opened CategoriaQueryMapper
  import opened JavaInt
  import CR = CategoriaRepository
  import PR = ProductoRepository
  import Seqs

  /** d is the DTO of the category row stored under d's id. */
  predicate DTOOfStored(db: Db, d: CategoriaDTO) {
    d.id.Some? && d.id.value in db.categorias && ToDTO(db.categorias[d.id.value]) == d
  }

  /** obtenerTodasLasCategorias: the DTOs of exactly the active categories, in name order. */
  function ObtenerTodasLasCategorias(db: Db): (r: seq<CategoriaDTO>)
    requires WellFormed(db)
    ensures forall i :: 0 <= i < |r| ==> DTOOfStored(db, r[i]) && r[i].eliminado == Some(false)
    ensures forall k :: k in db.categorias && !db.categorias[k].eliminado ==> ToDTO(db.categorias[k]) in r
    ensures forall i, j :: 0 <= i < j < |r| ==> LessEq(r[i].nombre, r[j].nombre)
  {
    var active := CR.FindAllActive(db);
    Seqs.MapContains(ToDTO, active);
    assert forall k :: k in db.categorias ==> StoredCategoria(db, db.categorias[k]);
    ToDTOList(active)
  }

  /** obtenerCategoriaPorId: the DTO of the category when it is active, empty otherwise. */
  function ObtenerCategoriaPorId(db: Db, id: int): (r: Option<CategoriaDTO>)
    ensures r.Some? <==> id in db.categorias && !db.categorias[id].eliminado
    ensures r.Some? ==> r.value == ToDTO(db.categorias[id]) && r.value.eliminado == Some(false)
  {
    match CR.FindById(db, id)
    case None => None
    case Some(c) => Some(ToDTO(c))
  }

  /** buscarCategoriasPorNombre: the DTOs of exactly the active categories whose name matches
      the containing pattern ignoring case. */
  function BuscarCategoriasPorNombre(db: Db, nombre: string): (r: seq<CategoriaDTO>)
    requires WellFormed(db)
    ensures forall i :: 0 <= i < |r| ==>
              DTOOfStored(db, r[i]) && CR.ActivaQueContiene(db.categorias[r[i].id.value], nombre)
    ensures forall k :: k in db.categorias && CR.ActivaQueContiene(db.categorias[k], nombre) ==>
              ToDTO(db.categorias[k]) in r
  {
    var found := CR.FindByNombreContainingIgnoreCase(db, nombre);
    Seqs.MapContains(ToDTO, found);
    assert forall k :: k in db.categorias ==> StoredCategoria(db, db.categorias[k]);
    ToDTOList(found)
  }

  /** The DTO of one category with its number of active products, narrowed to an int. */
  function ConConteo(db: Db): Categoria -> CategoriaDTO {
    (c: Categoria) =>
      ToDTO(c).(cantidadProductos := Some(IntValue(PR.CountActiveByCategoriaId(db, c.id.GetOr(0)))))
  }

  /** obtenerCategoriasConConteoProductos: one DTO per active category, in name order, each
      carrying the COUNT of active products of an active category with that id; estado stays
      null. */
  function ObtenerCategoriasConConteoProductos(db: Db): (r: seq<CategoriaDTO>)
    requires WellFormed(db)
    ensures |r| == |ObtenerTodasLasCategorias(db)|
    ensures forall i :: 0 <= i < |r| ==>
              && r[i].(cantidadProductos := None) == ObtenerTodasLasCategorias(db)[i]
              && r[i].id.Some?
              && r[i].cantidadProductos == Some(IntValue(|PR.FindByCategoriaId(db, r[i].id.value)|))
  {
    var active := CR.FindAllActive(db);
    var r := Seqs.Map(ConConteo(db), active);
    forall i | 0 <= i < |r|
      ensures r[i].id.Some? && r[i].cantidadProductos == Some(IntValue(|PR.FindByCategoriaId(db, r[i].id.value)|))
    {
      assert active[i] in active;
      PR.CountIsLengthOfFindByCategoriaId(db, r[i].id.value);
    }
    r
  }

  /** With fewer than 2^31 products the narrowing changes nothing: each count is exact. */
  lemma ConteoIsExact(db: Db, i: int)
    requires WellFormed(db) && |db.productos| <= MAX_INT
    requires 0 <= i < |ObtenerCategoriasConConteoProductos(db)|
    ensures var d := ObtenerCategoriasConConteoProductos(db)[i];
            d.cantidadProductos == Some(PR.CountActiveByCategoriaId(db, d.id.value))
  {
    var d := ObtenerCategoriasConConteoProductos(db)[i];
    var c := d.id.value;
    var s := set k | k in db.productos && PR.ActivoDeCategoriaActiva(db, db.productos[k], c);
    SubsetCardinality(s, db.productos.Keys);
    PR.CountIsLengthOfFindByCategoriaId(db, c);
    IntValueOfInt(PR.CountActiveByCategoriaId(db, c));
  }

  /** A subset is no larger than its superset. */
  lemma {:induction false} SubsetCardinality<T>(a: set<T>, b: set<T>)
    requires a <= b
    ensures |a| <= |b|
    decreases |b|
  {
    if a != {} {
      var x :| x in a;
      SubsetCardinality(a - {x}, b - {x});
    }
  }

  /** obtenerCategoriasEliminadas: the DTOs of exactly the deleted categories. */
  function ObtenerCategoriasEliminadas(db: Db): (r: seq<CategoriaDTO>)
    requires WellFormed(db)
    ensures forall i :: 0 <= i < |r| ==> DTOOfStored(db, r[i]) && r[i].eliminado == Some(true)
    ensures forall k :: k in db.categorias && db.categorias[k].eliminado ==> ToDTO(db.categorias[k]) in r
  {
    var deleted := CR.FindAllDeleted(db);
    Seqs.MapContains(ToDTO, deleted);
    assert forall k :: k in db.categorias ==> StoredCategoria(db, db.categorias[k]);
    ToDTOList(deleted)
  }

  /** obtenerCategoriasConEstado: the active categories in name order with their estado, which
      is therefore always "ACTIVA". */
  function ObtenerCategoriasConEstado(db: Db): (r: seq<CategoriaDTO>)
    requires WellFormed(db)
    ensures |r| == |ObtenerTodasLasCategorias(db)|
    ensures forall i :: 0 <= i < |r| ==>
              r[i] == ObtenerTodasLasCategorias(db)[i].(estado := Some(ACTIVA))
  {
    var active := CR.FindAllActive(db);
    var r := Seqs.Map(ToDTOWithStatus, active);
    forall i | 0 <= i < |r| ensures r[i] == ObtenerTodasLasCategorias(db)[i].(estado := Some(ACTIVA)) {
      assert active[i] in active;
    }
    r
  }
}
