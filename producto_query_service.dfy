/** The product queries: each composes a repository read with the query mapper. They are
    functions of the database state, so none of them changes it (the class runs in a
    read-only transaction). obtenerProductosConPrecioFormateado is not part of this model. */
module ProductoQueryService {
  import opened Wrappers
  import opened Entities
  import opened Store
  import opened ProductoQueryMapper
  import PR = ProductoRepository
  import Seqs

  /** d is the DTO of the product row stored under d's id. */
  predicate DTOOfStored(db: Db, d: ProductoDTO) {
    d.id.Some? && d.id.value in db.productos && ToDTO(db, db.productos[d.id.value]) == d
  }

  /** The DTO list of a list of stored rows: each DTO belongs to the row it came from, and
      each row's DTO is listed. */
  lemma DTOListOfStored(db: Db, s: seq<Producto>)
    requires WellFormed(db)
    requires forall p :: p in s ==> StoredProducto(db, p)
    ensures forall i :: 0 <= i < |s| ==>
              s[i].id.Some? && DTOOfStored(db, ToDTOList(db, s)[i]) && db.productos[s[i].id.value] == s[i]
    ensures forall p :: p in s ==> ToDTO(db, p) in ToDTOList(db, s)
  {
    Seqs.MapContains(DTOFn(db), s);
    forall i | 0 <= i < |s|
      ensures s[i].id.Some? && DTOOfStored(db, ToDTOList(db, s)[i]) && db.productos[s[i].id.value] == s[i]
    {
      assert s[i] in s;
    }
  }

  /** obtenerTodosLosProductos: the DTOs of exactly the active products of active categories. */
  function ObtenerTodosLosProductos(db: Db): (r: seq<ProductoDTO>)
    requires WellFormed(db)
    ensures forall i :: 0 <= i < |r| ==>
              DTOOfStored(db, r[i]) && PR.ActivoConCategoriaActiva(db, db.productos[r[i].id.value])
    ensures forall k :: k in db.productos && PR.ActivoConCategoriaActiva(db, db.productos[k]) ==>
              ToDTO(db, db.productos[k]) in r
  {
    var rows := PR.FindAllWithCategoria(db);
    DTOListOfStored(db, rows);
    assert forall k :: k in db.productos ==> StoredProducto(db, db.productos[k]);
    ToDTOList(db, rows)
  }

  /** obtenerProductoPorId: the DTO of the product when it and its category are active, empty
      whenever either is deleted. */
  function ObtenerProductoPorId(db: Db, id: int): (r: Option<ProductoDTO>)
    ensures r.Some? <==> id in db.productos && PR.ActivoConCategoriaActiva(db, db.productos[id])
    ensures r.Some? ==> r.value == ToDTO(db, db.productos[id])
  {
    match PR.FindByIdWithCategoria(db, id)
    case None => None
    case Some(p) => Some(ToDTO(db, p))
  }

  /** buscarProductosPorNombre: the DTOs of exactly the active products whose name matches the
      containing pattern ignoring case. */
  function BuscarProductosPorNombre(db: Db, nombre: string): (r: seq<ProductoDTO>)
    requires WellFormed(db)
    ensures forall i :: 0 <= i < |r| ==>
              DTOOfStored(db, r[i]) && PR.ActivoQueContiene(db.productos[r[i].id.value], nombre)
    ensures forall k :: k in db.productos && PR.ActivoQueContiene(db.productos[k], nombre) ==>
              ToDTO(db, db.productos[k]) in r
  {
    var rows := PR.FindByNombreContainingIgnoreCase(db, nombre);
    DTOListOfStored(db, rows);
    assert forall k :: k in db.productos ==> StoredProducto(db, db.productos[k]);
    ToDTOList(db, rows)
  }

  /** obtenerProductosPorCategoria: the DTOs of exactly the active products of the category,
      and none when the category is deleted. */
  function ObtenerProductosPorCategoria(db: Db, categoriaId: int): (r: seq<ProductoDTO>)
    requires WellFormed(db)
    ensures forall i :: 0 <= i < |r| ==>
              DTOOfStored(db, r[i]) && PR.ActivoDeCategoriaActiva(db, db.productos[r[i].id.value], categoriaId)
    ensures forall k :: k in db.productos && PR.ActivoDeCategoriaActiva(db, db.productos[k], categoriaId) ==>
              ToDTO(db, db.productos[k]) in r
    ensures (categoriaId !in db.categorias || db.categorias[categoriaId].eliminado) ==> r == []
  {
    var rows := PR.FindByCategoriaId(db, categoriaId);
    DTOListOfStored(db, rows);
    assert forall k :: k in db.productos ==> StoredProducto(db, db.productos[k]);
    if categoriaId !in db.categorias || db.categorias[categoriaId].eliminado then
      PR.FindByCategoriaIdOfInactiveCategoria(db, categoriaId);
      ToDTOList(db, rows)
    else
      ToDTOList(db, rows)
  }

  /** obtenerProductosPorRangoPrecio: the DTOs of exactly the active products whose price lies
      between the bounds, both included. */
  function ObtenerProductosPorRangoPrecio(db: Db, precioMin: real, precioMax: real): (r: seq<ProductoDTO>)
    requires WellFormed(db)
    ensures forall i :: 0 <= i < |r| ==>
              && DTOOfStored(db, r[i]) && r[i].eliminado == Some(false)
              && r[i].precio.Some? && precioMin <= r[i].precio.value <= precioMax
    ensures forall k ::
              (k in db.productos && !db.productos[k].eliminado && db.productos[k].precio.Some?
               && precioMin <= db.productos[k].precio.value <= precioMax) ==>
              ToDTO(db, db.productos[k]) in r
  {
    var rows := PR.FindByPrecioBetween(db, precioMin, precioMax);
    DTOListOfStored(db, rows);
    assert forall k :: k in db.productos ==> StoredProducto(db, db.productos[k]);
    ToDTOList(db, rows)
  }

  /** obtenerProductosEnStock: the DTOs of exactly the active products with stock strictly
      above the argument. */
  function ObtenerProductosEnStock(db: Db, stockMinimo: int): (r: seq<ProductoDTO>)
    requires WellFormed(db)
    ensures forall i :: 0 <= i < |r| ==>
              && DTOOfStored(db, r[i]) && r[i].eliminado == Some(false)
              && r[i].stock.Some? && r[i].stock.value > stockMinimo
    ensures forall k ::
              (k in db.productos && !db.productos[k].eliminado && db.productos[k].stock.Some?
               && db.productos[k].stock.value > stockMinimo) ==>
              ToDTO(db, db.productos[k]) in r
  {
    var rows := PR.FindByStockGreaterThan(db, stockMinimo);
    DTOListOfStored(db, rows);
    assert forall k :: k in db.productos ==> StoredProducto(db, db.productos[k]);
    ToDTOList(db, rows)
  }

  /** obtenerProductosEliminados: the DTOs of exactly the deleted products. */
  function ObtenerProductosEliminados(db: Db): (r: seq<ProductoDTO>)
    requires WellFormed(db)
    ensures forall i :: 0 <= i < |r| ==> DTOOfStored(db, r[i]) && r[i].eliminado == Some(true)
    ensures forall k :: k in db.productos && db.productos[k].eliminado ==> ToDTO(db, db.productos[k]) in r
  {
    var rows := PR.FindAllDeleted(db);
    DTOListOfStored(db, rows);
    assert forall k :: k in db.productos ==> StoredProducto(db, db.productos[k]);
    ToDTOList(db, rows)
  }

  /** toDTOWithExtraInfo as a value, for the list mapping. */
  function ExtraInfoFn(db: Db): Producto -> ProductoDTO {
    (p: Producto) => ToDTOWithExtraInfo(db, p)
  }

  /** obtenerProductosConEstadoStock: the list of obtenerTodosLosProductos, element for element
      and in the same order, each with the stock status of its stock. */
  function ObtenerProductosConEstadoStock(db: Db): (r: seq<ProductoDTO>)
    requires WellFormed(db)
    ensures |r| == |ObtenerTodosLosProductos(db)|
    ensures forall i :: 0 <= i < |r| ==>
              r[i] == ObtenerTodosLosProductos(db)[i].(stockStatus := Some(MapStockStatus(r[i].stock)))
  {
    Seqs.Map(ExtraInfoFn(db), PR.FindAllWithCategoria(db))
  }
}
