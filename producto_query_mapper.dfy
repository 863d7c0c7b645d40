/** The product read model: ProductoDTO and the mappings from a product row to it. The
    category name and id come from the product's many-to-one association, which is the
    category row under the product's foreign key whatever its flag; formatPrice is not part of
    this model. */
module ProductoQueryMapper {
  import opened Wrappers
  import opened Entities
  import opened Store
  import Seqs

  datatype ProductoDTO = ProductoDTO(
    id: Option<int>,
    nombre: string,
    descripcion: Option<string>,
    precio: Option<real>,
    stock: Option<int>,
    categoriaNombre: Option<string>,
    categoriaId: Option<int>,
    eliminado: Option<bool>,
    stockStatus: Option<string>,
    precioFormateado: Option<string>)

  const DESCONOCIDO: string := "DESCONOCIDO"
  const SIN_STOCK: string := "SIN_STOCK"
  const STOCK_BAJO: string := "STOCK_BAJO"
  const STOCK_MEDIO: string := "STOCK_MEDIO"
  const STOCK_ALTO: string := "STOCK_ALTO"

  /** mapStockStatus, as one band per status: null, exactly 0, at most 7 (negative stock
      included, since the only check before is equality with 0), 8 to 30, above 30. */
  function MapStockStatus(stock: Option<int>): (r: string)
    ensures r == DESCONOCIDO <==> stock.None?
    ensures r == SIN_STOCK <==> stock == Some(0)
    ensures r == STOCK_BAJO <==> stock.Some? && stock.value != 0 && stock.value <= 7
    ensures r == STOCK_MEDIO <==> stock.Some? && 7 < stock.value <= 30
    ensures r == STOCK_ALTO <==> stock.Some? && stock.value > 30
  {
    if stock.None? then DESCONOCIDO
    else if stock.value == 0 then SIN_STOCK
    else if stock.value <= 7 then STOCK_BAJO
    else if stock.value <= 30 then STOCK_MEDIO
    else STOCK_ALTO
  }

  /** A negative stock is classified as low stock. */
  lemma NegativeStockIsLow(stock: int)
    requires stock < 0
    ensures MapStockStatus(Some(stock)) == STOCK_BAJO
  {
  }

  /** The order of the stock statuses, from no stock to plenty. */
  function StockRank(status: string): nat {
    if status == SIN_STOCK then 0
    else if status == STOCK_BAJO then 1
    else if status == STOCK_MEDIO then 2
    else 3
  }

  /** For stock that is not negative, more stock never gives a lower status. */
  lemma MapStockStatusMonotone(a: int, b: int)
    requires 0 <= a <= b
    ensures StockRank(MapStockStatus(Some(a))) <= StockRank(MapStockStatus(Some(b)))
  {
  }

  /** The product's category through the association: present for every well-formed row. */
  function CategoriaDe(db: Db, p: Producto): (r: Option<Categoria>)
    ensures r.Some? <==> p.categoria in db.categorias
  {
    if p.categoria in db.categorias then Some(db.categorias[p.categoria]) else None
  }

  /** toDTO: the row's fields, the category's name and id, stockStatus and precioFormateado
      left null; a product without a category gets null category fields. */
  function ToDTO(db: Db, p: Producto): (r: ProductoDTO)
    ensures r.id == p.id && r.nombre == p.nombre && r.eliminado == Some(p.eliminado)
    ensures r.stockStatus.None? && r.precioFormateado.None?
    ensures r.categoriaNombre.Some? <==> p.categoria in db.categorias
    ensures WellFormed(db) && p.categoria in db.categorias ==>
              r.categoriaId == Some(p.categoria) && r.categoriaNombre == Some(db.categorias[p.categoria].nombre)
  {
    var c := CategoriaDe(db, p);
    ProductoDTO(p.id, p.nombre, p.descripcion, p.precio, p.stock,
                if c.Some? then Some(c.value.nombre) else None,
                if c.Some? then c.value.id else None,
                Some(p.eliminado), None, None)
  }

  /** toDTO as a value, for the list mapping. */
  function DTOFn(db: Db): Producto -> ProductoDTO {
    (p: Producto) => ToDTO(db, p)
  }

  /** toDTOList: toDTO applied to each row, keeping length and order. */
  function ToDTOList(db: Db, s: seq<Producto>): (r: seq<ProductoDTO>)
    ensures |r| == |s|
    ensures forall i :: 0 <= i < |s| ==> r[i] == ToDTO(db, s[i])
  {
    Seqs.Map(DTOFn(db), s)
  }

  /** toDTOWithExtraInfo: toDTO with stockStatus computed from the stock. */
  function ToDTOWithExtraInfo(db: Db, p: Producto): (r: ProductoDTO)
    ensures r.(stockStatus := None) == ToDTO(db, p)
    ensures r.stockStatus == Some(MapStockStatus(p.stock)) && r.precioFormateado.None?
  {
    ToDTO(db, p).(stockStatus := Some(MapStockStatus(p.stock)))
  }
}
