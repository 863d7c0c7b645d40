/** How a product command becomes a new row and how it overwrites an existing one. The
    category argument is represented by its id, the foreign key the row stores. Updates follow
    MapStruct's IGNORE strategy for null source properties. */
module ProductoCommandMapper {
  import opened Wrappers
  import opened Entities

  /** The two checks toEntityWithValidation adds. */
  datatype ValidationError =
    | PrecioNoPositivo   // "El precio debe ser mayor a cero"
    | StockNegativo      // "El stock no puede ser negativo"

  /** toEntity: a row with no id yet, the command's fields copied (nulls included), linked to
      the given category, not deleted. */
  function ToEntity(cmd: CrearProductoCommand, categoriaId: int): (r: Producto)
    ensures r.id.None? && !r.eliminado && r.categoria == categoriaId
    ensures r.nombre == cmd.nombre && r.descripcion == cmd.descripcion
    ensures r.precio == cmd.precio && r.stock == cmd.stock
  {
    Producto(None, cmd.nombre, cmd.descripcion, cmd.precio, cmd.stock, false, categoriaId)
  }

  /** The value of an optional field after an IGNORE-strategy update. */
  function Overwrite<T>(source: Option<T>, target: Option<T>): (r: Option<T>)
    ensures source.Some? ==> r == source
    ensures source.None? ==> r == target
  {
    if source.Some? then source else target
  }

  /** updateEntity on a value: name, description, price, stock and category come from the
      command where present; id and eliminado are kept. */
  function UpdateEntity(p: Producto, cmd: CrearProductoCommand, categoriaId: int): (r: Producto)
    ensures r.id == p.id && r.eliminado == p.eliminado
    ensures r.nombre == cmd.nombre && r.categoria == categoriaId
  {
    p.(nombre := cmd.nombre,
       descripcion := Overwrite(cmd.descripcion, p.descripcion),
       precio := Overwrite(cmd.precio, p.precio),
       stock := Overwrite(cmd.stock, p.stock),
       categoria := categoriaId)
  }

  /** A command with every field present makes the row what toEntity would build, keeping the
      row's own id and flag. */
  lemma UpdateEntityWithFullCommand(p: Producto, cmd: CrearProductoCommand, categoriaId: int)
    requires cmd.descripcion.Some? && cmd.precio.Some? && cmd.stock.Some?
    ensures UpdateEntity(p, cmd, categoriaId) == ToEntity(cmd, categoriaId).(id := p.id, eliminado := p.eliminado)
  {
  }

  /** A null field of the command leaves that field of the row unchanged. */
  lemma UpdateEntityKeepsNullFields(p: Producto, cmd: CrearProductoCommand, categoriaId: int)
    ensures cmd.descripcion.None? ==> UpdateEntity(p, cmd, categoriaId).descripcion == p.descripcion
    ensures cmd.precio.None? ==> UpdateEntity(p, cmd, categoriaId).precio == p.precio
    ensures cmd.stock.None? ==> UpdateEntity(p, cmd, categoriaId).stock == p.stock
  {
  }

  /** An update never takes a stock away: a row with a stock still has one afterwards. */
  lemma UpdateEntityKeepsStockPresent(p: Producto, cmd: CrearProductoCommand, categoriaId: int)
    requires p.stock.Some?
    ensures UpdateEntity(p, cmd, categoriaId).stock.Some?
  {
  }

  /** Applying the same command twice is applying it once. */
  lemma UpdateEntityIdempotent(p: Producto, cmd: CrearProductoCommand, categoriaId: int)
    ensures UpdateEntity(UpdateEntity(p, cmd, categoriaId), cmd, categoriaId) == UpdateEntity(p, cmd, categoriaId)
  {
  }

  /** toEntityWithValidation: null for a null command; otherwise toEntity, unless the price is
      present and not positive, or the stock is present and negative (checked in that order). */
  function ToEntityWithValidation(cmd: Option<CrearProductoCommand>, categoriaId: int): (r: Result<Option<Producto>, ValidationError>)
    ensures cmd.None? ==> r == Ok(None)
    ensures r == Err(PrecioNoPositivo) <==> cmd.Some? && cmd.value.precio.Some? && cmd.value.precio.value <= 0.0
    ensures r == Err(StockNegativo) <==>
              && cmd.Some? && !(cmd.value.precio.Some? && cmd.value.precio.value <= 0.0)
              && cmd.value.stock.Some? && cmd.value.stock.value < 0
    ensures r.Ok? && r.value.Some? ==> cmd.Some? && r.value.value == ToEntity(cmd.value, categoriaId)
  {
    if cmd.None? then Ok(None)
    else
      var p := ToEntity(cmd.value, categoriaId);
      if p.precio.Some? && p.precio.value <= 0.0 then Err(PrecioNoPositivo)
      else if p.stock.Some? && p.stock.value < 0 then Err(StockNegativo)
      else Ok(Some(p))
  }

  /** Success is exactly: a null command, or a price that is null or positive together with a
      stock that is null or non-negative; the row produced then satisfies both bounds. */
  lemma ToEntityWithValidationAccepts(cmd: Option<CrearProductoCommand>, categoriaId: int)
    ensures ToEntityWithValidation(cmd, categoriaId).Ok? <==>
              cmd.None? ||
              ((cmd.value.precio.None? || cmd.value.precio.value > 0.0) &&
               (cmd.value.stock.None? || cmd.value.stock.value >= 0))
    ensures ToEntityWithValidation(cmd, categoriaId).Ok? && ToEntityWithValidation(cmd, categoriaId).value.Some? ==>
              var p := ToEntityWithValidation(cmd, categoriaId).value.value;
              (p.precio.None? || p.precio.value > 0.0) && (p.stock.None? || p.stock.value >= 0)
  {
  }
}
