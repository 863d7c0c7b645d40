/** How a category command becomes a new row and how it overwrites an existing one. Updates
    follow MapStruct's IGNORE strategy for null source properties: a null field of the command
    leaves the target's field as it was. */
module CategoriaCommandMapper {
  import opened Wrappers
  import opened Entities
  import opened CrearCategoriaCommand

  /** toEntity: a row with no id yet, the command's name and description, not deleted. */
  function ToEntity(cmd: CrearCategoriaCommand): (r: Categoria)
    requires cmd.nombre.Some?
    ensures r.id.None? && !r.eliminado
    ensures Some(r.nombre) == cmd.nombre && r.descripcion == cmd.descripcion
  {
    Categoria(None, cmd.nombre.value, cmd.descripcion, false)
  }

  /** updateEntity on a value: the target with its name and description replaced by those of
      the command that are present. */
  function UpdateEntity(c: Categoria, cmd: CrearCategoriaCommand): (r: Categoria)
    ensures r.id == c.id && r.eliminado == c.eliminado
  {
    c.(nombre := cmd.nombre.GetOr(c.nombre),
       descripcion := if cmd.descripcion.Some? then cmd.descripcion else c.descripcion)
  }

  /** Present fields overwrite, absent fields keep the target's value; id and eliminado are
      never touched. */
  lemma UpdateEntityFields(c: Categoria, cmd: CrearCategoriaCommand)
    ensures cmd.nombre.Some? ==> UpdateEntity(c, cmd).nombre == cmd.nombre.value
    ensures cmd.nombre.None? ==> UpdateEntity(c, cmd).nombre == c.nombre
    ensures cmd.descripcion.Some? ==> UpdateEntity(c, cmd).descripcion == cmd.descripcion
    ensures cmd.descripcion.None? ==> UpdateEntity(c, cmd).descripcion == c.descripcion
    ensures UpdateEntity(c, cmd).id == c.id && UpdateEntity(c, cmd).eliminado == c.eliminado
  {
  }

  /** A command with both fields present makes the row what toEntity would build, keeping the
      row's own id and flag. */
  lemma UpdateEntityWithFullCommand(c: Categoria, cmd: CrearCategoriaCommand)
    requires cmd.nombre.Some? && cmd.descripcion.Some?
    ensures UpdateEntity(c, cmd) == ToEntity(cmd).(id := c.id, eliminado := c.eliminado)
  {
  }

  /** Applying the same command twice is applying it once. */
  lemma UpdateEntityIdempotent(c: Categoria, cmd: CrearCategoriaCommand)
    ensures UpdateEntity(UpdateEntity(c, cmd), cmd) == UpdateEntity(c, cmd)
  {
  }

  /** A command with no field present changes nothing. */
  lemma UpdateEntityWithEmptyCommand(c: Categoria)
    ensures UpdateEntity(c, CrearCategoriaCommand(None, None)) == c
  {
  }
}
