/** The four category commands. Each runs its guard queries in the order of the source, fails
    with the source's message and no change when a guard fails, and otherwise changes one
    category row through save, softDeleteById or restoreById. The command argument is taken as
    already validated, as the controllers' Valid annotation on the request body guarantees. */
module CategoriaCommandService {
  import opened Wrappers
  import opened Text
  import opened Entities
  import opened Store
  import opened CrearCategoriaCommand
  import opened CategoriaCommandMapper
  import CR = CategoriaRepository
  import PR = ProductoRepository

  /** The RuntimeExceptions the service throws, one constructor per message. */
  datatype Error =
    | NombreDuplicado(nombre: string)     // "Ya existe una categoría activa con el nombre: "
    | NoEncontradaOEliminada(id: int)     // "Categoría no encontrada o eliminada con ID: "
    | NoEncontrada(id: int)               // "Categoría no encontrada con ID: "
    | YaEliminada(id: int)                // "Categoría ya eliminada con ID: "
    | TieneProductosActivos(count: nat)   // "No se puede eliminar la categoría porque tiene … productos activos asociados"
    | NoEliminada(id: int)                // "La categoría con ID: … no está eliminada"

  /** The state after a successful crearCategoria: the new row under the next id. */
  function CrearState(db: Db, cmd: CrearCategoriaCommand): Db
    requires cmd.nombre.Some?
  {
    db.(categorias := db.categorias[db.nextCategoriaId := ToEntity(cmd).(id := Some(db.nextCategoriaId))],
        nextCategoriaId := db.nextCategoriaId + 1)
  }

  /** The state after a successful actualizarCategoria: the row overwritten by updateEntity. */
  function ActualizarState(db: Db, id: int, cmd: CrearCategoriaCommand): Db
    requires id in db.categorias
  {
    db.(categorias := db.categorias[id := UpdateEntity(db.categorias[id], cmd)])
  }

  /** The state after a successful eliminarCategoria or restaurarCategoria. */
  function FlagState(db: Db, id: int, eliminado: bool): Db {
    db.(categorias := CR.WithEliminado(db.categorias, id, eliminado))
  }

  /** A new active category whose name no active category has keeps every invariant. */
  lemma CrearKeepsConsistent(db: Db, cmd: CrearCategoriaCommand)
    requires WellFormed(db) && Consistent(db) && cmd.nombre.Some?
    requires !CR.ExistsByNombreIgnoreCase(db, cmd.nombre.value)
    ensures WellFormed(CrearState(db, cmd)) && Consistent(CrearState(db, cmd))
  {
    assert forall k :: k in db.categorias ==> !CR.ActivaConNombre(db.categorias[k], cmd.nombre.value);
  }

  /** Renaming an active category keeps names unique when no other active category holds the
      new name, and keeps every other invariant since no flag changes. */
  lemma ActualizarKeepsConsistent(db: Db, id: int, cmd: CrearCategoriaCommand)
    requires WellFormed(db) && Consistent(db) && cmd.nombre.Some?
    requires id in db.categorias && !db.categorias[id].eliminado
    requires CR.ExistsByNombreIgnoreCase(db, cmd.nombre.value) ==>
               Fold(db.categorias[id].nombre) == Fold(cmd.nombre.value)
    ensures WellFormed(ActualizarState(db, id, cmd)) && Consistent(ActualizarState(db, id, cmd))
  {
    var db' := ActualizarState(db, id, cmd);
    var n := cmd.nombre.value;
    assert forall k :: k in db.categorias && k != id ==> !CR.ActivaConNombre(db.categorias[k], n);
    forall k | k in db'.productos && !db'.productos[k].eliminado
      ensures InActiveCategoria(db', db'.productos[k])
    {
      assert InActiveCategoria(db, db.productos[k]);
    }
  }

  /** Deleting an active category with no active product keeps every invariant. */
  lemma EliminarKeepsConsistent(db: Db, id: int)
    requires WellFormed(db) && Consistent(db)
    requires id in db.categorias && !db.categorias[id].eliminado
    requires PR.CountActiveByCategoriaId(db, id) == 0
    ensures WellFormed(FlagState(db, id, true)) && Consistent(FlagState(db, id, true))
  {
    PR.CountZeroIffCanBeDeleted(db, id);
    var db' := FlagState(db, id, true);
    forall k | k in db'.productos && !db'.productos[k].eliminado
      ensures InActiveCategoria(db', db'.productos[k])
    {
      assert InActiveCategoria(db, db.productos[k]);
    }
  }

  /** Restoring a deleted category whose name no active category holds keeps every invariant. */
  lemma RestaurarKeepsConsistent(db: Db, id: int)
    requires WellFormed(db) && Consistent(db)
    requires id in db.categorias && db.categorias[id].eliminado
    requires !CR.ExistsByNombreIgnoreCase(db, db.categorias[id].nombre)
    ensures WellFormed(FlagState(db, id, false)) && Consistent(FlagState(db, id, false))
  {
    var db' := FlagState(db, id, false);
    var n := db.categorias[id].nombre;
    assert forall k :: k in db.categorias ==> !CR.ActivaConNombre(db.categorias[k], n);
    forall k | k in db'.productos && !db'.productos[k].eliminado
      ensures InActiveCategoria(db', db'.productos[k])
    {
      assert InActiveCategoria(db, db.productos[k]);
    }
  }

  /** Delete followed by restore of the same category: on the deleted state every guard of
      restaurarCategoria passes, and restoring gives back the state before the delete. */
  lemma EliminarThenRestaurar(db: Db, id: int)
    requires WellFormed(db) && Consistent(db)
    requires id in db.categorias && !db.categorias[id].eliminado
    ensures var db' := FlagState(db, id, true);
            && id in db'.categorias && db'.categorias[id].eliminado
            && !CR.ExistsByNombreIgnoreCase(db', db'.categorias[id].nombre)
            && FlagState(db', id, false) == db
  {
    var db' := FlagState(db, id, true);
    var n := db.categorias[id].nombre;
    forall k | k in db'.categorias ensures !CR.ActivaConNombre(db'.categorias[k], n) {
      if k != id && !db.categorias[k].eliminado {
        assert Fold(db.categorias[k].nombre) != Fold(n);
      }
    }
    CR.RestoreUndoesSoftDelete(db.categorias, id);
  }

  /** crearCategoria (lines 31-42): rejected when an active category has the name ignoring case;
      otherwise the command's row is inserted under the next id, which is returned. */
  method CrearCategoria(db: Catalog, cmd: CrearCategoriaCommand) returns (r: Result<int, Error>)
    requires db.Valid() && IsValid(cmd)
    modifies db
    ensures db.Valid()
    ensures r.Err? <==> CR.ExistsByNombreIgnoreCase(old(db.Snapshot()), cmd.nombre.value)
    ensures r.Err? ==> r.error == NombreDuplicado(cmd.nombre.value) && db.Snapshot() == old(db.Snapshot())
    ensures r.Ok? ==> r.value == old(db.nextCategoriaId) && db.Snapshot() == CrearState(old(db.Snapshot()), cmd)
    ensures r.Ok? ==> var c := db.categorias[r.value];
              c.id == Some(r.value) && Some(c.nombre) == cmd.nombre && c.descripcion == cmd.descripcion && !c.eliminado
    ensures Consistent(old(db.Snapshot())) ==> Consistent(db.Snapshot())
  {
    ghost var before := db.Snapshot();
    if CR.ExistsByNombreIgnoreCase(db.Snapshot(), cmd.nombre.value) {
      return Err(NombreDuplicado(cmd.nombre.value));
    }
    var categoria := ToEntity(cmd);
    var id := CR.Save(db, categoria);
    r := Ok(id);
    if Consistent(before) {
      CrearKeepsConsistent(before, cmd);
    }
  }

  /** actualizarCategoria (lines 45-59): rejected when the id is not an active category, or when
      the new name belongs to an active category and differs from the row's own name ignoring
      case; otherwise updateEntity is applied to the row and saved under the same id. */
  method ActualizarCategoria(db: Catalog, id: int, cmd: CrearCategoriaCommand) returns (r: Result<(), Error>)
    requires db.Valid() && IsValid(cmd)
    modifies db
    ensures db.Valid()
    ensures r == Err(NoEncontradaOEliminada(id)) <==> CR.FindById(old(db.Snapshot()), id).None?
    ensures r == Err(NombreDuplicado(cmd.nombre.value)) <==>
              && CR.FindById(old(db.Snapshot()), id).Some?
              && CR.ExistsByNombreIgnoreCase(old(db.Snapshot()), cmd.nombre.value)
              && Fold(old(db.categorias)[id].nombre) != Fold(cmd.nombre.value)
    ensures r.Ok? <==>
              && CR.FindById(old(db.Snapshot()), id).Some?
              && !(CR.ExistsByNombreIgnoreCase(old(db.Snapshot()), cmd.nombre.value)
                   && Fold(old(db.categorias)[id].nombre) != Fold(cmd.nombre.value))
    ensures r.Err? ==> db.Snapshot() == old(db.Snapshot())
    ensures r.Ok? ==> id in old(db.categorias) && db.Snapshot() == ActualizarState(old(db.Snapshot()), id, cmd)
    ensures Consistent(old(db.Snapshot())) ==> Consistent(db.Snapshot())
  {
    ghost var before := db.Snapshot();
    var found := CR.FindById(db.Snapshot(), id);
    if found.None? {
      return Err(NoEncontradaOEliminada(id));
    }
    var categoria := found.value;
    if CR.ExistsByNombreIgnoreCase(db.Snapshot(), cmd.nombre.value) && Fold(categoria.nombre) != Fold(cmd.nombre.value) {
      return Err(NombreDuplicado(cmd.nombre.value));
    }
    categoria := UpdateEntity(categoria, cmd);
    var _ := CR.Save(db, categoria);
    r := Ok(());
    if Consistent(before) {
      ActualizarKeepsConsistent(before, id, cmd);
    }
  }

  /** eliminarCategoria (lines 62-81): rejected for an unknown id, for a category already
      deleted, and for one with active products (reporting their number); otherwise the
      category is soft-deleted. */
  method EliminarCategoria(db: Catalog, id: int) returns (r: Result<(), Error>)
    requires db.Valid()
    modifies db
    ensures db.Valid()
    ensures r == Err(NoEncontrada(id)) <==> id !in old(db.categorias)
    ensures r == Err(YaEliminada(id)) <==> id in old(db.categorias) && old(db.categorias)[id].eliminado
    ensures r.Err? && r.error.TieneProductosActivos? <==>
              id in old(db.categorias) && !old(db.categorias)[id].eliminado
              && PR.CountActiveByCategoriaId(old(db.Snapshot()), id) > 0
    ensures r.Err? && r.error.TieneProductosActivos? ==> r.error.count == PR.CountActiveByCategoriaId(old(db.Snapshot()), id)
    ensures r.Ok? <==>
              id in old(db.categorias) && !old(db.categorias)[id].eliminado
              && PR.CountActiveByCategoriaId(old(db.Snapshot()), id) == 0
    ensures r.Err? ==> db.Snapshot() == old(db.Snapshot())
    ensures r.Ok? ==> db.Snapshot() == FlagState(old(db.Snapshot()), id, true)
    ensures Consistent(old(db.Snapshot())) ==> Consistent(db.Snapshot())
  {
    ghost var before := db.Snapshot();
    if !CR.ExistsByIdIncludingDeleted(db.Snapshot(), id) {
      return Err(NoEncontrada(id));
    }
    var found := CR.FindById(db.Snapshot(), id);
    if found.None? {
      return Err(YaEliminada(id));
    }
    var productosActivos := PR.CountActiveByCategoriaId(db.Snapshot(), id);
    if productosActivos > 0 {
      return Err(TieneProductosActivos(productosActivos));
    }
    CR.SoftDeleteById(db, id);
    r := Ok(());
    if Consistent(before) {
      EliminarKeepsConsistent(before, id);
    }
  }

  /** restaurarCategoria (lines 84-106): rejected for an unknown id, for a category that is not
      deleted, and when an active category has its name; otherwise the category is restored. */
  method RestaurarCategoria(db: Catalog, id: int) returns (r: Result<(), Error>)
    requires db.Valid()
    modifies db
    ensures db.Valid()
    ensures r == Err(NoEncontrada(id)) <==> id !in old(db.categorias)
    ensures r == Err(NoEliminada(id)) <==> id in old(db.categorias) && !old(db.categorias)[id].eliminado
    ensures r.Err? && r.error.NombreDuplicado? <==>
              id in old(db.categorias) && old(db.categorias)[id].eliminado
              && CR.ExistsByNombreIgnoreCase(old(db.Snapshot()), old(db.categorias)[id].nombre)
    ensures r.Ok? <==>
              id in old(db.categorias) && old(db.categorias)[id].eliminado
              && !CR.ExistsByNombreIgnoreCase(old(db.Snapshot()), old(db.categorias)[id].nombre)
    ensures r.Err? ==> db.Snapshot() == old(db.Snapshot())
    ensures r.Ok? ==> db.Snapshot() == FlagState(old(db.Snapshot()), id, false)
    ensures Consistent(old(db.Snapshot())) ==> Consistent(db.Snapshot())
  {
    ghost var before := db.Snapshot();
    if !CR.ExistsByIdIncludingDeleted(db.Snapshot(), id) {
      return Err(NoEncontrada(id));
    }
    var found := CR.FindByIdIncludingDeleted(db.Snapshot(), id);
    if found.None? {
      return Err(NoEncontrada(id));
    }
    var categoria := found.value;
    if !categoria.eliminado {
      return Err(NoEliminada(id));
    }
    if CR.ExistsByNombreIgnoreCase(db.Snapshot(), categoria.nombre) {
      return Err(NombreDuplicado(categoria.nombre));
    }
    CR.RestoreById(db, id);
    r := Ok(());
    if Consistent(before) {
      RestaurarKeepsConsistent(before, id);
    }
  }
}
