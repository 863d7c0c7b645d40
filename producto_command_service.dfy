/** The four product commands. Each runs its guard queries in the order of the source, fails
    with the source's message and no change when a guard fails, and otherwise changes one
    product row through save, softDeleteById or restoreById. Product findById sees deleted
    rows too, so the "already deleted" guard of eliminarProducto never fires and an update
    may rewrite a deleted row. */
module ProductoCommandService {
  import opened Wrappers
  import opened Text
  import opened Entities
  import opened Store
  import opened ProductoCommandMapper
  import CR = CategoriaRepository
  import PR = ProductoRepository

  /** The RuntimeExceptions the service throws, one constructor per message, plus the
      persistence failure save raises for a row without stock. */
  datatype Error =
    | CategoriaNoEncontradaOEliminada(categoriaId: int)  // "Categoría no encontrada o eliminada con ID: "
    | NombreDuplicado(nombre: string)                    // "Ya existe un producto activo con el nombre: "
    | NoEncontradoOEliminado(id: int)                    // "Producto no encontrado o eliminado con ID: "
    | NoEncontrado(id: int)                              // "Producto no encontrado con ID: "
    | YaEliminado(id: int)                               // "Producto ya eliminado con ID: "
    | NoEliminado(id: int)                               // "El producto con ID: … no está eliminado"
    | CategoriaEliminada                                 // "No se puede restaurar el producto porque su categoría está eliminada"
    | Persistencia(cause: PR.SaveError)                  // the NOT NULL stock column refuses the row

  /** The state after a successful crearProducto: the new row under the next id. */
  function CrearState(db: Db, cmd: CrearProductoCommand): Db {
    db.(productos := db.productos[db.nextProductoId := ToEntity(cmd, cmd.categoriaId).(id := Some(db.nextProductoId))],
        nextProductoId := db.nextProductoId + 1)
  }

  /** The state after a successful actualizarProducto: the row overwritten by updateEntity. */
  function ActualizarState(db: Db, id: int, cmd: CrearProductoCommand): Db
    requires id in db.productos
  {
    db.(productos := db.productos[id := UpdateEntity(db.productos[id], cmd, cmd.categoriaId)])
  }

  /** The state after a successful eliminarProducto or restaurarProducto. */
  function FlagState(db: Db, id: int, eliminado: bool): Db {
    db.(productos := PR.WithEliminado(db.productos, id, eliminado))
  }

  /** A new product with a stock, in an active category, whose name no active product has,
      keeps every invariant. */
  lemma CrearKeepsConsistent(db: Db, cmd: CrearProductoCommand)
    requires WellFormed(db) && Consistent(db)
    requires CR.FindById(db, cmd.categoriaId).Some? && cmd.stock.Some?
    requires !PR.ExistsByNombreIgnoreCase(db, cmd.nombre)
    ensures WellFormed(CrearState(db, cmd)) && Consistent(CrearState(db, cmd))
  {
    assert forall k :: k in db.productos ==> !PR.ActivoConNombre(db.productos[k], cmd.nombre);
  }

  /** Rewriting a product (active or not) into an active category keeps names unique when no
      other active product holds the new name; its flag does not change. */
  lemma ActualizarKeepsConsistent(db: Db, id: int, cmd: CrearProductoCommand)
    requires WellFormed(db) && Consistent(db)
    requires id in db.productos && CR.FindById(db, cmd.categoriaId).Some?
    requires PR.ExistsByNombreIgnoreCase(db, cmd.nombre) ==> Fold(db.productos[id].nombre) == Fold(cmd.nombre)
    ensures WellFormed(ActualizarState(db, id, cmd)) && Consistent(ActualizarState(db, id, cmd))
  {
    var db' := ActualizarState(db, id, cmd);
    assert db'.productos[id].stock.Some?;
    if !db.productos[id].eliminado {
      assert forall k :: k in db.productos && k != id ==> !PR.ActivoConNombre(db.productos[k], cmd.nombre);
    }
  }

  /** Deleting a product keeps every invariant. */
  lemma EliminarKeepsConsistent(db: Db, id: int)
    requires WellFormed(db) && Consistent(db) && id in db.productos
    ensures WellFormed(FlagState(db, id, true)) && Consistent(FlagState(db, id, true))
  {
    var db' := FlagState(db, id, true);
    forall k | k in db'.productos && !db'.productos[k].eliminado
      ensures InActiveCategoria(db', db'.productos[k])
    {
      assert InActiveCategoria(db, db.productos[k]);
    }
  }

  /** Restoring a deleted product of an active category whose name no active product holds
      keeps every invariant. */
  lemma RestaurarKeepsConsistent(db: Db, id: int)
    requires WellFormed(db) && Consistent(db)
    requires id in db.productos && db.productos[id].eliminado
    requires !db.categorias[db.productos[id].categoria].eliminado
    requires !PR.ExistsByNombreIgnoreCase(db, db.productos[id].nombre)
    ensures WellFormed(FlagState(db, id, false)) && Consistent(FlagState(db, id, false))
  {
    var n := db.productos[id].nombre;
    assert forall k :: k in db.productos ==> !PR.ActivoConNombre(db.productos[k], n);
  }

  /** Deleting an already deleted product changes nothing. */
  lemma EliminarDeletedIsNoOp(db: Db, id: int)
    requires id in db.productos && db.productos[id].eliminado
    ensures FlagState(db, id, true) == db
  {
    assert PR.WithEliminado(db.productos, id, true) == db.productos;
  }

  /** Delete followed by restore of the same active product: on the deleted state every guard
      of restaurarProducto passes, and restoring gives back the state before the delete. */
  lemma EliminarThenRestaurar(db: Db, id: int)
    requires WellFormed(db) && Consistent(db)
    requires id in db.productos && !db.productos[id].eliminado
    ensures var db' := FlagState(db, id, true);
            && id in db'.productos && db'.productos[id].eliminado
            && !db'.categorias[db'.productos[id].categoria].eliminado
            && !PR.ExistsByNombreIgnoreCase(db', db'.productos[id].nombre)
            && FlagState(db', id, false) == db
  {
    var db' := FlagState(db, id, true);
    var n := db.productos[id].nombre;
    assert InActiveCategoria(db, db.productos[id]);
    forall k | k in db'.productos ensures !PR.ActivoConNombre(db'.productos[k], n) {
      if k != id && !db.productos[k].eliminado {
        assert Fold(db.productos[k].nombre) != Fold(n);
      }
    }
    PR.RestoreUndoesSoftDelete(db.productos, id);
  }

  /** crearProducto (lines 32-47): rejected when the category is not active, when an active
      product has the name ignoring case, and by save when the stock is null; otherwise the
      command's row is inserted under the next id, which is returned. */
  method CrearProducto(db: Catalog, cmd: CrearProductoCommand) returns (r: Result<int, Error>)
    requires db.Valid()
    modifies db
    ensures db.Valid()
    ensures r == Err(CategoriaNoEncontradaOEliminada(cmd.categoriaId)) <==> CR.FindById(old(db.Snapshot()), cmd.categoriaId).None?
    ensures r == Err(NombreDuplicado(cmd.nombre)) <==>
              CR.FindById(old(db.Snapshot()), cmd.categoriaId).Some? && PR.ExistsByNombreIgnoreCase(old(db.Snapshot()), cmd.nombre)
    ensures r.Err? && r.error.Persistencia? <==>
              && CR.FindById(old(db.Snapshot()), cmd.categoriaId).Some?
              && !PR.ExistsByNombreIgnoreCase(old(db.Snapshot()), cmd.nombre)
              && cmd.stock.None?
    ensures r.Ok? <==>
              && CR.FindById(old(db.Snapshot()), cmd.categoriaId).Some?
              && !PR.ExistsByNombreIgnoreCase(old(db.Snapshot()), cmd.nombre)
              && cmd.stock.Some?
    ensures r.Err? ==> db.Snapshot() == old(db.Snapshot())
    ensures r.Ok? ==> r.value == old(db.nextProductoId) && db.Snapshot() == CrearState(old(db.Snapshot()), cmd)
    ensures r.Ok? ==> var p := db.productos[r.value];
              && p.id == Some(r.value) && p.nombre == cmd.nombre && p.descripcion == cmd.descripcion
              && p.precio == cmd.precio && p.stock == cmd.stock && !p.eliminado && p.categoria == cmd.categoriaId
    ensures Consistent(old(db.Snapshot())) ==> Consistent(db.Snapshot())
  {
    ghost var before := db.Snapshot();
    var categoria := CR.FindById(db.Snapshot(), cmd.categoriaId);
    if categoria.None? {
      return Err(CategoriaNoEncontradaOEliminada(cmd.categoriaId));
    }
    if PR.ExistsByNombreIgnoreCase(db.Snapshot(), cmd.nombre) {
      return Err(NombreDuplicado(cmd.nombre));
    }
    var producto := ToEntity(cmd, categoria.value.id.value);
    var saved := PR.Save(db, producto);
    if saved.Err? {
      return Err(Persistencia(saved.error));
    }
    r := Ok(saved.value);
    if Consistent(before) {
      CrearKeepsConsistent(before, cmd);
    }
  }

  /** actualizarProducto (lines 50-68): rejected when the product id is unknown, when the
      category is not active, or when the new name belongs to an active product and differs
      from the row's own name ignoring case; otherwise updateEntity is applied to the row
      (deleted or not) and saved under the same id. */
  method ActualizarProducto(db: Catalog, id: int, cmd: CrearProductoCommand) returns (r: Result<(), Error>)
    requires db.Valid()
    modifies db
    ensures db.Valid()
    ensures r == Err(NoEncontradoOEliminado(id)) <==> id !in old(db.productos)
    ensures r == Err(CategoriaNoEncontradaOEliminada(cmd.categoriaId)) <==>
              id in old(db.productos) && CR.FindById(old(db.Snapshot()), cmd.categoriaId).None?
    ensures r == Err(NombreDuplicado(cmd.nombre)) <==>
              && id in old(db.productos) && CR.FindById(old(db.Snapshot()), cmd.categoriaId).Some?
              && PR.ExistsByNombreIgnoreCase(old(db.Snapshot()), cmd.nombre)
              && Fold(old(db.productos)[id].nombre) != Fold(cmd.nombre)
    ensures r.Ok? <==>
              && id in old(db.productos) && CR.FindById(old(db.Snapshot()), cmd.categoriaId).Some?
              && !(PR.ExistsByNombreIgnoreCase(old(db.Snapshot()), cmd.nombre)
                   && Fold(old(db.productos)[id].nombre) != Fold(cmd.nombre))
    ensures !(r.Err? && r.error.Persistencia?)
    ensures r.Err? ==> db.Snapshot() == old(db.Snapshot())
    ensures r.Ok? ==> id in old(db.productos) && db.Snapshot() == ActualizarState(old(db.Snapshot()), id, cmd)
    ensures Consistent(old(db.Snapshot())) ==> Consistent(db.Snapshot())
  {
    ghost var before := db.Snapshot();
    var found := PR.FindById(db.Snapshot(), id);
    if found.None? {
      return Err(NoEncontradoOEliminado(id));
    }
    var categoria := CR.FindById(db.Snapshot(), cmd.categoriaId);
    if categoria.None? {
      return Err(CategoriaNoEncontradaOEliminada(cmd.categoriaId));
    }
    var producto := found.value;
    if PR.ExistsByNombreIgnoreCase(db.Snapshot(), cmd.nombre) && Fold(producto.nombre) != Fold(cmd.nombre) {
      return Err(NombreDuplicado(cmd.nombre));
    }
    producto := UpdateEntity(producto, cmd, categoria.value.id.value);
    var saved := PR.Save(db, producto);
    if saved.Err? {
      return Err(Persistencia(saved.error));
    }
    r := Ok(());
    if Consistent(before) {
      ActualizarKeepsConsistent(before, id, cmd);
    }
  }

  /** eliminarProducto (lines 71-83): rejected only for an unknown id; otherwise the product is
      soft-deleted, so deleting a deleted product succeeds and changes nothing. */
  method EliminarProducto(db: Catalog, id: int) returns (r: Result<(), Error>)
    requires db.Valid()
    modifies db
    ensures db.Valid()
    ensures r.Err? <==> id !in old(db.productos)
    ensures r.Err? ==> r.error == NoEncontrado(id) && db.Snapshot() == old(db.Snapshot())
    ensures r.Ok? ==> db.Snapshot() == FlagState(old(db.Snapshot()), id, true)
    ensures r.Ok? && old(db.productos)[id].eliminado ==> db.Snapshot() == old(db.Snapshot())
    ensures Consistent(old(db.Snapshot())) ==> Consistent(db.Snapshot())
  {
    ghost var before := db.Snapshot();
    if !PR.ExistsByIdIncludingDeleted(db.Snapshot(), id) {
      return Err(NoEncontrado(id));
    }
    var found := PR.FindById(db.Snapshot(), id);
    if found.None? {
      return Err(YaEliminado(id));
    }
    PR.SoftDeleteById(db, id);
    r := Ok(());
    if before.productos[id].eliminado {
      EliminarDeletedIsNoOp(before, id);
    }
    if Consistent(before) {
      EliminarKeepsConsistent(before, id);
    }
  }

  /** restaurarProducto (lines 86-113): rejected for an unknown id, for a product that is not
      deleted, when its category is deleted, and when an active product has its name;
      otherwise the product is restored. */
  method RestaurarProducto(db: Catalog, id: int) returns (r: Result<(), Error>)
    requires db.Valid()
    modifies db
    ensures db.Valid()
    ensures r == Err(NoEncontrado(id)) <==> id !in old(db.productos)
    ensures r == Err(NoEliminado(id)) <==> id in old(db.productos) && !old(db.productos)[id].eliminado
    ensures r == Err(CategoriaEliminada) <==>
              id in old(db.productos) && old(db.productos)[id].eliminado
              && old(db.categorias)[old(db.productos)[id].categoria].eliminado
    ensures r.Err? && r.error.NombreDuplicado? <==>
              && id in old(db.productos) && old(db.productos)[id].eliminado
              && !old(db.categorias)[old(db.productos)[id].categoria].eliminado
              && PR.ExistsByNombreIgnoreCase(old(db.Snapshot()), old(db.productos)[id].nombre)
    ensures r.Ok? <==>
              && id in old(db.productos) && old(db.productos)[id].eliminado
              && !old(db.categorias)[old(db.productos)[id].categoria].eliminado
              && !PR.ExistsByNombreIgnoreCase(old(db.Snapshot()), old(db.productos)[id].nombre)
    ensures r.Err? ==> db.Snapshot() == old(db.Snapshot())
    ensures r.Ok? ==> db.Snapshot() == FlagState(old(db.Snapshot()), id, false)
    ensures Consistent(old(db.Snapshot())) ==> Consistent(db.Snapshot())
  {
    ghost var before := db.Snapshot();
    if !PR.ExistsByIdIncludingDeleted(db.Snapshot(), id) {
      return Err(NoEncontrado(id));
    }
    var found := PR.FindByIdIncludingDeleted(db.Snapshot(), id);
    if found.None? {
      return Err(NoEncontrado(id));
    }
    var producto := found.value;
    if !producto.eliminado {
      return Err(NoEliminado(id));
    }
    if db.categorias[producto.categoria].eliminado {
      return Err(CategoriaEliminada);
    }
    if PR.ExistsByNombreIgnoreCase(db.Snapshot(), producto.nombre) {
      return Err(NombreDuplicado(producto.nombre));
    }
    PR.RestoreById(db, id);
    r := Ok(());
    if Consistent(before) {
      RestaurarKeepsConsistent(before, id);
    }
  }
}
