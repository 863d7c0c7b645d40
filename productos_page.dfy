/** The product page controller: which of the list, create and edit views is shown, the
    product being edited, the counter whose change makes the list reload, the toast
    notification, and the category choices it loads once for the form. The notification's
    five-second auto-dismiss timer is not part of this model. */
module ProductosPage {
  import opened Wrappers
  import Seqs
  import opened Store
  import opened CategoriaQueryMapper
  import opened ProductoQueryMapper
  import CQS = CategoriaQueryService
  import CategoriaListar

  datatype Vista = Lista | Crear | Editar

  datatype Tipo = Success | Danger

  datatype Notificacion = Notificacion(mensaje: string, tipo: Tipo)

  /** One choice of the form's category select. */
  datatype CategoriaOpcion = CategoriaOpcion(id: Option<int>, nombre: string)

  const CREADO: string := "Producto creado exitosamente"
  const ACTUALIZADO: string := "Producto actualizado exitosamente"
  const ERROR_GUARDAR: string := "Error al guardar el producto"
  const ERROR_CATEGORIAS: string := "Error al cargar las categorías"

  /** The success message, built from the view the form was opened in: "creado" after the
      create view, "actualizado" after any other. */
  function MensajeExito(vista: Vista): (r: string)
    ensures vista == Crear ==> r == CREADO
    ensures vista != Crear ==> r == ACTUALIZADO
  {
    var accion := if vista == Crear then "creado" else "actualizado";
    "Producto " + accion + " exitosamente"
  }

  /** A category reduced to its id and name. */
  function Opcion(c: CategoriaDTO): CategoriaOpcion {
    CategoriaOpcion(c.id, c.nombre)
  }

  /** The category preload's filter and projection: exactly the entries not flagged deleted,
      in their order, each reduced to its id and name. */
  function CategoriasActivas(data: seq<CategoriaDTO>): (r: seq<CategoriaOpcion>)
    ensures Seqs.IsSubsequence(r, Seqs.Map(Opcion, data))
    ensures forall c :: c in data && CategoriaListar.NoEliminada(c) ==> Opcion(c) in r
    ensures forall i :: 0 <= i < |r| ==> exists c :: c in data && CategoriaListar.NoEliminada(c) && Opcion(c) == r[i]
  {
    var activas := Seqs.Filter(CategoriaListar.NoEliminada, data);
    Seqs.MapFilterIsSubsequence(Opcion, CategoriaListar.NoEliminada, data);
    Seqs.FilterMembershipAll(CategoriaListar.NoEliminada, data);
    Seqs.MapContains(Opcion, activas);
    var r := Seqs.Map(Opcion, activas);
    assert forall i :: 0 <= i < |r| ==> activas[i] in data && CategoriaListar.NoEliminada(activas[i]) && Opcion(activas[i]) == r[i];
    r
  }

  /** Against the server as modelled the preload drops nothing: every category the list
      query returns is active, so each becomes a choice, in name order. */
  lemma PreloadKeepsServerList(db: Db)
    requires WellFormed(db)
    ensures CategoriasActivas(CQS.ObtenerTodasLasCategorias(db)) == Seqs.Map(Opcion, CQS.ObtenerTodasLasCategorias(db))
  {
    Seqs.FilterAll(CategoriaListar.NoEliminada, CQS.ObtenerTodasLasCategorias(db));
  }

  /** The page's state as one value. */
  datatype Estado = Estado(
    vista: Vista,
    productoEditando: Option<ProductoDTO>,
    refreshTrigger: nat,
    categorias: seq<CategoriaOpcion>,
    notification: Option<Notificacion>)

  /** The page's handlers as events, the category preload included. */
  datatype Evento =
    | Precarga(respuesta: Option<seq<CategoriaDTO>>)
    | AbrirCrear
    | AbrirEditar(producto: ProductoDTO)
    | Envio(exito: bool)
    | Cancelar
    | Breadcrumb
    | CerrarToast

  /** The state after one event. Only a successful submit moves the counter, and only the
      preload changes the choices. */
  function Paso(e: Estado, ev: Evento): (r: Estado)
    ensures r.refreshTrigger == e.refreshTrigger + (if ev == Envio(true) then 1 else 0)
    ensures !ev.Precarga? ==> r.categorias == e.categorias
  {
    match ev
    case Precarga(respuesta) =>
      if respuesta.Some? then e.(categorias := CategoriasActivas(respuesta.value))
      else e.(notification := Some(Notificacion(ERROR_CATEGORIAS, Danger)))
    case AbrirCrear => e.(vista := Crear, productoEditando := None)
    case AbrirEditar(p) => e.(vista := Editar, productoEditando := Some(p))
    case Envio(exito) =>
      if exito then
        e.(vista := Lista, productoEditando := None, refreshTrigger := e.refreshTrigger + 1,
           notification := Some(Notificacion(MensajeExito(e.vista), Success)))
      else
        e.(notification := Some(Notificacion(ERROR_GUARDAR, Danger)))
    case Cancelar => e.(vista := Lista, productoEditando := None)
    case Breadcrumb => e.(vista := Lista)
    case CerrarToast => e.(notification := None)
  }

  /** The state after a sequence of events, in order. */
  function Ejecutar(e: Estado, evs: seq<Evento>): Estado
    decreases |evs|
  {
    if evs == [] then e else Ejecutar(Paso(e, evs[0]), evs[1..])
  }

  /** The number of successful submits among the events. */
  function Exitos(evs: seq<Evento>): nat
    decreases |evs|
  {
    if evs == [] then 0 else (if evs[0] == Envio(true) then 1 else 0) + Exitos(evs[1..])
  }

  /** The refresh counter counts the successful submits: it grows by exactly one per success
      and otherwise never changes, so it never decreases. */
  lemma {:induction false} TriggerCountsSuccesses(e: Estado, evs: seq<Evento>)
    ensures Ejecutar(e, evs).refreshTrigger == e.refreshTrigger + Exitos(evs)
    ensures Ejecutar(e, evs).refreshTrigger >= e.refreshTrigger
    decreases |evs|
  {
    if evs != [] {
      TriggerCountsSuccesses(Paso(e, evs[0]), evs[1..]);
    }
  }

  /** Opening a form and submitting it successfully returns to the list with the matching
      message: "creado" from the create view, "actualizado" from the edit view. */
  lemma SubmitMessageFollowsView(e: Estado, p: ProductoDTO)
    ensures Ejecutar(e, [AbrirCrear, Envio(true)]).notification == Some(Notificacion(CREADO, Success))
    ensures Ejecutar(e, [AbrirEditar(p), Envio(true)]).notification == Some(Notificacion(ACTUALIZADO, Success))
    ensures Ejecutar(e, [AbrirEditar(p), Envio(true)]).vista == Lista
    ensures Ejecutar(e, [AbrirEditar(p), Envio(true)]).productoEditando == None
  {
    assert [AbrirCrear, Envio(true)][1..] == [Envio(true)];
    assert [AbrirEditar(p), Envio(true)][1..] == [Envio(true)];
  }

  class PageState {
    var vista: Vista
    var productoEditando: Option<ProductoDTO>
    var refreshTrigger: nat
    var categorias: seq<CategoriaOpcion>
    var notification: Option<Notificacion>

    function Snapshot(): Estado
      reads this
    {
      Estado(vista, productoEditando, refreshTrigger, categorias, notification)
    }

    /** The list view, nothing edited, counter at 0, no choices yet, no notification. */
    constructor()
      ensures Snapshot() == Estado(Lista, None, 0, [], None)
    {
      vista, productoEditando, refreshTrigger, categorias, notification := Lista, None, 0, [], None;
    }

    /** The category preload on mounting: the active categories become the choices; a
        failure shows the error toast and leaves the choices as they were. */
    method CargarCategorias(respuesta: Option<seq<CategoriaDTO>>)
      modifies this
      ensures Snapshot() == Paso(old(Snapshot()), Precarga(respuesta))
    {
      if respuesta.Some? {
        var data := respuesta.value;
        var activas := Seqs.Filter(CategoriaListar.NoEliminada, data);
        categorias := Seqs.Map(Opcion, activas);
      } else {
        notification := Some(Notificacion(ERROR_CATEGORIAS, Danger));
      }
    }

    /** handleCrear: the create view, with nothing being edited. */
    method HandleCrear()
      modifies this
      ensures Snapshot() == Paso(old(Snapshot()), AbrirCrear)
    {
      productoEditando := None;
      vista := Crear;
    }

    /** handleEditar: the edit view, with the given product. */
    method HandleEditar(producto: ProductoDTO)
      modifies this
      ensures Snapshot() == Paso(old(Snapshot()), AbrirEditar(producto))
    {
      productoEditando := Some(producto);
      vista := Editar;
    }

    /** handleFormSubmit: on success the message by view, one more reload, back to the list
        with nothing edited; on failure only the error toast. */
    method HandleFormSubmit(exito: bool)
      modifies this
      ensures Snapshot() == Paso(old(Snapshot()), Envio(exito))
      ensures refreshTrigger == old(refreshTrigger) + (if exito then 1 else 0)
    {
      if exito {
        var accion := if vista == Crear then "creado" else "actualizado";
        notification := Some(Notificacion("Producto " + accion + " exitosamente", Success));
        refreshTrigger := refreshTrigger + 1;
        vista := Lista;
        productoEditando := None;
      } else {
        notification := Some(Notificacion(ERROR_GUARDAR, Danger));
      }
    }

    /** handleCancelar: back to the list with nothing edited; the counter stays. */
    method HandleCancelar()
      modifies this
      ensures Snapshot() == Paso(old(Snapshot()), Cancelar)
    {
      vista := Lista;
      productoEditando := None;
    }

    /** The breadcrumb's first item: from a form back to the list, without clearing the
        product being edited. */
    method BreadcrumbLista()
      modifies this
      ensures Snapshot() == Paso(old(Snapshot()), Breadcrumb)
    {
      if vista != Lista {
        vista := Lista;
      }
    }

    /** The toast's close button. */
    method CerrarNotificacion()
      modifies this
      ensures Snapshot() == Paso(old(Snapshot()), CerrarToast)
    {
      notification := None;
    }
  }
}
