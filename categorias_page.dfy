/** The category page controller: which of the list, create and edit views is shown, the
    category being edited, the counter whose change makes the list reload, and the toast
    notification. The notification's five-second auto-dismiss timer is not part of this
    model. */
module CategoriasPage {
  import opened Wrappers
  import opened CategoriaQueryMapper

  datatype Vista = Lista | Crear | Editar

  datatype Tipo = Success | Danger

  datatype Notificacion = Notificacion(mensaje: string, tipo: Tipo)

  const CREADA: string := "Categoría creada exitosamente"
  const ACTUALIZADA: string := "Categoría actualizada exitosamente"
  const ERROR_GUARDAR: string := "Error al guardar la categoría"

  /** The success message, built from the view the form was opened in: "creada" after the
      create view, "actualizada" after any other. */
  function MensajeExito(vista: Vista): (r: string)
    ensures vista == Crear ==> r == CREADA
    ensures vista != Crear ==> r == ACTUALIZADA
  {
    var accion := if vista == Crear then "creada" else "actualizada";
    "Categoría " + accion + " exitosamente"
  }

  /** The page's state as one value. */
  datatype Estado = Estado(
    vista: Vista,
    categoriaEditando: Option<CategoriaDTO>,
    refreshTrigger: nat,
    notification: Option<Notificacion>)

  /** The form's outcome as the page records it: on success a notification by view, one more
      reload and back to the list with nothing edited; on failure only the error toast. */
  function TrasEnvio(e: Estado, exito: bool): (r: Estado)
    ensures exito ==> r == Estado(Lista, None, e.refreshTrigger + 1, Some(Notificacion(MensajeExito(e.vista), Success)))
    ensures !exito ==> r == e.(notification := Some(Notificacion(ERROR_GUARDAR, Danger)))
    ensures r.refreshTrigger >= e.refreshTrigger
  {
    if exito then
      Estado(Lista, None, e.refreshTrigger + 1, Some(Notificacion(MensajeExito(e.vista), Success)))
    else
      e.(notification := Some(Notificacion(ERROR_GUARDAR, Danger)))
  }

  /** The page's handlers as events. */
  datatype Evento =
    | AbrirCrear
    | AbrirEditar(categoria: CategoriaDTO)
    | Envio(exito: bool)
    | Cancelar
    | Breadcrumb
    | CerrarToast

  /** The state after one event. Only a successful submit moves the counter. */
  function Paso(e: Estado, ev: Evento): (r: Estado)
    ensures r.refreshTrigger == e.refreshTrigger + (if ev == Envio(true) then 1 else 0)
  {
    match ev
    case AbrirCrear => e.(vista := Crear, categoriaEditando := None)
    case AbrirEditar(c) => e.(vista := Editar, categoriaEditando := Some(c))
    case Envio(exito) => TrasEnvio(e, exito)
    case Cancelar => e.(vista := Lista, categoriaEditando := None)
    case Breadcrumb => e.(vista := Lista)
    case CerrarToast => e.(notification := None)
  }

  /** The state after a sequence of events, in order. */
  function Ejecutar(e: Estado, evs: seq<Evento>): Estado
    decreases |evs|
  {
    if evs == [] then e else Ejecutar(Paso(e, evs[0]), evs[1..])
  }

  /** The number of successful submits among the events. */
  function Exitos(evs: seq<Evento>): nat
    decreases |evs|
  {
    if evs == [] then 0 else (if evs[0] == Envio(true) then 1 else 0) + Exitos(evs[1..])
  }

  /** The refresh counter counts the successful submits: whatever the handlers do, it grows
      by exactly one per success and otherwise never changes, so it never decreases. */
  lemma {:induction false} TriggerCountsSuccesses(e: Estado, evs: seq<Evento>)
    ensures Ejecutar(e, evs).refreshTrigger == e.refreshTrigger + Exitos(evs)
    ensures Ejecutar(e, evs).refreshTrigger >= e.refreshTrigger
    decreases |evs|
  {
    if evs != [] {
      TriggerCountsSuccesses(Paso(e, evs[0]), evs[1..]);
    }
  }

  /** Opening a form and submitting it successfully returns to the list with the matching
      message: "creada" from the create view, "actualizada" from the edit view, whatever the
      state before. */
  lemma SubmitMessageFollowsView(e: Estado, c: CategoriaDTO)
    ensures Ejecutar(e, [AbrirCrear, Envio(true)]).notification == Some(Notificacion(CREADA, Success))
    ensures Ejecutar(e, [AbrirEditar(c), Envio(true)]).notification == Some(Notificacion(ACTUALIZADA, Success))
    ensures Ejecutar(e, [AbrirEditar(c), Envio(true)]).vista == Lista
    ensures Ejecutar(e, [AbrirEditar(c), Envio(true)]).categoriaEditando == None
  {
    assert [AbrirCrear, Envio(true)][1..] == [Envio(true)];
    assert [AbrirEditar(c), Envio(true)][1..] == [Envio(true)];
  }

  class PageState {
    var vista: Vista
    var categoriaEditando: Option<CategoriaDTO>
    var refreshTrigger: nat
    var notification: Option<Notificacion>

    function Snapshot(): Estado
      reads this
    {
      Estado(vista, categoriaEditando, refreshTrigger, notification)
    }

    /** The list view, nothing edited, counter at 0, no notification. */
    constructor()
      ensures Snapshot() == Estado(Lista, None, 0, None)
    {
      vista, categoriaEditando, refreshTrigger, notification := Lista, None, 0, None;
    }

    /** handleCrear: the create view, with nothing being edited. */
    method HandleCrear()
      modifies this
      ensures Snapshot() == Paso(old(Snapshot()), AbrirCrear)
    {
      categoriaEditando := None;
      vista := Crear;
    }

    /** handleEditar: the edit view, with the given category. */
    method HandleEditar(categoria: CategoriaDTO)
      modifies this
      ensures Snapshot() == Paso(old(Snapshot()), AbrirEditar(categoria))
    {
      categoriaEditando := Some(categoria);
      vista := Editar;
    }

    /** handleFormSubmit: the counter grows by one on success only and never shrinks. */
    method HandleFormSubmit(exito: bool)
      modifies this
      ensures Snapshot() == Paso(old(Snapshot()), Envio(exito))
      ensures refreshTrigger == old(refreshTrigger) + (if exito then 1 else 0)
    {
      if exito {
        var accion := if vista == Crear then "creada" else "actualizada";
        notification := Some(Notificacion("Categoría " + accion + " exitosamente", Success));
        refreshTrigger := refreshTrigger + 1;
        vista := Lista;
        categoriaEditando := None;
      } else {
        notification := Some(Notificacion(ERROR_GUARDAR, Danger));
      }
    }

    /** handleCancelar: back to the list with nothing edited; the counter stays. */
    method HandleCancelar()
      modifies this
      ensures Snapshot() == Paso(old(Snapshot()), Cancelar)
    {
      vista := Lista;
      categoriaEditando := None;
    }

    /** The breadcrumb's first item: from a form back to the list, without clearing the
        category being edited. */
    method BreadcrumbLista()
      modifies this
      ensures Snapshot() == Paso(old(Snapshot()), Breadcrumb)
    {
      if vista != Lista {
        vista := Lista;
      }
    }

    /** The toast's close button. */
    method CerrarNotificacion()
      modifies this
      ensures Snapshot() == Paso(old(Snapshot()), CerrarToast)
    {
      notification := None;
    }
  }
}
