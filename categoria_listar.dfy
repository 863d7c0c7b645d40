/** The category list component without its markup: which server list it loads, the
    client-side filters on what it receives, the per-row busy marker around deletes and
    restores, the view toggles, and the badge and label for each estado. Server answers,
    confirmation dialogs and alerts are inputs of the model. */
module CategoriaListar {
  import opened Wrappers
  import opened Text
  import Seqs
  import opened Store
  import opened CategoriaQueryMapper
  import CQS = CategoriaQueryService

  /** The three server lists the component can load. */
  datatype Consulta = Eliminadas | ConEstadisticas | ConEstado

  const ERROR_CARGAR: string := "Error al cargar las categorías"
  const ERROR_ELIMINAR: string := "Error al eliminar la categoría"
  const ERROR_RESTAURAR: string := "Error al restaurar la categoría"

  /** The two further estado values the component knows. */
  const INACTIVA: string := "INACTIVA"
  const SIN_PRODUCTOS: string := "SIN_PRODUCTOS"

  /** The list to load: the deleted ones when they are shown, otherwise the statistics list
      in the statistics view and the list with estado in the normal view. */
  function ConsultaPara(mostrarEliminadas: bool, vistaEstadisticas: bool): (r: Consulta)
    ensures r == Eliminadas <==> mostrarEliminadas
    ensures r == ConEstadisticas <==> !mostrarEliminadas && vistaEstadisticas
    ensures r == ConEstado <==> !mostrarEliminadas && !vistaEstadisticas
  {
    if mostrarEliminadas then Eliminadas
    else if vistaEstadisticas then ConEstadisticas
    else ConEstado
  }

  /** `!c.eliminado`: a null flag counts as not deleted. */
  predicate NoEliminada(c: CategoriaDTO) {
    c.eliminado != Some(true)
  }

  /** The list kept from a server answer: the deleted list as it came, the other two with
      every deleted entry dropped, order kept. */
  function Visibles(consulta: Consulta, data: seq<CategoriaDTO>): (r: seq<CategoriaDTO>)
    ensures consulta == Eliminadas ==> r == data
    ensures consulta != Eliminadas ==> Seqs.IsSubsequence(r, data)
    ensures consulta != Eliminadas ==> forall c :: c in r <==> c in data && NoEliminada(c)
    ensures consulta != Eliminadas ==> forall i :: 0 <= i < |r| ==> NoEliminada(r[i])
  {
    if consulta == Eliminadas then data
    else
      Seqs.FilterIsSubsequence(NoEliminada, data);
      Seqs.FilterMembershipAll(NoEliminada, data);
      Seqs.Filter(NoEliminada, data)
  }

  /** The server's answer to each list, as the query service computes it. */
  function Respuesta(db: Db, consulta: Consulta): seq<CategoriaDTO>
    requires WellFormed(db)
  {
    match consulta
    case Eliminadas => CQS.ObtenerCategoriasEliminadas(db)
    case ConEstadisticas => CQS.ObtenerCategoriasConConteoProductos(db)
    case ConEstado => CQS.ObtenerCategoriasConEstado(db)
  }

  /** Against the server as modelled the client-side filter drops nothing: both filtered
      lists already hold active categories only. */
  lemma VisiblesKeepsServerAnswer(db: Db, consulta: Consulta)
    requires WellFormed(db)
    ensures Visibles(consulta, Respuesta(db, consulta)) == Respuesta(db, consulta)
  {
    var data := Respuesta(db, consulta);
    if consulta != Eliminadas {
      forall i | 0 <= i < |data| ensures NoEliminada(data[i]) {
        assert CQS.ObtenerTodasLasCategorias(db)[i].eliminado == Some(false);
      }
      Seqs.FilterAll(NoEliminada, data);
    }
  }

  /** `cantidadProductos > 0`: a null count (the normal view fills none in) never blocks. */
  predicate TieneProductos(cantidadProductos: Option<int>) {
    cantidadProductos.Some? && cantidadProductos.value > 0
  }

  /** In the normal view no row carries a count, so the client-side delete guard never
      fires there; only the server's own check refuses the delete. */
  lemma ConEstadoNeverBlocks(db: Db)
    requires WellFormed(db)
    ensures forall i :: 0 <= i < |CQS.ObtenerCategoriasConEstado(db)| ==>
              !TieneProductos(CQS.ObtenerCategoriasConEstado(db)[i].cantidadProductos)
  {
    var r := CQS.ObtenerCategoriasConEstado(db);
    forall i | 0 <= i < |r| ensures !TieneProductos(r[i].cantidadProductos) {
      var d := CQS.ObtenerTodasLasCategorias(db)[i];
      assert CQS.DTOOfStored(db, d);
    }
  }

  /** The text filter: the folded name contains the folded filter, or there is a non-empty
      description whose folded form does. */
  predicate Coincide(filtro: string, c: CategoriaDTO) {
    || ContainsIgnoreCase(c.nombre, filtro)
    || (c.descripcion.Some? && c.descripcion.value != [] && ContainsIgnoreCase(c.descripcion.value, filtro))
  }

  /** Coincide for a fixed filter, as a value. */
  function CoincideFn(filtro: string): CategoriaDTO -> bool {
    (c: CategoriaDTO) => Coincide(filtro, c)
  }

  /** categoriasFiltradas: the rows that match the filter, in their order; an empty filter
      keeps every row. */
  function Filtradas(categorias: seq<CategoriaDTO>, filtro: string): (r: seq<CategoriaDTO>)
    ensures Seqs.IsSubsequence(r, categorias)
    ensures forall c :: c in r <==> c in categorias && Coincide(filtro, c)
    ensures filtro == [] ==> r == categorias
  {
    Seqs.FilterIsSubsequence(CoincideFn(filtro), categorias);
    Seqs.FilterMembershipAll(CoincideFn(filtro), categorias);
    if filtro == [] then
      EmptyFilterMatches(categorias);
      Seqs.FilterAll(CoincideFn(filtro), categorias);
      Seqs.Filter(CoincideFn(filtro), categorias)
    else
      Seqs.Filter(CoincideFn(filtro), categorias)
  }

  /** Every name contains the empty filter. */
  lemma EmptyFilterMatches(categorias: seq<CategoriaDTO>)
    ensures forall i :: 0 <= i < |categorias| ==> CoincideFn([])(categorias[i])
  {
    forall i | 0 <= i < |categorias| ensures Coincide([], categorias[i]) {
      ContainsEmpty(Fold(categorias[i].nombre));
    }
  }

  /** getEstadoBadge: one colour per known estado, "secondary" for anything else, a null
      estado included. */
  function EstadoBadge(estado: Option<string>): (r: string)
    ensures r == "success" <==> estado == Some(ACTIVA)
    ensures r == "danger" <==> estado == Some(INACTIVA)
    ensures r == "warning" <==> estado == Some(SIN_PRODUCTOS)
    ensures r == "secondary" <==> estado !in {Some(ACTIVA), Some(INACTIVA), Some(SIN_PRODUCTOS)}
  {
    if estado == Some(ACTIVA) then "success"
    else if estado == Some(INACTIVA) then "danger"
    else if estado == Some(SIN_PRODUCTOS) then "warning"
    else "secondary"
  }

  /** getEstadoTexto: one label per known estado, the estado itself for anything else. */
  function EstadoTexto(estado: Option<string>): (r: Option<string>)
    ensures estado !in {Some(ACTIVA), Some(INACTIVA), Some(SIN_PRODUCTOS)} <==> r == estado
    ensures r.None? <==> estado.None?
  {
    if estado == Some(ACTIVA) then Some("Activa")
    else if estado == Some(INACTIVA) then Some("Inactiva")
    else if estado == Some(SIN_PRODUCTOS) then Some("Sin Productos")
    else estado
  }

  /** Of the two estados the server produces, only "ACTIVA" is known to the component: a
      deleted category's "ELIMINADA" gets the fallback badge and its raw text. */
  lemma BadgeOfServerEstado(eliminado: Option<bool>)
    ensures EstadoBadge(Some(MapEstado(eliminado))) == (if eliminado == Some(true) then "secondary" else "success")
    ensures EstadoTexto(Some(MapEstado(eliminado))) == (if eliminado == Some(true) then Some(ELIMINADA) else Some("Activa"))
  {
  }

  /** The component's state as one value. */
  datatype Estado = Estado(
    categorias: seq<CategoriaDTO>,
    loading: bool,
    error: string,
    mostrarEliminadas: bool,
    filtro: string,
    procesando: Option<int>,
    vistaEstadisticas: bool)

  /** The state on mounting: nothing loaded yet, loading, normal view, no filter. */
  const Inicial: Estado := Estado([], true, "", false, "", None, false)

  /** The state after cargarCategorias received the server's answer, or failed. */
  function TrasCarga(e: Estado, respuesta: Option<seq<CategoriaDTO>>): (r: Estado)
    ensures r.mostrarEliminadas == e.mostrarEliminadas && r.vistaEstadisticas == e.vistaEstadisticas
    ensures r.filtro == e.filtro && r.procesando == e.procesando && !r.loading
    ensures respuesta.Some? ==>
              r.error == "" && r.categorias == Visibles(ConsultaPara(e.mostrarEliminadas, e.vistaEstadisticas), respuesta.value)
    ensures respuesta.None? ==> r.error == ERROR_CARGAR && r.categorias == e.categorias
  {
    match respuesta
    case Some(data) =>
      e.(categorias := Visibles(ConsultaPara(e.mostrarEliminadas, e.vistaEstadisticas), data), error := "", loading := false)
    case None => e.(error := ERROR_CARGAR, loading := false)
  }

  /** After a successful load outside the deleted view no listed category is deleted. */
  lemma TrasCargaHidesDeleted(e: Estado, data: seq<CategoriaDTO>)
    requires !e.mostrarEliminadas
    ensures forall i :: 0 <= i < |TrasCarga(e, Some(data)).categorias| ==> NoEliminada(TrasCarga(e, Some(data)).categorias[i])
  {
  }

  class ListState {
    var categorias: seq<CategoriaDTO>
    var loading: bool
    var error: string
    var mostrarEliminadas: bool
    var filtro: string
    var procesando: Option<int>
    var vistaEstadisticas: bool

    function Snapshot(): Estado
      reads this
    {
      Estado(categorias, loading, error, mostrarEliminadas, filtro, procesando, vistaEstadisticas)
    }

    constructor()
      ensures Snapshot() == Inicial
    {
      categorias, loading, error := [], true, "";
      mostrarEliminadas, filtro, procesando, vistaEstadisticas := false, "", None, false;
    }

    /** cargarCategorias: busy and without error message while the list chosen by the view
        is fetched; then the answer, filtered, replaces the list, or the error is shown and
        the old list stays; not busy afterwards either way. */
    method CargarCategorias(respuesta: Option<seq<CategoriaDTO>>) returns (consulta: Consulta, loadingDurante: bool)
      modifies this
      ensures consulta == ConsultaPara(old(mostrarEliminadas), old(vistaEstadisticas))
      ensures loadingDurante
      ensures Snapshot() == TrasCarga(old(Snapshot()), respuesta)
    {
      loading := true;
      error := "";
      consulta := ConsultaPara(mostrarEliminadas, vistaEstadisticas);
      loadingDurante := loading;
      if respuesta.Some? {
        categorias := Visibles(consulta, respuesta.value);
      } else {
        error := ERROR_CARGAR;
      }
      loading := false;
    }

    /** handleEliminar: a row with products only raises the alert, and a declined
        confirmation does nothing; neither sends a request or changes any state. Otherwise
        the row is marked busy while the delete runs, the list is reloaded after a success
        and the error shown after a failure, and the mark is cleared either way. */
    method HandleEliminar(id: int, cantidadProductos: Option<int>, confirmado: bool, exito: bool,
                          recarga: Option<seq<CategoriaDTO>>)
      returns (alerta: bool, llamada: bool, procesandoDurante: Option<int>)
      modifies this
      ensures alerta <==> TieneProductos(cantidadProductos)
      ensures llamada <==> !alerta && confirmado
      ensures !llamada ==> Snapshot() == old(Snapshot())
      ensures llamada ==> procesandoDurante == Some(id)
      ensures llamada && exito ==> Snapshot() == TrasCarga(old(Snapshot()), recarga).(procesando := None)
      ensures llamada && !exito ==> Snapshot() == old(Snapshot()).(error := ERROR_ELIMINAR, procesando := None)
    {
      alerta := TieneProductos(cantidadProductos);
      if alerta || !confirmado {
        llamada, procesandoDurante := false, procesando;
        return;
      }
      procesando := Some(id);
      llamada := true;
      procesandoDurante := procesando;
      if exito {
        var _, _ := CargarCategorias(recarga);
      } else {
        error := ERROR_ELIMINAR;
      }
      procesando := None;
    }

    /** handleRestaurar: as handleEliminar, without the products guard. */
    method HandleRestaurar(id: int, confirmado: bool, exito: bool, recarga: Option<seq<CategoriaDTO>>)
      returns (llamada: bool, procesandoDurante: Option<int>)
      modifies this
      ensures llamada <==> confirmado
      ensures !llamada ==> Snapshot() == old(Snapshot())
      ensures llamada ==> procesandoDurante == Some(id)
      ensures llamada && exito ==> Snapshot() == TrasCarga(old(Snapshot()), recarga).(procesando := None)
      ensures llamada && !exito ==> Snapshot() == old(Snapshot()).(error := ERROR_RESTAURAR, procesando := None)
    {
      if !confirmado {
        llamada, procesandoDurante := false, procesando;
        return;
      }
      procesando := Some(id);
      llamada := true;
      procesandoDurante := procesando;
      if exito {
        var _, _ := CargarCategorias(recarga);
      } else {
        error := ERROR_RESTAURAR;
      }
      procesando := None;
    }

    /** The show-deleted button: flips the view and always leaves the statistics view. */
    method ToggleEliminadas()
      modifies this
      ensures Snapshot() == old(Snapshot()).(mostrarEliminadas := !old(mostrarEliminadas), vistaEstadisticas := false)
    {
      mostrarEliminadas := !mostrarEliminadas;
      vistaEstadisticas := false;
    }

    /** The statistics button, which is disabled while the deleted ones are shown. */
    method ToggleEstadisticas()
      requires !mostrarEliminadas
      modifies this
      ensures Snapshot() == old(Snapshot()).(vistaEstadisticas := !old(vistaEstadisticas))
    {
      vistaEstadisticas := !vistaEstadisticas;
    }

    /** Typing in the search box. */
    method SetFiltro(f: string)
      modifies this
      ensures Snapshot() == old(Snapshot()).(filtro := f)
    {
      filtro := f;
    }
  }
}
