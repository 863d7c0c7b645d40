/** The product list component without its markup: which server list it loads, the
    client-side filters on what it receives, the per-row busy marker around deletes and
    restores, the view toggle, and the badge and label for each stock status. Server answers
    and confirmation dialogs are inputs of the model. */
module ProductoListar {
  import opened Wrappers
  import opened Text
  import Seqs
  import opened Store
  import opened ProductoQueryMapper
  import PR = ProductoRepository
  import PQS = ProductoQueryService

  /** The two server lists the component can load. */
  datatype Consulta = Eliminados | ConEstadoStock

  const ERROR_CARGAR: string := "Error al cargar los productos"
  const ERROR_ELIMINAR: string := "Error al eliminar el producto"
  const ERROR_RESTAURAR: string := "Error al restaurar el producto"

  /** The list to load: the deleted ones when they are shown, the list with stock status
      otherwise. */
  function ConsultaPara(mostrarEliminados: bool): (r: Consulta)
    ensures r == Eliminados <==> mostrarEliminados
  {
    if mostrarEliminados then Eliminados else ConEstadoStock
  }

  /** `!p.eliminado`: a null flag counts as not deleted. */
  predicate NoEliminado(p: ProductoDTO) {
    p.eliminado != Some(true)
  }

  /** The list kept from a server answer: the deleted list as it came, the other one with
      every deleted entry dropped, order kept. */
  function Visibles(consulta: Consulta, data: seq<ProductoDTO>): (r: seq<ProductoDTO>)
    ensures consulta == Eliminados ==> r == data
    ensures consulta == ConEstadoStock ==> Seqs.IsSubsequence(r, data)
    ensures consulta == ConEstadoStock ==> forall p :: p in r <==> p in data && NoEliminado(p)
    ensures consulta == ConEstadoStock ==> forall i :: 0 <= i < |r| ==> NoEliminado(r[i])
  {
    if consulta == Eliminados then data
    else
      Seqs.FilterIsSubsequence(NoEliminado, data);
      Seqs.FilterMembershipAll(NoEliminado, data);
      Seqs.Filter(NoEliminado, data)
  }

  /** The server's answer to each list, as the query service computes it. */
  function Respuesta(db: Db, consulta: Consulta): seq<ProductoDTO>
    requires WellFormed(db)
  {
    match consulta
    case Eliminados => PQS.ObtenerProductosEliminados(db)
    case ConEstadoStock => PQS.ObtenerProductosConEstadoStock(db)
  }

  /** Against the server as modelled the client-side filter drops nothing: the list with
      stock status already holds active products only. */
  lemma VisiblesKeepsServerAnswer(db: Db, consulta: Consulta)
    requires WellFormed(db)
    ensures Visibles(consulta, Respuesta(db, consulta)) == Respuesta(db, consulta)
  {
    var data := Respuesta(db, consulta);
    if consulta == ConEstadoStock {
      forall i | 0 <= i < |data| ensures NoEliminado(data[i]) {
        var d := PQS.ObtenerTodosLosProductos(db)[i];
        assert PQS.DTOOfStored(db, d) && PR.ActivoConCategoriaActiva(db, db.productos[d.id.value]);
      }
      Seqs.FilterAll(NoEliminado, data);
    }
  }

  /** productosFiltrados as written: `toLowerCase` is called on the description and then on
      the category name of every product whose name does not match, so a null one of these
      throws and no list is produced (None). */
  function FiltradosComoEscrito(productos: seq<ProductoDTO>, filtro: string): (r: Option<seq<ProductoDTO>>)
    ensures r.Some? ==> |r.value| <= |productos|
    decreases |productos|
  {
    if productos == [] then Some([])
    else
      var p := productos[0];
      var keep :=
        if ContainsIgnoreCase(p.nombre, filtro) then Some(true)
        else if p.descripcion.None? then None
        else if ContainsIgnoreCase(p.descripcion.value, filtro) then Some(true)
        else if p.categoriaNombre.None? then None
        else Some(ContainsIgnoreCase(p.categoriaNombre.value, filtro));
      match (keep, FiltradosComoEscrito(productos[1..], filtro))
      case (Some(k), Some(rest)) => Some((if k then [p] else []) + rest)
      case _ => None
  }

  /** The filter as evidently intended, null-safe as the category list's filter is: the
      folded name, description or category name contains the folded filter, a null text
      containing nothing but the empty filter. */
  predicate Coincide(filtro: string, p: ProductoDTO) {
    || ContainsIgnoreCase(p.nombre, filtro)
    || ContainsIgnoreCase(p.descripcion.GetOr([]), filtro)
    || ContainsIgnoreCase(p.categoriaNombre.GetOr([]), filtro)
  }

  /** Coincide for a fixed filter, as a value. */
  function CoincideFn(filtro: string): ProductoDTO -> bool {
    (p: ProductoDTO) => Coincide(filtro, p)
  }

  /** productosFiltrados, null-safe: the rows that match the filter, in their order; an
      empty filter keeps every row. */
  function Filtrados(productos: seq<ProductoDTO>, filtro: string): (r: seq<ProductoDTO>)
    ensures Seqs.IsSubsequence(r, productos)
    ensures forall p :: p in r <==> p in productos && Coincide(filtro, p)
    ensures filtro == [] ==> r == productos
  {
    Seqs.FilterIsSubsequence(CoincideFn(filtro), productos);
    Seqs.FilterMembershipAll(CoincideFn(filtro), productos);
    if filtro == [] then
      EmptyFilterMatches(productos);
      Seqs.FilterAll(CoincideFn(filtro), productos);
      Seqs.Filter(CoincideFn(filtro), productos)
    else
      Seqs.Filter(CoincideFn(filtro), productos)
  }

  /** Every name contains the empty filter. */
  lemma EmptyFilterMatches(productos: seq<ProductoDTO>)
    ensures forall i :: 0 <= i < |productos| ==> CoincideFn([])(productos[i])
  {
    forall i | 0 <= i < |productos| ensures Coincide([], productos[i]) {
      ContainsEmpty(Fold(productos[i].nombre));
    }
  }

  /** When no product has a null description or category name, the code as written computes
      exactly the intended list. */
  lemma {:induction false} FiltradosComoEscritoAgrees(productos: seq<ProductoDTO>, filtro: string)
    requires forall i :: 0 <= i < |productos| ==> productos[i].descripcion.Some? && productos[i].categoriaNombre.Some?
    ensures FiltradosComoEscrito(productos, filtro) == Some(Filtrados(productos, filtro))
  {
    if productos != [] {
      FiltradosComoEscritoAgrees(productos[1..], filtro);
      assert Seqs.Filter(CoincideFn(filtro), productos) ==
             (if Coincide(filtro, productos[0]) then [productos[0]] else []) + Seqs.Filter(CoincideFn(filtro), productos[1..]);
    }
  }

  /** A product with a null description, whose name and category name do not contain the
      filter: the list as written throws instead of leaving it out. */
  lemma NullDescripcionBreaksFilter(p: ProductoDTO, filtro: string)
    requires p.descripcion.None?
    requires !ContainsIgnoreCase(p.nombre, filtro)
    requires !ContainsIgnoreCase(p.categoriaNombre.GetOr([]), filtro)
    ensures FiltradosComoEscrito([p], filtro) == None
    ensures Filtrados([p], filtro) == []
  {
    ContainsEmpty(Fold(p.nombre));
    assert !ContainsIgnoreCase([], filtro);
    assert !Coincide(filtro, p);
    assert Seqs.Filter(CoincideFn(filtro), [p]) == [] + Seqs.Filter(CoincideFn(filtro), []);
  }

  /** One such product: "Mesa", without a description, in "Muebles", under the filter "x". */
  lemma NullDescripcionExample()
    ensures var p := ProductoDTO(Some(1), "Mesa", None, Some(10.0), Some(5), Some("Muebles"), Some(1),
                                 Some(false), Some(STOCK_BAJO), None);
            && FiltradosComoEscrito([p], "x") == None
            && Filtrados([p], "x") == []
  {
    var p := ProductoDTO(Some(1), "Mesa", None, Some(10.0), Some(5), Some("Muebles"), Some(1),
                         Some(false), Some(STOCK_BAJO), None);
    assert Fold("x") == "x" by { assert Fold("x")[0] == FoldChar('x'); }
    ContainsCharIff(Fold("Mesa"), 'x');
    ContainsCharIff(Fold("Muebles"), 'x');
    NullDescripcionBreaksFilter(p, "x");
  }

  /** getStockBadge: one colour per known status, low and high stock both "warning", and
      "secondary" for anything else, a null status included. */
  function StockBadge(status: Option<string>): (r: string)
    ensures r == "danger" <==> status == Some(SIN_STOCK)
    ensures r == "warning" <==> status == Some(STOCK_BAJO) || status == Some(STOCK_ALTO)
    ensures r == "success" <==> status == Some(STOCK_MEDIO)
    ensures r == "secondary" <==> status !in {Some(SIN_STOCK), Some(STOCK_BAJO), Some(STOCK_MEDIO), Some(STOCK_ALTO)}
  {
    if status == Some(SIN_STOCK) then "danger"
    else if status == Some(STOCK_BAJO) then "warning"
    else if status == Some(STOCK_MEDIO) then "success"
    else if status == Some(STOCK_ALTO) then "warning"
    else "secondary"
  }

  /** getStockText: one label per known status, the status itself for anything else. */
  function StockText(status: Option<string>): (r: Option<string>)
    ensures status !in {Some(SIN_STOCK), Some(STOCK_BAJO), Some(STOCK_MEDIO), Some(STOCK_ALTO)} <==> r == status
    ensures r.None? <==> status.None?
  {
    if status == Some(SIN_STOCK) then Some("Sin Stock")
    else if status == Some(STOCK_BAJO) then Some("Stock Bajo")
    else if status == Some(STOCK_MEDIO) then Some("Stock Medio")
    else if status == Some(STOCK_ALTO) then Some("Stock Alto")
    else status
  }

  /** For a status the server computes, the fallback badge and raw text appear exactly for
      a null stock ("DESCONOCIDO"). */
  lemma BadgeOfServerStatus(stock: Option<int>)
    ensures StockBadge(Some(MapStockStatus(stock))) == "secondary" <==> stock.None?
    ensures StockText(Some(MapStockStatus(stock))) == Some(MapStockStatus(stock)) <==> stock.None?
  {
  }

  /** The deleted list carries no stock status, so every row of it gets the fallback badge
      and no label. */
  lemma DeletedListHasNoStatus(db: Db)
    requires WellFormed(db)
    ensures forall i :: 0 <= i < |PQS.ObtenerProductosEliminados(db)| ==>
              && StockBadge(PQS.ObtenerProductosEliminados(db)[i].stockStatus) == "secondary"
              && StockText(PQS.ObtenerProductosEliminados(db)[i].stockStatus).None?
  {
    var r := PQS.ObtenerProductosEliminados(db);
    forall i | 0 <= i < |r| ensures r[i].stockStatus.None? {
      assert PQS.DTOOfStored(db, r[i]);
    }
  }

  /** The component's state as one value. */
  datatype Estado = Estado(
    productos: seq<ProductoDTO>,
    loading: bool,
    error: string,
    mostrarEliminados: bool,
    filtro: string,
    procesando: Option<int>)

  /** The state on mounting: nothing loaded yet, loading, active view, no filter. */
  const Inicial: Estado := Estado([], true, "", false, "", None)

  /** The state after cargarProductos received the server's answer, or failed. */
  function TrasCarga(e: Estado, respuesta: Option<seq<ProductoDTO>>): (r: Estado)
    ensures r.mostrarEliminados == e.mostrarEliminados && r.filtro == e.filtro
    ensures r.procesando == e.procesando && !r.loading
    ensures respuesta.Some? ==>
              r.error == "" && r.productos == Visibles(ConsultaPara(e.mostrarEliminados), respuesta.value)
    ensures respuesta.None? ==> r.error == ERROR_CARGAR && r.productos == e.productos
  {
    match respuesta
    case Some(data) => e.(productos := Visibles(ConsultaPara(e.mostrarEliminados), data), error := "", loading := false)
    case None => e.(error := ERROR_CARGAR, loading := false)
  }

  class ListState {
    var productos: seq<ProductoDTO>
    var loading: bool
    var error: string
    var mostrarEliminados: bool
    var filtro: string
    var procesando: Option<int>

    function Snapshot(): Estado
      reads this
    {
      Estado(productos, loading, error, mostrarEliminados, filtro, procesando)
    }

    constructor()
      ensures Snapshot() == Inicial
    {
      productos, loading, error := [], true, "";
      mostrarEliminados, filtro, procesando := false, "", None;
    }

    /** cargarProductos: busy and without error message while the list chosen by the view is
        fetched; then the answer, filtered, replaces the list, or the error is shown and the
        old list stays; not busy afterwards either way. */
    method CargarProductos(respuesta: Option<seq<ProductoDTO>>) returns (consulta: Consulta, loadingDurante: bool)
      modifies this
      ensures consulta == ConsultaPara(old(mostrarEliminados))
      ensures loadingDurante
      ensures Snapshot() == TrasCarga(old(Snapshot()), respuesta)
    {
      loading := true;
      error := "";
      consulta := ConsultaPara(mostrarEliminados);
      loadingDurante := loading;
      if respuesta.Some? {
        productos := Visibles(consulta, respuesta.value);
      } else {
        error := ERROR_CARGAR;
      }
      loading := false;
    }

    /** handleEliminar: a declined confirmation sends no request and changes no state.
        Otherwise the row is marked busy while the delete runs, the list is reloaded after a
        success and the error shown after a failure, and the mark is cleared either way. */
    method HandleEliminar(id: int, confirmado: bool, exito: bool, recarga: Option<seq<ProductoDTO>>)
      returns (llamada: bool, procesandoDurante: Option<int>)
      modifies this
      ensures llamada <==> confirmado
      ensures !llamada ==> Snapshot() == old(Snapshot())
      ensures llamada ==> procesandoDurante == Some(id)
      ensures llamada && exito ==> Snapshot() == TrasCarga(old(Snapshot()), recarga).(procesando := None)
      ensures llamada && !exito ==> Snapshot() == old(Snapshot()).(error := ERROR_ELIMINAR, procesando := None)
    {
      if !confirmado {
        llamada, procesandoDurante := false, procesando;
        return;
      }
      procesando := Some(id);
      llamada := true;
      procesandoDurante := procesando;
      if exito {
        var _, _ := CargarProductos(recarga);
      } else {
        error := ERROR_ELIMINAR;
      }
      procesando := None;
    }

    /** handleRestaurar: as handleEliminar, with the restore request and its message. */
    method HandleRestaurar(id: int, confirmado: bool, exito: bool, recarga: Option<seq<ProductoDTO>>)
      returns (llamada: bool, procesandoDurante: Option<int>)
      modifies this
      ensures llamada <==> confirmado
      ensures !llamada ==> Snapshot() == old(Snapshot())
      ensures llamada ==> procesandoDurante == Some(id)
      ensures llamada && exito ==> Snapshot() == TrasCarga(old(Snapshot()), recarga).(procesando := None)
      ensures llamada && !exito ==> Snapshot() == old(Snapshot()).(error := ERROR_RESTAURAR, procesando := None)
    {
      if !confirmado {
        llamada, procesandoDurante := false, procesando;
        return;
      }
      procesando := Some(id);
      llamada := true;
      procesandoDurante := procesando;
      if exito {
        var _, _ := CargarProductos(recarga);
      } else {
        error := ERROR_RESTAURAR;
      }
      procesando := None;
    }

    /** The show-deleted button. */
    method ToggleEliminados()
      modifies this
      ensures Snapshot() == old(Snapshot()).(mostrarEliminados := !old(mostrarEliminados))
    {
      mostrarEliminados := !mostrarEliminados;
    }

    /** Typing in the search box. */
    method SetFiltro(f: string)
      modifies this
      ensures Snapshot() == old(Snapshot()).(filtro := f)
    {
      filtro := f;
    }
  }
}
