/** The product form component without its markup: the values of its five inputs, the error
    message per field, the busy flag, the validation rules it applies before sending, and the
    pre-fill from the product being edited. Unlike the category form it sends its values as
    they are, untrimmed. The request is an input of the model. Numeric inputs arrive already
    converted to numbers. */
module ProductoForm {
  import opened Wrappers
  import opened Text
  import opened Entities
  import opened ProductoQueryMapper
  import ProductoCommandMapper

  /** The form's inputs by their name attribute ("nombre", "descripcion", "precio", "stock",
      "categoriaId"), which also keys the error map. */
  datatype Campo = Nombre | Descripcion | Precio | Stock | CategoriaId

  const NOMBRE_OBLIGATORIO: string := "El nombre es obligatorio"
  const PRECIO_NO_POSITIVO: string := "El precio debe ser mayor a 0"
  const STOCK_NEGATIVO: string := "El stock no puede ser negativo"
  const SIN_CATEGORIA: string := "Debe seleccionar una categoría"

  /** The values of the five inputs. A field is null after filling the form from a product
      whose DTO has it null; the category select uses 0 for "none chosen". */
  datatype FormData = FormData(
    nombre: string,
    descripcion: Option<string>,
    precio: Option<real>,
    stock: Option<int>,
    categoriaId: Option<int>)

  /** The empty form: blank texts, zero numbers, no category chosen. */
  const Inicial: FormData := FormData("", Some(""), Some(0.0), Some(0), Some(0))

  /** One change event of an input: which input, and its new value. */
  datatype Cambio =
    | NuevoNombre(texto: string)
    | NuevaDescripcion(texto: string)
    | NuevoPrecio(numero: real)
    | NuevoStock(entero: int)
    | NuevaCategoria(entero: int)

  /** The input a change event comes from. */
  function CampoDe(c: Cambio): Campo {
    match c
    case NuevoNombre(_) => Nombre
    case NuevaDescripcion(_) => Descripcion
    case NuevoPrecio(_) => Precio
    case NuevoStock(_) => Stock
    case NuevaCategoria(_) => CategoriaId
  }

  /** The form values after one change event: only the named field changes. */
  function Aplicar(f: FormData, c: Cambio): (r: FormData)
    ensures CampoDe(c) != Nombre ==> r.nombre == f.nombre
    ensures CampoDe(c) != Descripcion ==> r.descripcion == f.descripcion
    ensures CampoDe(c) != Precio ==> r.precio == f.precio
    ensures CampoDe(c) != Stock ==> r.stock == f.stock
    ensures CampoDe(c) != CategoriaId ==> r.categoriaId == f.categoriaId
  {
    match c
    case NuevoNombre(v) => f.(nombre := v)
    case NuevaDescripcion(v) => f.(descripcion := Some(v))
    case NuevoPrecio(v) => f.(precio := Some(v))
    case NuevoStock(v) => f.(stock := Some(v))
    case NuevaCategoria(v) => f.(categoriaId := Some(v))
  }

  /** `precio <= 0` as JavaScript evaluates it: a null price compares as 0, so it fails. */
  predicate PrecioInvalido(precio: Option<real>) {
    precio.None? || precio.value <= 0.0
  }

  /** `stock < 0` as JavaScript evaluates it: a null stock compares as 0, so it passes. */
  predicate StockInvalido(stock: Option<int>) {
    stock.Some? && stock.value < 0
  }

  /** The message of one input's rule, if it is broken; the description has no rule. */
  function ErrorDe(f: FormData, k: Campo): Option<string> {
    match k
    case Nombre => if Trim(f.nombre) == [] then Some(NOMBRE_OBLIGATORIO) else None
    case Descripcion => None
    case Precio => if PrecioInvalido(f.precio) then Some(PRECIO_NO_POSITIVO) else None
    case Stock => if StockInvalido(f.stock) then Some(STOCK_NEGATIVO) else None
    case CategoriaId => if f.categoriaId == Some(0) then Some(SIN_CATEGORIA) else None
  }

  /** The error map validateForm builds: an entry under each input whose rule is broken,
      holding that rule's message, and nothing else. */
  function Errores(f: FormData): (r: map<Campo, string>)
    ensures forall k :: k in r <==> ErrorDe(f, k).Some?
    ensures forall k :: k in r ==> r[k] == ErrorDe(f, k).value
  {
    map k | k in {Nombre, Precio, Stock, CategoriaId} && ErrorDe(f, k).Some? :: ErrorDe(f, k).value
  }

  /** The four rules one by one: a blank name, a price that is null or not positive, a
      negative stock and the unchosen category each put their message under their input;
      the description never has an error. */
  lemma ErroresPorCampo(f: FormData)
    ensures Errores(f).Keys <= {Nombre, Precio, Stock, CategoriaId}
    ensures Nombre in Errores(f) <==> Trim(f.nombre) == []
    ensures Precio in Errores(f) <==> PrecioInvalido(f.precio)
    ensures Stock in Errores(f) <==> StockInvalido(f.stock)
    ensures CategoriaId in Errores(f) <==> f.categoriaId == Some(0)
    ensures Nombre in Errores(f) ==> Errores(f)[Nombre] == NOMBRE_OBLIGATORIO
    ensures Precio in Errores(f) ==> Errores(f)[Precio] == PRECIO_NO_POSITIVO
    ensures Stock in Errores(f) ==> Errores(f)[Stock] == STOCK_NEGATIVO
    ensures CategoriaId in Errores(f) ==> Errores(f)[CategoriaId] == SIN_CATEGORIA
  {
    assert ErrorDe(f, Descripcion).None?;
  }

  /** None of the four rules is broken: a name that is not blank, a positive price, a stock
      that is not negative, and a chosen category. */
  predicate SinErrores(f: FormData) {
    && Trim(f.nombre) != []
    && f.precio.Some? && f.precio.value > 0.0
    && (f.stock.None? || f.stock.value >= 0)
    && f.categoriaId != Some(0)
  }

  /** The error map is empty exactly when no rule is broken. */
  lemma ErroresEmptyIff(f: FormData)
    ensures Errores(f) == map[] <==> SinErrores(f)
  {
    ErroresPorCampo(f);
    if Errores(f) != map[] {
      assert Nombre in Errores(f) || Precio in Errores(f) || Stock in Errores(f) || CategoriaId in Errores(f);
    }
  }

  /** The server command the form's values deserialise to, for a chosen category. */
  function ToCommand(f: FormData): (r: CrearProductoCommand)
    requires f.categoriaId.Some?
    ensures r.nombre == f.nombre && r.descripcion == f.descripcion
    ensures r.precio == f.precio && r.stock == f.stock && r.categoriaId == f.categoriaId.value
  {
    CrearProductoCommand(f.nombre, f.descripcion, f.precio, f.stock, f.categoriaId.value)
  }

  /** A form that passes its own validation also passes the server mapper's price and stock
      checks, which yield the plain new row. */
  lemma ValidFormPassesServerChecks(f: FormData)
    requires Errores(f) == map[] && f.categoriaId.Some?
    ensures ProductoCommandMapper.ToEntityWithValidation(Some(ToCommand(f)), f.categoriaId.value)
            == Ok(Some(ProductoCommandMapper.ToEntity(ToCommand(f), f.categoriaId.value)))
  {
    ErroresPorCampo(f);
    assert Precio !in Errores(f) && Stock !in Errores(f);
  }

  /** The request a submit issues: create, or update the product being edited, with the form
      values as they stand. */
  datatype Llamada =
    | Crear(datos: FormData)
    | Actualizar(id: Option<int>, datos: FormData)

  /** The component's state. The product being edited is a prop, fixed for the component's
      life. */
  class FormState {
    const producto: Option<ProductoDTO>
    var formData: FormData
    var errors: map<Campo, string>
    var loading: bool

    /** The initial state: the empty form, no errors, not busy. */
    constructor(producto: Option<ProductoDTO>)
      ensures this.producto == producto
      ensures formData == Inicial && errors == map[] && !loading
    {
      this.producto := producto;
      formData := Inicial;
      errors := map[];
      loading := false;
    }

    /** The editing form: a product was given. */
    predicate IsEditing()
      reads this
    {
      producto.Some?
    }

    /** The pre-fill effect: in edit mode the five inputs take the product's name,
        description, price, stock and category id; otherwise nothing changes. */
    method Prefill()
      modifies this
      ensures IsEditing() ==>
                formData == FormData(producto.value.nombre, producto.value.descripcion, producto.value.precio,
                                     producto.value.stock, producto.value.categoriaId)
      ensures !IsEditing() ==> formData == old(formData)
      ensures errors == old(errors) && loading == old(loading)
    {
      if producto.Some? {
        var p := producto.value;
        formData := FormData(p.nombre, p.descripcion, p.precio, p.stock, p.categoriaId);
      }
    }

    /** validateForm: replaces the error map with the errors of the current values, and
        reports whether there are none. */
    method ValidateForm() returns (ok: bool)
      modifies this
      ensures errors == Errores(formData)
      ensures ok <==> errors == map[]
      ensures formData == old(formData) && loading == old(loading)
    {
      var e := Errores(formData);
      errors := e;
      ok := e == map[];
    }

    /** handleInputChange: the named input takes the new value, and that input's error, if
        it shows one, is blanked; every other input and error is left as it was. */
    method HandleInputChange(c: Cambio)
      modifies this
      ensures formData == Aplicar(old(formData), c)
      ensures forall k :: k != CampoDe(c) ==> (k in errors <==> k in old(errors))
      ensures forall k :: k != CampoDe(c) && k in errors ==> errors[k] == old(errors)[k]
      ensures CampoDe(c) in errors <==> CampoDe(c) in old(errors)
      ensures CampoDe(c) in errors ==> errors[CampoDe(c)] == ""
      ensures loading == old(loading)
    {
      formData := Aplicar(formData, c);
      var name := CampoDe(c);
      if name in errors && errors[name] != "" {
        errors := errors[name := ""];
      }
    }

    /** handleSubmit. A form that fails validation issues no request and stays idle.
        Otherwise the form is busy while the request runs: an update of the edited product
        when there is one, a create otherwise, with the values exactly as entered; the parent
        is told whether it succeeded, and the form is idle again afterwards either way. */
    method HandleSubmit(exito: bool) returns (llamada: Option<Llamada>, loadingDurante: bool, resultado: Option<bool>)
      modifies this
      ensures formData == old(formData) && errors == Errores(old(formData))
      ensures llamada.None? <==> Errores(old(formData)) != map[]
      ensures llamada.None? ==> resultado.None? && loading == old(loading)
      ensures llamada.Some? ==>
                && loadingDurante && !loading
                && resultado == Some(exito)
                && llamada.value.datos == old(formData)
                && (llamada.value.Actualizar? <==> IsEditing())
                && (llamada.value.Actualizar? ==> llamada.value.id == producto.value.id)
    {
      var ok := ValidateForm();
      if !ok {
        llamada, loadingDurante, resultado := None, loading, None;
        return;
      }
      loading := true;
      if IsEditing() {
        llamada := Some(Actualizar(producto.value.id, formData));
      } else {
        llamada := Some(Crear(formData));
      }
      loadingDurante := loading;
      resultado := Some(exito);
      loading := false;
    }
  }
}
