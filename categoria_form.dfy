/** The category form component without its markup: the values of its two inputs, the error
    message per field, the busy flag, the validation rules it applies before sending, and the
    request body it builds. The request itself is an input of the model: HandleSubmit says
    which request it issues, and takes whether it succeeded as a parameter. */
module CategoriaForm {
  import opened Wrappers
  import opened Text
  import opened Entities
  import Cmd = CrearCategoriaCommand
  import opened CategoriaQueryMapper
  import CategoriaCommandMapper

  /** The form's inputs by their name attribute ("nombre", "descripcion"), which also keys
      the error map. */
  datatype Campo = Nombre | Descripcion

  const NOMBRE_OBLIGATORIO: string := "El nombre es obligatorio"
  const NOMBRE_CORTO: string := "El nombre debe tener al menos 2 caracteres"
  const DESCRIPCION_CORTA: string := "La descripción debe tener al menos 5 caracteres o estar vacía"

  /** The values of the two inputs. The description is null after filling the form from a
      category that has none. */
  datatype FormData = FormData(nombre: string, descripcion: Option<string>)

  /** One change event of an input: which input, and its new text. */
  datatype Cambio = Cambio(campo: Campo, valor: string)

  /** The request a submit issues: create, or update the category being edited. */
  datatype Llamada =
    | Crear(datos: Cmd.CrearCategoriaCommand)
    | Actualizar(id: Option<int>, datos: Cmd.CrearCategoriaCommand)

  /** The name rule: required once trimmed, and at least 2 characters long once trimmed. */
  function NombreError(nombre: string): (r: Option<string>)
    ensures r == None <==> |Trim(nombre)| >= 2
    ensures r == Some(NOMBRE_OBLIGATORIO) <==> Trim(nombre) == []
    ensures r == Some(NOMBRE_CORTO) <==> |Trim(nombre)| == 1
  {
    if Trim(nombre) == [] then Some(NOMBRE_OBLIGATORIO)
    else if |Trim(nombre)| < 2 then Some(NOMBRE_CORTO)
    else None
  }

  /** The description rule: a null or blank description is fine, and so is one of at least 5
      characters once trimmed; 1 to 4 characters is an error. */
  function DescripcionError(descripcion: Option<string>): (r: Option<string>)
    ensures r.Some? <==> descripcion.Some? && 1 <= |Trim(descripcion.value)| <= 4
    ensures r.Some? ==> r.value == DESCRIPCION_CORTA
  {
    if descripcion.Some? && descripcion.value != [] && |Trim(descripcion.value)| > 0
       && |Trim(descripcion.value)| < 5
    then Some(DESCRIPCION_CORTA)
    else None
  }

  /** The message of one input's rule, if it is broken. */
  function ErrorDe(f: FormData, k: Campo): Option<string> {
    match k
    case Nombre => NombreError(f.nombre)
    case Descripcion => DescripcionError(f.descripcion)
  }

  /** The error map validateForm builds: one entry per broken rule, under the input's name. */
  function Errores(f: FormData): (r: map<Campo, string>)
    ensures r.Keys <= {Nombre, Descripcion}
    ensures Nombre in r <==> |Trim(f.nombre)| < 2
    ensures Nombre in r ==> r[Nombre] == NombreError(f.nombre).value
    ensures Descripcion in r <==> DescripcionError(f.descripcion).Some?
    ensures Descripcion in r ==> r[Descripcion] == DESCRIPCION_CORTA
  {
    map k | k in {Nombre, Descripcion} && ErrorDe(f, k).Some? :: ErrorDe(f, k).value
  }

  /** No rule is broken: the trimmed name has at least 2 characters, and the description is
      null, blank, or at least 5 characters once trimmed. */
  predicate SinErrores(f: FormData) {
    && |Trim(f.nombre)| >= 2
    && (f.descripcion.None? || |Trim(f.descripcion.value)| == 0 || |Trim(f.descripcion.value)| >= 5)
  }

  /** The error map is empty exactly when no rule is broken. */
  lemma ErroresEmptyIff(f: FormData)
    ensures Errores(f) == map[] <==> SinErrores(f)
  {
    if Errores(f) != map[] {
      assert Nombre in Errores(f) || Descripcion in Errores(f);
    }
  }

  /** The description sent: trimmed, and absent when it trims to nothing. */
  function DescripcionEnviada(descripcion: Option<string>): (r: Option<string>)
    ensures r.None? <==> descripcion.None? || Trim(descripcion.value) == []
    ensures r.Some? ==> r.value == Trim(descripcion.value)
  {
    if descripcion.Some? && Trim(descripcion.value) != [] then Some(Trim(descripcion.value)) else None
  }

  /** dataToSend: the trimmed name, and the description as DescripcionEnviada gives it. No
      field of the body starts or ends with whitespace, and a sent description is never
      empty. */
  function Payload(f: FormData): (r: Cmd.CrearCategoriaCommand)
    ensures r.nombre == Some(Trim(f.nombre))
    ensures r.descripcion == DescripcionEnviada(f.descripcion)
    ensures r.nombre.value != [] ==> !IsWhitespace(r.nombre.value[0]) && !IsWhitespace(r.nombre.value[|r.nombre.value| - 1])
    ensures r.descripcion.Some? ==>
              && r.descripcion.value != []
              && !IsWhitespace(r.descripcion.value[0])
              && !IsWhitespace(r.descripcion.value[|r.descripcion.value| - 1])
  {
    Cmd.CrearCategoriaCommand(Some(Trim(f.nombre)), DescripcionEnviada(f.descripcion))
  }

  /** The form values a body would produce if typed back in. */
  function FormDataOf(cmd: Cmd.CrearCategoriaCommand): FormData {
    FormData(cmd.nombre.GetOr([]), cmd.descripcion)
  }

  /** Normalising twice equals normalising once. */
  lemma PayloadIdempotent(f: FormData)
    ensures Payload(FormDataOf(Payload(f))) == Payload(f)
  {
    TrimIdempotent(f.nombre);
    if f.descripcion.Some? {
      TrimIdempotent(f.descripcion.value);
    }
  }

  /** A form that passes its own validation, within the inputs' maxLength of 100 and 500
      characters, sends a body that also passes the server's constraints. */
  lemma ValidFormSendsValidCommand(f: FormData)
    requires Errores(f) == map[]
    requires |f.nombre| <= 100
    requires f.descripcion.None? || |f.descripcion.value| <= 500
    ensures Cmd.IsValid(Payload(f))
  {
    ErroresEmptyIff(f);
    PayloadValid(f);
  }

  /** The body of a form with no broken rule, within the inputs' maxLength, is valid. */
  lemma PayloadValid(f: FormData)
    requires SinErrores(f)
    requires |f.nombre| <= 100
    requires f.descripcion.None? || |f.descripcion.value| <= 500
    ensures Cmd.IsValid(Payload(f))
  {
    NombreEnviadoValido(f.nombre);
    assert Cmd.SizeAtMost(DescripcionEnviada(f.descripcion), Cmd.MaxDescripcion);
  }

  /** A name whose trimmed form has at least 2 characters, within 100, is sent as a name
      that is not blank and within 100 characters. */
  lemma NombreEnviadoValido(nombre: string)
    requires |Trim(nombre)| >= 2 && |nombre| <= 100
    ensures Cmd.NotBlank(Some(Trim(nombre))) && Cmd.SizeAtMost(Some(Trim(nombre)), Cmd.MaxNombre)
  {
    var n := Trim(nombre);
    assert 0 <= 0 < |n| && !IsWhitespace(n[0]);
  }

  /** Emptying the description while editing sends no description, and the server's
      null-ignoring update then keeps the old one: a description cannot be cleared. */
  lemma BlankDescripcionKeepsOld(c: Categoria, f: FormData)
    requires f.descripcion.Some? && forall k :: 0 <= k < |f.descripcion.value| ==> IsWhitespace(f.descripcion.value[k])
    ensures CategoriaCommandMapper.UpdateEntity(c, Payload(f)).descripcion == c.descripcion
  {
    TrimEmptyIff(f.descripcion.value);
  }

  /** The component's state. The category being edited is a prop, fixed for the component's
      life. */
  class FormState {
    const categoria: Option<CategoriaDTO>
    var formData: FormData
    var errors: map<Campo, string>
    var loading: bool

    /** The initial state: both inputs empty, no errors, not busy. */
    constructor(categoria: Option<CategoriaDTO>)
      ensures this.categoria == categoria
      ensures formData == FormData("", Some("")) && errors == map[] && !loading
    {
      this.categoria := categoria;
      formData := FormData("", Some(""));
      errors := map[];
      loading := false;
    }

    /** The editing form: a category was given. */
    predicate IsEditing()
      reads this
    {
      categoria.Some?
    }

    /** The pre-fill effect: in edit mode the inputs take the category's name and
        description; otherwise nothing changes. */
    method Prefill()
      modifies this
      ensures IsEditing() ==> formData == FormData(categoria.value.nombre, categoria.value.descripcion)
      ensures !IsEditing() ==> formData == old(formData)
      ensures errors == old(errors) && loading == old(loading)
    {
      if categoria.Some? {
        formData := FormData(categoria.value.nombre, categoria.value.descripcion);
      }
    }

    /** validateForm: replaces the error map with the errors of the current values, and
        reports whether there are none. */
    method ValidateForm() returns (ok: bool)
      modifies this
      ensures errors == Errores(formData)
      ensures ok <==> errors == map[]
      ensures formData == old(formData) && loading == old(loading)
    {
      var e := Errores(formData);
      errors := e;
      ok := e == map[];
    }

    /** handleInputChange: the named input takes the new text, and that input's error, if
        it shows one, is blanked; every other input and error is left as it was. */
    method HandleInputChange(c: Cambio)
      modifies this
      ensures c.campo == Nombre ==> formData == old(formData).(nombre := c.valor)
      ensures c.campo == Descripcion ==> formData == old(formData).(descripcion := Some(c.valor))
      ensures forall k :: k != c.campo ==> (k in errors <==> k in old(errors))
      ensures forall k :: k != c.campo && k in errors ==> errors[k] == old(errors)[k]
      ensures c.campo in errors <==> c.campo in old(errors)
      ensures c.campo in errors ==> errors[c.campo] == ""
      ensures loading == old(loading)
    {
      if c.campo == Nombre {
        formData := formData.(nombre := c.valor);
      } else {
        formData := formData.(descripcion := Some(c.valor));
      }
      var name := c.campo;
      if name in errors && errors[name] != "" {
        errors := errors[name := ""];
      }
    }

    /** handleSubmit. A form that fails validation issues no request and stays idle.
        Otherwise the form is busy while the request runs: an update of the edited category
        when there is one, a create otherwise, with the normalised body; the parent is told
        whether it succeeded, and the form is idle again afterwards either way. */
    method HandleSubmit(exito: bool) returns (llamada: Option<Llamada>, loadingDurante: bool, resultado: Option<bool>)
      modifies this
      ensures formData == old(formData) && errors == Errores(old(formData))
      ensures llamada.None? <==> Errores(old(formData)) != map[]
      ensures llamada.None? ==> resultado.None? && loading == old(loading)
      ensures llamada.Some? ==>
                && loadingDurante && !loading
                && resultado == Some(exito)
                && llamada.value.datos == Payload(old(formData))
                && (llamada.value.Actualizar? <==> IsEditing())
                && (llamada.value.Actualizar? ==> llamada.value.id == categoria.value.id)
    {
      var ok := ValidateForm();
      if !ok {
        llamada, loadingDurante, resultado := None, loading, None;
        return;
      }
      loading := true;
      var data := Payload(formData);
      if IsEditing() {
        llamada := Some(Actualizar(categoria.value.id, data));
      } else {
        llamada := Some(Crear(data));
      }
      loadingDurante := loading;
      resultado := Some(exito);
      loading := false;
    }
  }
}
