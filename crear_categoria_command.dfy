/** The category create/update command body and its Bean Validation constraints: `nombre` is
    NotBlank and Size(max = 100), `descripcion` is Size(max = 500). A constraint other than
    NotBlank holds on a null value, as Bean Validation prescribes. */
module CrearCategoriaCommand {
  import opened Wrappers
  import opened Text

  datatype CrearCategoriaCommand = CrearCategoriaCommand(nombre: Option<string>, descripcion: Option<string>)

  const MaxNombre: nat := 100
  const MaxDescripcion: nat := 500

  /** NotBlank: present, with at least one non-whitespace character. */
  predicate NotBlank(s: Option<string>) {
    s.Some? && exists i :: 0 <= i < |s.value| && !IsWhitespace(s.value[i])
  }

  /** Size(max = n): absent, or at most n characters long. */
  predicate SizeAtMost(s: Option<string>, n: nat) {
    s.None? || |s.value| <= n
  }

  /** All constraints of the command hold. */
  predicate IsValid(cmd: CrearCategoriaCommand) {
    && NotBlank(cmd.nombre)
    && SizeAtMost(cmd.nombre, MaxNombre)
    && SizeAtMost(cmd.descripcion, MaxDescripcion)
  }

  /** NotBlank agrees with the trim-based check Hibernate Validator performs: the name is
      present and does not trim to the empty string. */
  lemma NotBlankIffTrimNonEmpty(s: Option<string>)
    ensures NotBlank(s) <==> s.Some? && Trim(s.value) != []
  {
    if s.Some? {
      TrimEmptyIff(s.value);
    }
  }

  /** The whole validity table: a name that is null, blank or over 100 characters fails, a
      description over 500 characters fails, and every other command passes. */
  lemma IsValidIff(cmd: CrearCategoriaCommand)
    ensures IsValid(cmd) <==>
              && cmd.nombre.Some?
              && Trim(cmd.nombre.value) != []
              && |cmd.nombre.value| <= 100
              && (cmd.descripcion.None? || |cmd.descripcion.value| <= 500)
  {
    NotBlankIffTrimNonEmpty(cmd.nombre);
  }

  /** A valid name has between 1 and 100 characters. */
  lemma ValidNombreLength(cmd: CrearCategoriaCommand)
    requires IsValid(cmd)
    ensures 1 <= |cmd.nombre.value| <= MaxNombre
  {
    var i :| 0 <= i < |cmd.nombre.value| && !IsWhitespace(cmd.nombre.value[i]);
  }

  /** A null name, or one of whitespace only, is rejected whatever the description. */
  lemma BlankNombreInvalid(cmd: CrearCategoriaCommand)
    requires cmd.nombre.None? || forall k :: 0 <= k < |cmd.nombre.value| ==> IsWhitespace(cmd.nombre.value[k])
    ensures !IsValid(cmd)
  {
  }

  /** A null description is valid, so a command with a good name and no description passes. */
  lemma NullDescripcionValid(nombre: string)
    requires 1 <= |nombre| <= MaxNombre && Trim(nombre) != []
    ensures IsValid(CrearCategoriaCommand(Some(nombre), None))
  {
    NotBlankIffTrimNonEmpty(Some(nombre));
  }
}
