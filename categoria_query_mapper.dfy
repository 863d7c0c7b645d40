/** The category read model: CategoriaDTO and the mappings from a category row to it. The
    DTO's fields are nullable objects, hence Option; cantidadProductos and estado are filled
    in only by the queries that compute them. */
module CategoriaQueryMapper {
  import opened Wrappers
  import opened Entities
  import Seqs

  datatype CategoriaDTO = CategoriaDTO(
    id: Option<int>,
    nombre: string,
    descripcion: Option<string>,
    eliminado: Option<bool>,
    cantidadProductos: Option<int>,
    estado: Option<string>)

  const ACTIVA: string := "ACTIVA"
  const ELIMINADA: string := "ELIMINADA"

  /** mapEstado: "ELIMINADA" for a flag that is present and true, "ACTIVA" otherwise (a null
      flag included). */
  function MapEstado(eliminado: Option<bool>): (r: string)
    ensures r == ELIMINADA <==> eliminado == Some(true)
    ensures r == ACTIVA <==> eliminado != Some(true)
  {
    if eliminado.Some? && eliminado.value then ELIMINADA else ACTIVA
  }

  /** toDTO: the row's own fields, with cantidadProductos and estado left null. */
  function ToDTO(c: Categoria): (r: CategoriaDTO)
    ensures r.cantidadProductos.None? && r.estado.None?
    ensures r.eliminado == Some(c.eliminado)
  {
    CategoriaDTO(c.id, c.nombre, c.descripcion, Some(c.eliminado), None, None)
  }

  /** toDTO keeps every field of the row: the row can be read back from its DTO. */
  lemma ToDTOInjective(a: Categoria, b: Categoria)
    ensures ToDTO(a) == ToDTO(b) ==> a == b
  {
  }

  /** toDTOList: toDTO applied to each row, keeping length and order. */
  function ToDTOList(s: seq<Categoria>): (r: seq<CategoriaDTO>)
    ensures |r| == |s|
    ensures forall i :: 0 <= i < |s| ==> r[i] == ToDTO(s[i])
  {
    Seqs.Map(ToDTO, s)
  }

  /** toDTOWithStatus: toDTO with estado computed from the row's flag. */
  function ToDTOWithStatus(c: Categoria): (r: CategoriaDTO)
    ensures r.cantidadProductos.None?
    ensures r.estado == Some(if c.eliminado then ELIMINADA else ACTIVA)
  {
    ToDTO(c).(estado := Some(MapEstado(Some(c.eliminado))))
  }

  /** The two mappings agree on every field but estado. */
  lemma WithStatusExtendsToDTO(c: Categoria)
    ensures ToDTOWithStatus(c).(estado := None) == ToDTO(c)
  {
  }
}
