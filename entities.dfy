/** The two persisted entities and the product command. A row's `id` is absent until the
    row is saved, as with an IDENTITY-generated key; `categoria` is the foreign key of the
    many-to-one link from a product to its category. */
module Entities {
  import opened Wrappers

  /** A category row. The Categoria entity class is not part of this model; its fields are
      the ones the mappers and queries read and write. */
  datatype Categoria = Categoria(
    id: Option<int>,
    nombre: string,
    descripcion: Option<string>,
    eliminado: bool)

  /** A product row (Producto.java). `stock` is nullable in the object and NOT NULL in the
      table; `precio` is nullable in both. */
  datatype Producto = Producto(
    id: Option<int>,
    nombre: string,
    descripcion: Option<string>,
    precio: Option<real>,
    stock: Option<int>,
    eliminado: bool,
    categoria: int)

  /** The product create/update command body. Its class is not part of this model: `nombre`
      and `categoriaId` are taken as always present, the other fields as nullable. */
  datatype CrearProductoCommand = CrearProductoCommand(
    nombre: string,
    descripcion: Option<string>,
    precio: Option<real>,
    stock: Option<int>,
    categoriaId: int)
}
