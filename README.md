# Patron-CQRS catalogue, modelled in Dafny

Patron-CQRS is a product catalogue with two halves, and this project models both.

**The Spring backend** splits writes from reads in the CQRS style:
- Writes go through the command services: create, update, soft-delete and restore, for categories and for products.
- Reads go through the query services, which turn repository rows into DTOs.

**The React frontend** has one page each for categories and products. Each page holds a list component and a form component.

## How it is modelled

**Database.** The two tables (`categorias`, `productos`) are `Store.Db`, a value. It holds two maps from id to row and one IDENTITY counter per table. `Store.Catalog` is the live, mutable version of the same state.

**Reads.** Repository reads are functions over `Db`. So are the query services and the mappers. The mappers follow MapStruct: an absent source field is ignored on update.

**Writes.** Repository updates and the command services are methods on a `Catalog`. Each command method:
- returns a `Result` whose error says which `RuntimeException` the source throws;
- states the new state exactly;
- states that the business invariant `Store.Consistent` survives. That invariant means: active names are unique ignoring case, in each table; and every active product belongs to an active category.

**Frontend components.** Each component is a class.
- Its fields are the `useState` hooks of the source.
- Its methods are the event handlers. Each handler is one atomic step: the network answer, the `window.confirm` choice and the success of a request are parameters.
- A list's state after an event is tied to a pure function of the old state (`TrasCarga`, `Paso`).

**Cross-layer lemmas.** Several lemmas connect the frontend to the backend:
- the lists the frontend keeps are exactly what the query services return;
- a category form that passes its own validation, within the inputs' maxLength, sends a body the server's Bean Validation accepts (`CategoriaForm.ValidFormSendsValidCommand`);
- a product form that passes its own validation also passes the price and stock checks of `ProductoCommandMapper.ToEntityWithValidation` (`ProductoForm.ValidFormPassesServerChecks`). No service calls that mapper method, so this says nothing about what the product endpoints accept;
- the badge shown for each status the server produces.

String functions work on `seq<char>`:
- lower-casing is the ASCII fold `Text.Fold`;
- trimming removes the whitespace class of `Text.IsWhitespace`;
- `includes`/`contains` is `Text.Contains`;
- SQL `LIKE` is `SqlLike.Like`, with its `%` and `_` wildcards.

Java's `Long.intValue()` is modelled as 32-bit two's-complement wrap-around (`JavaInt.IntValue`).

## Model

| member | source | states |
|---|---|---|
| CrearCategoriaCommand.NotBlankIffTrimNonEmpty | BackEnd/patroncqrs/src/main/java/com/cqrs/patroncqrs/command/dto/CrearCategoriaCommand.java:12 | @NotBlank holds exactly when the name is present and does not trim to the empty string |
| CrearCategoriaCommand.IsValidIff | BackEnd/patroncqrs/src/main/java/com/cqrs/patroncqrs/command/dto/CrearCategoriaCommand.java:12-17 | the whole constraint table: a present name with a non-whitespace character and at most 100 characters, and a description that is null or at most 500 characters |
| CrearCategoriaCommand.ValidNombreLength | BackEnd/patroncqrs/src/main/java/com/cqrs/patroncqrs/command/dto/CrearCategoriaCommand.java:12-13 | a valid name has between 1 and 100 characters |
| CrearCategoriaCommand.BlankNombreInvalid | BackEnd/patroncqrs/src/main/java/com/cqrs/patroncqrs/command/dto/CrearCategoriaCommand.java:12 | a null name, or one of only whitespace, is rejected whatever the description |
| CrearCategoriaCommand.NullDescripcionValid | BackEnd/patroncqrs/src/main/java/com/cqrs/patroncqrs/command/dto/CrearCategoriaCommand.java:16-17 | a null description passes @Size, so a good name alone is valid |
| CategoriaCommandMapper.ToEntity | BackEnd/patroncqrs/src/main/java/com/cqrs/patroncqrs/command/mapper/CategoriaCommandMapper.java:17-21 | the new row has no id, is not deleted, and carries the command's name and description |
| CategoriaCommandMapper.UpdateEntity | BackEnd/patroncqrs/src/main/java/com/cqrs/patroncqrs/command/mapper/CategoriaCommandMapper.java:26-30 | id and eliminado are never touched |
| CategoriaCommandMapper.UpdateEntityFields | BackEnd/patroncqrs/src/main/java/com/cqrs/patroncqrs/command/mapper/CategoriaCommandMapper.java:9 | under the IGNORE strategy a present field overwrites, an absent field keeps the row's value |
| CategoriaCommandMapper.UpdateEntityWithFullCommand | BackEnd/patroncqrs/src/main/java/com/cqrs/patroncqrs/command/mapper/CategoriaCommandMapper.java:17-30 | with both fields present, updateEntity yields the row toEntity builds, with the old id and flag |
| CategoriaCommandMapper.UpdateEntityIdempotent | BackEnd/patroncqrs/src/main/java/com/cqrs/patroncqrs/command/mapper/CategoriaCommandMapper.java:26-30 | applying a command twice is applying it once |
| CategoriaCommandMapper.UpdateEntityWithEmptyCommand | BackEnd/patroncqrs/src/main/java/com/cqrs/patroncqrs/command/mapper/CategoriaCommandMapper.java:9 | a command with both fields null leaves the row unchanged |
| ProductoCommandMapper.ToEntity | BackEnd/patroncqrs/src/main/java/com/cqrs/patroncqrs/command/mapper/ProductoCommandMapper.java:21-30 | the new row has no id and is not deleted; it is linked to the given category and copies every field of the command, nulls included |
| ProductoCommandMapper.Overwrite | BackEnd/patroncqrs/src/main/java/com/cqrs/patroncqrs/command/mapper/ProductoCommandMapper.java:10 | the IGNORE strategy for one field: a present source wins, an absent one keeps the target |
| ProductoCommandMapper.UpdateEntity | BackEnd/patroncqrs/src/main/java/com/cqrs/patroncqrs/command/mapper/ProductoCommandMapper.java:38-47 | id and eliminado are kept; name and category always come from the command |
| ProductoCommandMapper.UpdateEntityWithFullCommand | BackEnd/patroncqrs/src/main/java/com/cqrs/patroncqrs/command/mapper/ProductoCommandMapper.java:21-47 | with every field present, updateEntity yields the row toEntity builds, with the old id and flag |
| ProductoCommandMapper.UpdateEntityKeepsNullFields | BackEnd/patroncqrs/src/main/java/com/cqrs/patroncqrs/command/mapper/ProductoCommandMapper.java:10 | a null description, price or stock in the command leaves that field of the row unchanged |
| ProductoCommandMapper.UpdateEntityKeepsStockPresent | BackEnd/patroncqrs/src/main/java/com/cqrs/patroncqrs/command/mapper/ProductoCommandMapper.java:45 | an update never takes a stock away, so the NOT NULL stock column stays satisfied |
| ProductoCommandMapper.UpdateEntityIdempotent | BackEnd/patroncqrs/src/main/java/com/cqrs/patroncqrs/command/mapper/ProductoCommandMapper.java:38-47 | applying a command twice is applying it once |
| ProductoCommandMapper.ToEntityWithValidation | BackEnd/patroncqrs/src/main/java/com/cqrs/patroncqrs/command/mapper/ProductoCommandMapper.java:52-70 | a null command gives null; a price that is present and not positive gives the price error, and only then; a present negative stock with an acceptable price gives the stock error; otherwise the toEntity row |
| ProductoCommandMapper.ToEntityWithValidationAccepts | BackEnd/patroncqrs/src/main/java/com/cqrs/patroncqrs/command/mapper/ProductoCommandMapper.java:61-69 | success exactly when the command is null, or has a price that is null or positive and a stock that is null or not negative |
| CategoriaRepository.FindByIdIsActiveLookup | BackEnd/patroncqrs/src/main/java/com/cqrs/patroncqrs/repository/CategoriaRepository.java:42-48 | existsByIdIncludingDeleted agrees with findByIdIncludingDeleted; the assumed active-only findById is that lookup restricted to active rows |
| CategoriaRepository.ActivasConNombre | BackEnd/patroncqrs/src/main/java/com/cqrs/patroncqrs/repository/CategoriaRepository.java:14 | exactly the stored active rows whose name equals the argument ignoring case |
| CategoriaRepository.ActivasConNombreEmptyIff | BackEnd/patroncqrs/src/main/java/com/cqrs/patroncqrs/repository/CategoriaRepository.java:14-23 | the name query returns no rows exactly when existsByNombreIgnoreCase is false |
| CategoriaRepository.FindByNombreIgnoreCase | BackEnd/patroncqrs/src/main/java/com/cqrs/patroncqrs/repository/CategoriaRepository.java:14-15 | a found row is stored, active and of that name; empty exactly when none exists |
| CategoriaRepository.FindByNombreIgnoreCaseAgreesWithExists | BackEnd/patroncqrs/src/main/java/com/cqrs/patroncqrs/repository/CategoriaRepository.java:14-23 | with unique active names the Optional query never fails, and it finds a row exactly when existence holds |
| CategoriaRepository.FindByNombreContainingIgnoreCase | BackEnd/patroncqrs/src/main/java/com/cqrs/patroncqrs/repository/CategoriaRepository.java:18-19 | exactly the stored active rows whose lower-cased name is LIKE the lower-cased pattern '%n%' |
| CategoriaRepository.FindByNombreContainingIsSubstringSearch | BackEnd/patroncqrs/src/main/java/com/cqrs/patroncqrs/repository/CategoriaRepository.java:18-19 | for an argument without '%' or '_' the search is case-insensitive substring search |
| CategoriaRepository.FindAllDeleted | BackEnd/patroncqrs/src/main/java/com/cqrs/patroncqrs/repository/CategoriaRepository.java:39-40 | exactly the stored rows with eliminado = true |
| CategoriaRepository.SortedByNombreAll | BackEnd/patroncqrs/src/main/java/com/cqrs/patroncqrs/repository/CategoriaRepository.java:51 | adjacent name order gives order between any two positions |
| CategoriaRepository.InsertByNombre | BackEnd/patroncqrs/src/main/java/com/cqrs/patroncqrs/repository/CategoriaRepository.java:51 | inserting into a list sorted by name keeps it sorted and adds exactly the one row |
| CategoriaRepository.SortByNombre | BackEnd/patroncqrs/src/main/java/com/cqrs/patroncqrs/repository/CategoriaRepository.java:51 | ORDER BY nombre: the result is sorted and a permutation of the input |
| CategoriaRepository.FindAllActive | BackEnd/patroncqrs/src/main/java/com/cqrs/patroncqrs/repository/CategoriaRepository.java:51-52 | exactly the stored active rows, in name order |
| CategoriaRepository.ActiveOrDeleted | BackEnd/patroncqrs/src/main/java/com/cqrs/patroncqrs/repository/CategoriaRepository.java:39-52 | each stored category is listed by exactly one of findAllActive and findAllDeleted |
| CategoriaRepository.KeysSplit | BackEnd/patroncqrs/src/main/java/com/cqrs/patroncqrs/repository/CategoriaRepository.java:39-52 | the active keys and the deleted keys partition the table |
| CategoriaRepository.ActiveAndDeletedCover | BackEnd/patroncqrs/src/main/java/com/cqrs/patroncqrs/repository/CategoriaRepository.java:39-52 | the two lists together are exactly as long as the table |
| CategoriaRepository.WithEliminado | BackEnd/patroncqrs/src/main/java/com/cqrs/patroncqrs/repository/CategoriaRepository.java:29-36 | the UPDATE changes only the flag of the row with that id; same keys, all other rows unchanged |
| CategoriaRepository.RestoreUndoesSoftDelete | BackEnd/patroncqrs/src/main/java/com/cqrs/patroncqrs/repository/CategoriaRepository.java:26-36 | restoring a category just soft-deleted gives back the table it was |
| CategoriaRepository.WithEliminadoIdempotent | BackEnd/patroncqrs/src/main/java/com/cqrs/patroncqrs/repository/CategoriaRepository.java:26-36 | setting the flag twice is setting it once |
| CategoriaRepository.SoftDeleteById | BackEnd/patroncqrs/src/main/java/com/cqrs/patroncqrs/repository/CategoriaRepository.java:27-30 | the database afterwards is the old one with that category's flag set; validity is kept |
| CategoriaRepository.RestoreById | BackEnd/patroncqrs/src/main/java/com/cqrs/patroncqrs/repository/CategoriaRepository.java:33-36 | the database afterwards is the old one with that category's flag cleared; validity is kept |
| CategoriaRepository.Save | BackEnd/patroncqrs/src/main/java/com/cqrs/patroncqrs/repository/CategoriaRepository.java:11 | a stored id is overwritten in place; any other row is inserted under the next IDENTITY value, which then advances; products untouched |
| ProductoRepository.FindByIdSeesDeleted | BackEnd/patroncqrs/src/main/java/com/cqrs/patroncqrs/repository/ProductoRepository.java:56-62 | findById on products does not filter on the flag: it agrees with findByIdIncludingDeleted and with existence |
| ProductoRepository.FindByNombreContainingIgnoreCase | BackEnd/patroncqrs/src/main/java/com/cqrs/patroncqrs/repository/ProductoRepository.java:13-14 | exactly the stored active rows whose lower-cased name is LIKE the lower-cased pattern '%n%' |
| ProductoRepository.FindByNombreContainingIsSubstringSearch | BackEnd/patroncqrs/src/main/java/com/cqrs/patroncqrs/repository/ProductoRepository.java:13-14 | for an argument without '%' or '_' the search is case-insensitive substring search |
| ProductoRepository.FindByCategoriaId | BackEnd/patroncqrs/src/main/java/com/cqrs/patroncqrs/repository/ProductoRepository.java:17-18 | exactly the stored active products of that category, when the category is active |
| ProductoRepository.FindByCategoriaIdOfInactiveCategoria | BackEnd/patroncqrs/src/main/java/com/cqrs/patroncqrs/repository/ProductoRepository.java:17 | a deleted or missing category has no products by this query |
| ProductoRepository.CountIsLengthOfFindByCategoriaId | BackEnd/patroncqrs/src/main/java/com/cqrs/patroncqrs/repository/ProductoRepository.java:65-66 | the COUNT equals the length of the list findByCategoriaId returns |
| ProductoRepository.CountZeroIffCanBeDeleted | BackEnd/patroncqrs/src/main/java/com/cqrs/patroncqrs/repository/ProductoRepository.java:65-66 | for an active category the count is zero exactly when canBeDeleted (CategoriaRepository.java:55) holds; for a deleted one the count is zero anyway |
| ProductoRepository.FindByPrecioBetween | BackEnd/patroncqrs/src/main/java/com/cqrs/patroncqrs/repository/ProductoRepository.java:21-22 | exactly the stored active rows with a price in the closed range |
| ProductoRepository.FindByStockGreaterThan | BackEnd/patroncqrs/src/main/java/com/cqrs/patroncqrs/repository/ProductoRepository.java:25-26 | exactly the stored active rows with stock strictly above the bound |
| ProductoRepository.FindByIdWithCategoria | BackEnd/patroncqrs/src/main/java/com/cqrs/patroncqrs/repository/ProductoRepository.java:29-30 | found exactly when the product and its category are both active; then it is the stored row |
| ProductoRepository.FindAllWithCategoria | BackEnd/patroncqrs/src/main/java/com/cqrs/patroncqrs/repository/ProductoRepository.java:33-34 | exactly the stored active products whose category is active |
| ProductoRepository.FindAllDeleted | BackEnd/patroncqrs/src/main/java/com/cqrs/patroncqrs/repository/ProductoRepository.java:53-54 | exactly the stored rows with eliminado = true |
| ProductoRepository.WithCategoriaAndDeletedDisjoint | BackEnd/patroncqrs/src/main/java/com/cqrs/patroncqrs/repository/ProductoRepository.java:33-54 | no product is both in findAllWithCategoria and in findAllDeleted |
| ProductoRepository.WithEliminado | BackEnd/patroncqrs/src/main/java/com/cqrs/patroncqrs/repository/ProductoRepository.java:43-50 | the UPDATE changes only the flag of the row with that id |
| ProductoRepository.RestoreUndoesSoftDelete | BackEnd/patroncqrs/src/main/java/com/cqrs/patroncqrs/repository/ProductoRepository.java:40-50 | restoring a product just soft-deleted gives back the table it was |
| ProductoRepository.WithEliminadoIdempotent | BackEnd/patroncqrs/src/main/java/com/cqrs/patroncqrs/repository/ProductoRepository.java:40-50 | setting the flag twice is setting it once |
| ProductoRepository.SoftDeleteById | BackEnd/patroncqrs/src/main/java/com/cqrs/patroncqrs/repository/ProductoRepository.java:41-44 | the database afterwards is the old one with that product's flag set; validity is kept |
| ProductoRepository.RestoreById | BackEnd/patroncqrs/src/main/java/com/cqrs/patroncqrs/repository/ProductoRepository.java:47-50 | the database afterwards is the old one with that product's flag cleared; validity is kept |
| ProductoRepository.Save | BackEnd/patroncqrs/src/main/java/com/cqrs/patroncqrs/domain/entity/Producto.java:22-23 | a null stock is rejected (NOT NULL column) and changes nothing; otherwise overwrite in place or insert under the next IDENTITY value |
| CategoriaQueryMapper.MapEstado | BackEnd/patroncqrs/src/main/java/com/cqrs/patroncqrs/query/mapper/CategoriaQueryMapper.java:37-39 | "ELIMINADA" exactly for a flag that is present and true, "ACTIVA" otherwise, null included |
| CategoriaQueryMapper.ToDTO | BackEnd/patroncqrs/src/main/java/com/cqrs/patroncqrs/query/mapper/CategoriaQueryMapper.java:16-18 | cantidadProductos and estado are null; the flag is carried |
| CategoriaQueryMapper.ToDTOInjective | BackEnd/patroncqrs/src/main/java/com/cqrs/patroncqrs/query/mapper/CategoriaQueryMapper.java:16-18 | toDTO loses no field of the row: equal DTOs come from equal rows |
| CategoriaQueryMapper.ToDTOList | BackEnd/patroncqrs/src/main/java/com/cqrs/patroncqrs/query/mapper/CategoriaQueryMapper.java:24 | toDTO element for element, same length and order |
| CategoriaQueryMapper.ToDTOWithStatus | BackEnd/patroncqrs/src/main/java/com/cqrs/patroncqrs/query/mapper/CategoriaQueryMapper.java:29-32 | estado is mapEstado of the row's flag; cantidadProductos is null |
| CategoriaQueryMapper.WithStatusExtendsToDTO | BackEnd/patroncqrs/src/main/java/com/cqrs/patroncqrs/query/mapper/CategoriaQueryMapper.java:16-32 | toDTOWithStatus agrees with toDTO on every field but estado |
| ProductoQueryMapper.MapStockStatus | BackEnd/patroncqrs/src/main/java/com/cqrs/patroncqrs/query/mapper/ProductoQueryMapper.java:38-44 | one band per status, each as an if-and-only-if: null, exactly 0, non-zero up to 7 (negatives included), 8 to 30, above 30 |
| ProductoQueryMapper.NegativeStockIsLow | BackEnd/patroncqrs/src/main/java/com/cqrs/patroncqrs/query/mapper/ProductoQueryMapper.java:40-41 | a negative stock is classified STOCK_BAJO |
| ProductoQueryMapper.MapStockStatusMonotone | BackEnd/patroncqrs/src/main/java/com/cqrs/patroncqrs/query/mapper/ProductoQueryMapper.java:38-44 | for non-negative stock, more stock never gives a lower status |
| ProductoQueryMapper.CategoriaDe | BackEnd/patroncqrs/src/main/java/com/cqrs/patroncqrs/domain/entity/Producto.java:28-30 | the product's category is found exactly when its row exists |
| ProductoQueryMapper.ToDTO | BackEnd/patroncqrs/src/main/java/com/cqrs/patroncqrs/query/mapper/ProductoQueryMapper.java:15-19 | the row's fields plus the category's name and id; stockStatus and precioFormateado null |
| ProductoQueryMapper.ToDTOList | BackEnd/patroncqrs/src/main/java/com/cqrs/patroncqrs/query/mapper/ProductoQueryMapper.java:21 | toDTO element for element, same length and order |
| ProductoQueryMapper.ToDTOWithExtraInfo | BackEnd/patroncqrs/src/main/java/com/cqrs/patroncqrs/query/mapper/ProductoQueryMapper.java:23-28 | toDTO with stockStatus set to mapStockStatus of the stock, nothing else changed |
| CategoriaQueryService.ObtenerTodasLasCategorias | BackEnd/patroncqrs/src/main/java/com/cqrs/patroncqrs/query/service/impl/CategoriaQueryServiceImpl.java:33-35 | DTOs of exactly the active categories, each of its stored row, in name order |
| CategoriaQueryService.ObtenerCategoriaPorId | BackEnd/patroncqrs/src/main/java/com/cqrs/patroncqrs/query/service/impl/CategoriaQueryServiceImpl.java:38-41 | present exactly for an active category, and then its DTO |
| CategoriaQueryService.BuscarCategoriasPorNombre | BackEnd/patroncqrs/src/main/java/com/cqrs/patroncqrs/query/service/impl/CategoriaQueryServiceImpl.java:44-46 | DTOs of exactly the active categories matching the containing pattern |
| CategoriaQueryService.ObtenerCategoriasConConteoProductos | BackEnd/patroncqrs/src/main/java/com/cqrs/patroncqrs/query/service/impl/CategoriaQueryServiceImpl.java:49-58 | one DTO per active category in name order; each count is intValue() of the number of its active products |
| CategoriaQueryService.ConteoIsExact | BackEnd/patroncqrs/src/main/java/com/cqrs/patroncqrs/query/service/impl/CategoriaQueryServiceImpl.java:53-54 | with fewer than 2^31 products the narrowing is exact: the count is the length of findByCategoriaId |
| CategoriaQueryService.ObtenerCategoriasEliminadas | BackEnd/patroncqrs/src/main/java/com/cqrs/patroncqrs/query/service/impl/CategoriaQueryServiceImpl.java:61-63 | DTOs of exactly the deleted categories |
| CategoriaQueryService.ObtenerCategoriasConEstado | BackEnd/patroncqrs/src/main/java/com/cqrs/patroncqrs/query/service/impl/CategoriaQueryServiceImpl.java:66-70 | the active list element for element, with estado "ACTIVA" |
| ProductoQueryService.DTOListOfStored | BackEnd/patroncqrs/src/main/java/com/cqrs/patroncqrs/query/mapper/ProductoQueryMapper.java:21 | the DTO list of stored rows holds each row's DTO, and each DTO belongs to the row it came from |
| ProductoQueryService.ObtenerTodosLosProductos | BackEnd/patroncqrs/src/main/java/com/cqrs/patroncqrs/query/service/impl/ProductoQueryServiceImpl.java:27-29 | DTOs of exactly the active products of active categories |
| ProductoQueryService.ObtenerProductoPorId | BackEnd/patroncqrs/src/main/java/com/cqrs/patroncqrs/query/service/impl/ProductoQueryServiceImpl.java:32-35 | present exactly when product and category are active, and then its DTO |
| ProductoQueryService.BuscarProductosPorNombre | BackEnd/patroncqrs/src/main/java/com/cqrs/patroncqrs/query/service/impl/ProductoQueryServiceImpl.java:38-40 | DTOs of exactly the active products matching the containing pattern |
| ProductoQueryService.ObtenerProductosPorCategoria | BackEnd/patroncqrs/src/main/java/com/cqrs/patroncqrs/query/service/impl/ProductoQueryServiceImpl.java:43-45 | DTOs of exactly the active products of the category; empty for a deleted or missing category |
| ProductoQueryService.ObtenerProductosPorRangoPrecio | BackEnd/patroncqrs/src/main/java/com/cqrs/patroncqrs/query/service/impl/ProductoQueryServiceImpl.java:48-50 | DTOs of exactly the active products priced within the closed range |
| ProductoQueryService.ObtenerProductosEnStock | BackEnd/patroncqrs/src/main/java/com/cqrs/patroncqrs/query/service/impl/ProductoQueryServiceImpl.java:53-55 | DTOs of exactly the active products with stock strictly above the minimum |
| ProductoQueryService.ObtenerProductosEliminados | BackEnd/patroncqrs/src/main/java/com/cqrs/patroncqrs/query/service/impl/ProductoQueryServiceImpl.java:58-60 | DTOs of exactly the deleted products |
| ProductoQueryService.ObtenerProductosConEstadoStock | BackEnd/patroncqrs/src/main/java/com/cqrs/patroncqrs/query/service/impl/ProductoQueryServiceImpl.java:62-66 | the list of obtenerTodosLosProductos element for element, each with its stock status |
| CategoriaCommandService.CrearKeepsConsistent | BackEnd/patroncqrs/src/main/java/com/cqrs/patroncqrs/command/service/impl/CategoriaCommandServiceImpl.java:31-42 | a new category whose name no active category has keeps well-formedness and every business invariant |
| CategoriaCommandService.ActualizarKeepsConsistent | BackEnd/patroncqrs/src/main/java/com/cqrs/patroncqrs/command/service/impl/CategoriaCommandServiceImpl.java:45-59 | renaming an active category past the duplicate guard keeps every invariant |
| CategoriaCommandService.EliminarKeepsConsistent | BackEnd/patroncqrs/src/main/java/com/cqrs/patroncqrs/command/service/impl/CategoriaCommandServiceImpl.java:62-81 | deleting an active category with no active product keeps every invariant |
| CategoriaCommandService.RestaurarKeepsConsistent | BackEnd/patroncqrs/src/main/java/com/cqrs/patroncqrs/command/service/impl/CategoriaCommandServiceImpl.java:84-106 | restoring a deleted category whose name is free keeps every invariant |
| CategoriaCommandService.EliminarThenRestaurar | BackEnd/patroncqrs/src/main/java/com/cqrs/patroncqrs/command/service/impl/CategoriaCommandServiceImpl.java:62-106 | after deleting an active category every restore guard passes, and restoring gives back the original state |
| CategoriaCommandService.CrearCategoria | BackEnd/patroncqrs/src/main/java/com/cqrs/patroncqrs/command/service/impl/CategoriaCommandServiceImpl.java:31-42 | fails, changing nothing, exactly when an active category has the name ignoring case; otherwise returns the next id with the new active row, and Consistent is preserved |
| CategoriaCommandService.ActualizarCategoria | BackEnd/patroncqrs/src/main/java/com/cqrs/patroncqrs/command/service/impl/CategoriaCommandServiceImpl.java:45-59 | each error exactly under its guard, in source order (not found or deleted, then duplicate name unless the category's own); otherwise the row is overwritten by updateEntity; Consistent is preserved; it succeeds exactly when every guard passes |
| CategoriaCommandService.EliminarCategoria | BackEnd/patroncqrs/src/main/java/com/cqrs/patroncqrs/command/service/impl/CategoriaCommandServiceImpl.java:62-81 | not found, already deleted, and has active products (with the count), each exactly under its guard; otherwise only this category's flag is set; Consistent is preserved; it succeeds exactly when every guard passes |
| CategoriaCommandService.RestaurarCategoria | BackEnd/patroncqrs/src/main/java/com/cqrs/patroncqrs/command/service/impl/CategoriaCommandServiceImpl.java:84-106 | not found, not deleted, and name taken, each exactly under its guard; otherwise only the flag is cleared; Consistent is preserved; it succeeds exactly when every guard passes |
| ProductoCommandService.CrearKeepsConsistent | BackEnd/patroncqrs/src/main/java/com/cqrs/patroncqrs/command/service/impl/ProductoCommandServiceImpl.java:32-47 | a new product with a stock, in an active category, with a free name, keeps every invariant |
| ProductoCommandService.ActualizarKeepsConsistent | BackEnd/patroncqrs/src/main/java/com/cqrs/patroncqrs/command/service/impl/ProductoCommandServiceImpl.java:50-68 | rewriting a product into an active category past the duplicate guard keeps every invariant |
| ProductoCommandService.EliminarKeepsConsistent | BackEnd/patroncqrs/src/main/java/com/cqrs/patroncqrs/command/service/impl/ProductoCommandServiceImpl.java:71-83 | deleting any stored product keeps every invariant |
| ProductoCommandService.RestaurarKeepsConsistent | BackEnd/patroncqrs/src/main/java/com/cqrs/patroncqrs/command/service/impl/ProductoCommandServiceImpl.java:86-113 | restoring a deleted product of an active category with a free name keeps every invariant |
| ProductoCommandService.EliminarDeletedIsNoOp | BackEnd/patroncqrs/src/main/java/com/cqrs/patroncqrs/command/service/impl/ProductoCommandServiceImpl.java:77-82 | deleting an already deleted product changes nothing, since findById does not filter deleted rows |
| ProductoCommandService.EliminarThenRestaurar | BackEnd/patroncqrs/src/main/java/com/cqrs/patroncqrs/command/service/impl/ProductoCommandServiceImpl.java:71-113 | after deleting an active product every restore guard passes, and restoring gives back the original state |
| ProductoCommandService.CrearProducto | BackEnd/patroncqrs/src/main/java/com/cqrs/patroncqrs/command/service/impl/ProductoCommandServiceImpl.java:32-47 | category not found or deleted, duplicate name, and a persistence error for a null stock, each exactly under its guard, changing nothing; otherwise the next id and the new row; Consistent is preserved; it succeeds exactly when every guard passes |
| ProductoCommandService.ActualizarProducto | BackEnd/patroncqrs/src/main/java/com/cqrs/patroncqrs/command/service/impl/ProductoCommandServiceImpl.java:50-68 | unknown product, inactive category, and duplicate name unless the product's own, each exactly under its guard; otherwise the row is overwritten by updateEntity; Consistent is preserved; it succeeds exactly when every guard passes, and never fails with the persistence error, because a stored row always has a stock |
| ProductoCommandService.EliminarProducto | BackEnd/patroncqrs/src/main/java/com/cqrs/patroncqrs/command/service/impl/ProductoCommandServiceImpl.java:71-83 | fails only for an unknown id; otherwise the flag is set, which for a deleted product changes nothing |
| ProductoCommandService.RestaurarProducto | BackEnd/patroncqrs/src/main/java/com/cqrs/patroncqrs/command/service/impl/ProductoCommandServiceImpl.java:86-113 | not found, not deleted, category deleted, and name taken, each exactly under its guard; otherwise only the flag is cleared; Consistent is preserved; it succeeds exactly when every guard passes |
| SqlLike.LikeAnything | BackEnd/patroncqrs/src/main/java/com/cqrs/patroncqrs/repository/CategoriaRepository.java:18 | the pattern '%' matches every string |
| SqlLike.LikePrefixPattern | BackEnd/patroncqrs/src/main/java/com/cqrs/patroncqrs/repository/CategoriaRepository.java:18 | a wildcard-free n followed by '%' matches exactly the strings that start with n |
| SqlLike.LikeContainingIffContains | BackEnd/patroncqrs/src/main/java/com/cqrs/patroncqrs/repository/CategoriaRepository.java:18 | for a wildcard-free argument, '%n%' matches exactly the strings that contain n |
| SqlLike.FoldContainingPattern | BackEnd/patroncqrs/src/main/java/com/cqrs/patroncqrs/repository/ProductoRepository.java:13 | LOWER commutes with CONCAT('%', n, '%') and keeps the argument wildcard-free |
| SqlLike.LikeIgnoreCaseIffContains | BackEnd/patroncqrs/src/main/java/com/cqrs/patroncqrs/repository/ProductoRepository.java:13 | LOWER(x) LIKE LOWER('%n%') is case-insensitive substring search for a wildcard-free n |
| SqlLike.UnderscoreIsAWildcard | BackEnd/patroncqrs/src/main/java/com/cqrs/patroncqrs/repository/CategoriaRepository.java:18 | an '_' in the user's argument is not literal: "a_c" finds "abc" |
| JavaInt.IntValue | BackEnd/patroncqrs/src/main/java/com/cqrs/patroncqrs/query/service/impl/CategoriaQueryServiceImpl.java:54 | Long.intValue(): a value in the int range congruent to the argument modulo 2^32 |
| JavaInt.IntValueOfInt | BackEnd/patroncqrs/src/main/java/com/cqrs/patroncqrs/query/service/impl/CategoriaQueryServiceImpl.java:54 | a value that fits in an int is kept as it is |
| JavaInt.IntValueWraps | BackEnd/patroncqrs/src/main/java/com/cqrs/patroncqrs/query/service/impl/CategoriaQueryServiceImpl.java:54 | 2^31 wraps around to the smallest int |
| CategoriaForm.NombreError | FrontEnd/frontend/src/components/categorias/CategoriaForm.tsx:57-61 | none exactly for a trimmed name of at least 2 characters; "obligatorio" exactly when it trims to nothing; "al menos 2" exactly for one character |
| CategoriaForm.DescripcionError | FrontEnd/frontend/src/components/categorias/CategoriaForm.tsx:63-65 | an error exactly for a present description of 1 to 4 trimmed characters |
| CategoriaForm.Errores | FrontEnd/frontend/src/components/categorias/CategoriaForm.tsx:54-66 | keys only nombre and descripcion; each present exactly when its rule is broken, holding that rule's message |
| CategoriaForm.ErroresEmptyIff | FrontEnd/frontend/src/components/categorias/CategoriaForm.tsx:67-68 | the error map is empty exactly when the name trims to at least 2 characters and the description is null, blank or at least 5 trimmed characters |
| CategoriaForm.DescripcionEnviada | FrontEnd/frontend/src/components/categorias/CategoriaForm.tsx:101 | the description sent is the trimmed text, and absent exactly when it is null or trims to nothing |
| CategoriaForm.Payload | FrontEnd/frontend/src/components/categorias/CategoriaForm.tsx:99-102 | the trimmed name always; no sent field starts or ends with whitespace; a sent description is never empty |
| CategoriaForm.PayloadIdempotent | FrontEnd/frontend/src/components/categorias/CategoriaForm.tsx:99-102 | normalising the body again changes nothing |
| CategoriaForm.ValidFormSendsValidCommand | FrontEnd/frontend/src/components/categorias/CategoriaForm.tsx:137 | a form that passes validation, within the inputs' maxLength of 100 and 500, sends a body the server's Bean Validation accepts |
| CategoriaForm.PayloadValid | FrontEnd/frontend/src/components/categorias/CategoriaForm.tsx:157 | the body of a form with no broken rule and within the maxLengths is valid |
| CategoriaForm.NombreEnviadoValido | FrontEnd/frontend/src/components/categorias/CategoriaForm.tsx:100 | a name that trims to 2 to 100 characters is sent not blank and within 100 characters |
| CategoriaForm.BlankDescripcionKeepsOld | FrontEnd/frontend/src/components/categorias/CategoriaForm.tsx:101 | clearing the description while editing sends none, and the server's null-ignoring update keeps the old description |
| CategoriaForm.FormState.constructor | FrontEnd/frontend/src/components/categorias/CategoriaForm.tsx:35-41 | both inputs empty, no errors, not busy |
| CategoriaForm.FormState.Prefill | FrontEnd/frontend/src/components/categorias/CategoriaForm.tsx:45-52 | in edit mode the inputs take the category's name and description; otherwise nothing changes |
| CategoriaForm.FormState.ValidateForm | FrontEnd/frontend/src/components/categorias/CategoriaForm.tsx:54-69 | errors become those of the current values, and the result is true exactly when there are none |
| CategoriaForm.FormState.HandleInputChange | FrontEnd/frontend/src/components/categorias/CategoriaForm.tsx:71-86 | only the named input changes; that input's error, if shown, is blanked; every other error stays |
| CategoriaForm.FormState.HandleSubmit | FrontEnd/frontend/src/components/categorias/CategoriaForm.tsx:88-116 | no request and not busy when validation fails; otherwise busy during the request, which is an update of the edited id exactly in edit mode, with the normalised body; idle afterwards either way |
| ProductoForm.Aplicar | FrontEnd/frontend/src/components/productos/ProductoForm.tsx:83-87 | a change event alters only the field of the input it comes from |
| ProductoForm.Errores | FrontEnd/frontend/src/components/productos/ProductoForm.tsx:60-81 | an entry exactly under each input whose rule is broken, holding that rule's message |
| ProductoForm.ErroresPorCampo | FrontEnd/frontend/src/components/productos/ProductoForm.tsx:63-77 | the four rules one by one: blank name; null or non-positive price (JavaScript `null <= 0`); negative stock (a null stock passes); category 0; the description never has an error |
| ProductoForm.ErroresEmptyIff | FrontEnd/frontend/src/components/productos/ProductoForm.tsx:79-80 | the error map is empty exactly when no rule is broken |
| ProductoForm.ToCommand | FrontEnd/frontend/src/components/productos/ProductoForm.tsx:117-123 | the server command the form values deserialise to, field for field |
| ProductoForm.ValidFormPassesServerChecks | BackEnd/patroncqrs/src/main/java/com/cqrs/patroncqrs/command/mapper/ProductoCommandMapper.java:61-69 | a form that passes its own validation also passes toEntityWithValidation's price and stock checks |
| ProductoForm.FormState.constructor | FrontEnd/frontend/src/components/productos/ProductoForm.tsx:35-44 | empty texts, zero price and stock, no category, no errors, not busy |
| ProductoForm.FormState.Prefill | FrontEnd/frontend/src/components/productos/ProductoForm.tsx:48-58 | in edit mode the five inputs take the product's fields, nulls included; otherwise nothing changes |
| ProductoForm.FormState.ValidateForm | FrontEnd/frontend/src/components/productos/ProductoForm.tsx:60-81 | errors become those of the current values, and the result is true exactly when there are none |
| ProductoForm.FormState.HandleInputChange | FrontEnd/frontend/src/components/productos/ProductoForm.tsx:83-100 | only the named input changes; that input's error, if shown, is blanked; every other error stays |
| ProductoForm.FormState.HandleSubmit | FrontEnd/frontend/src/components/productos/ProductoForm.tsx:102-124 | no request when validation fails; otherwise busy during the request, which is an update of the edited id exactly in edit mode, with the values untrimmed; idle afterwards |
| CategoriaListar.ConsultaPara | FrontEnd/frontend/src/components/categorias/CategoriaListar.tsx:73-81 | which list is loaded: deleted exactly when shown, statistics exactly in that view otherwise, the list with estado in the remaining case |
| CategoriaListar.Visibles | FrontEnd/frontend/src/components/categorias/CategoriaListar.tsx:77-80 | the deleted list is kept as it came; the other two keep exactly their entries not flagged deleted, in order |
| CategoriaListar.VisiblesKeepsServerAnswer | BackEnd/patroncqrs/src/main/java/com/cqrs/patroncqrs/query/controller/CategoriaQueryController.java:59-78 | against the answers the query services compute, the client-side filter drops nothing |
| CategoriaListar.ConEstadoNeverBlocks | FrontEnd/frontend/src/components/categorias/CategoriaListar.tsx:97-100 | in the normal view no row carries a product count, so the client-side delete guard never fires |
| CategoriaListar.Filtradas | FrontEnd/frontend/src/components/categorias/CategoriaListar.tsx:135-138 | a subsequence holding exactly the rows whose name, or non-empty description, contains the filter ignoring case; an empty filter keeps all |
| CategoriaListar.EmptyFilterMatches | FrontEnd/frontend/src/components/categorias/CategoriaListar.tsx:136 | every row matches the empty filter |
| CategoriaListar.EstadoBadge | FrontEnd/frontend/src/components/categorias/CategoriaListar.tsx:140-151 | one colour per known estado, each as an if-and-only-if; "secondary" for anything else |
| CategoriaListar.EstadoTexto | FrontEnd/frontend/src/components/categorias/CategoriaListar.tsx:153-164 | a label for each known estado; exactly the unknown ones are shown as they are |
| CategoriaListar.BadgeOfServerEstado | FrontEnd/frontend/src/components/categorias/CategoriaListar.tsx:140-164 | of the server's two estados, "ACTIVA" shows green "Activa", while "ELIMINADA" falls through to the grey badge and raw text |
| CategoriaListar.TrasCarga | FrontEnd/frontend/src/components/categorias/CategoriaListar.tsx:66-90 | after a load the component is idle; an answer replaces the list by its visible part; a failure keeps the list and sets the error message |
| CategoriaListar.TrasCargaHidesDeleted | FrontEnd/frontend/src/components/categorias/CategoriaListar.tsx:77-80 | outside the deleted view no listed category is flagged deleted after a load |
| CategoriaListar.ListState.constructor | FrontEnd/frontend/src/components/categorias/CategoriaListar.tsx:58-64 | the initial state: empty list, loading, no error, normal view, no filter |
| CategoriaListar.ListState.CargarCategorias | FrontEnd/frontend/src/components/categorias/CategoriaListar.tsx:66-90 | loads the list ConsultaPara names, busy meanwhile; the new state is TrasCarga of the old |
| CategoriaListar.ListState.HandleEliminar | FrontEnd/frontend/src/components/categorias/CategoriaListar.tsx:96-116 | alert exactly when the row has products; request exactly when no alert and confirmed; that row processing meanwhile; then reload or error message, and processing cleared |
| CategoriaListar.ListState.HandleRestaurar | FrontEnd/frontend/src/components/categorias/CategoriaListar.tsx:118-133 | request exactly when confirmed; then reload or error message, and processing cleared |
| CategoriaListar.ListState.ToggleEliminadas | FrontEnd/frontend/src/components/categorias/CategoriaListar.tsx:185 | flips the deleted view and always leaves the statistics view |
| CategoriaListar.ListState.ToggleEstadisticas | FrontEnd/frontend/src/components/categorias/CategoriaListar.tsx:186 | flips the statistics view; nothing else changes |
| CategoriaListar.ListState.SetFiltro | FrontEnd/frontend/src/components/categorias/CategoriaListar.tsx:217 | only the filter changes |
| ProductoListar.ConsultaPara | FrontEnd/frontend/src/components/productos/ProductoListar.tsx:89-94 | the deleted list exactly when it is shown, otherwise the list with stock status |
| ProductoListar.Visibles | FrontEnd/frontend/src/components/productos/ProductoListar.tsx:89-94 | the deleted list as it came; the other keeps exactly its entries not flagged deleted, in order |
| ProductoListar.VisiblesKeepsServerAnswer | BackEnd/patroncqrs/src/main/java/com/cqrs/patroncqrs/query/controller/ProductoQueryController.java:79-91 | against the answers the query services compute, the client-side filter drops nothing |
| ProductoListar.FiltradosComoEscrito | FrontEnd/frontend/src/components/productos/ProductoListar.tsx:143-147 | the filter as written: a null description or category name that is reached throws, which is modelled as no result |
| ProductoListar.Filtrados | FrontEnd/frontend/src/components/productos/ProductoListar.tsx:143-147 | the null-safe filter: a subsequence with exactly the rows whose name, description or category name contains the filter ignoring case; an empty filter keeps all |
| ProductoListar.EmptyFilterMatches | FrontEnd/frontend/src/components/productos/ProductoListar.tsx:144 | every row matches the empty filter |
| ProductoListar.FiltradosComoEscritoAgrees | FrontEnd/frontend/src/components/productos/ProductoListar.tsx:143-147 | with no null description or category name, the code as written computes exactly the null-safe list |
| ProductoListar.NullDescripcionBreaksFilter | FrontEnd/frontend/src/components/productos/ProductoListar.tsx:145 | for a row with a null description whose name and category do not match, the code as written throws where the intended filter leaves the row out |
| ProductoListar.NullDescripcionExample | FrontEnd/frontend/src/components/productos/ProductoListar.tsx:145 | a concrete such row: "Mesa", no description, in "Muebles", under the filter "x" |
| ProductoListar.StockBadge | FrontEnd/frontend/src/components/productos/ProductoListar.tsx:149-162 | one colour per known status, each as an if-and-only-if (low and high both "warning"); "secondary" otherwise |
| ProductoListar.StockText | FrontEnd/frontend/src/components/productos/ProductoListar.tsx:164-177 | a label for each known status; exactly the unknown ones shown as they are |
| ProductoListar.BadgeOfServerStatus | FrontEnd/frontend/src/components/productos/ProductoListar.tsx:149-177 | for a status the server computes, the fallback badge and raw text appear exactly for a null stock ("DESCONOCIDO") |
| ProductoListar.DeletedListHasNoStatus | FrontEnd/frontend/src/components/productos/ProductoListar.tsx:149-162 | the deleted list carries no stock status, so each of its rows gets the fallback badge |
| ProductoListar.TrasCarga | FrontEnd/frontend/src/components/productos/ProductoListar.tsx:82-103 | after a load the component is idle; an answer replaces the list by its visible part; a failure keeps the list and sets the error |
| ProductoListar.ListState.constructor | FrontEnd/frontend/src/components/productos/ProductoListar.tsx:75-80 | the initial state: empty list, loading, no error, active view, no filter |
| ProductoListar.ListState.CargarProductos | FrontEnd/frontend/src/components/productos/ProductoListar.tsx:82-103 | loads the list ConsultaPara names, busy meanwhile; the new state is TrasCarga of the old |
| ProductoListar.ListState.HandleEliminar | FrontEnd/frontend/src/components/productos/ProductoListar.tsx:109-124 | request exactly when confirmed; that row processing meanwhile; then reload or error message, and processing cleared |
| ProductoListar.ListState.HandleRestaurar | FrontEnd/frontend/src/components/productos/ProductoListar.tsx:126-141 | request exactly when confirmed; then reload or error message, and processing cleared |
| ProductoListar.ListState.ToggleEliminados | FrontEnd/frontend/src/components/productos/ProductoListar.tsx:198 | flips the deleted view; nothing else changes |
| ProductoListar.ListState.SetFiltro | FrontEnd/frontend/src/components/productos/ProductoListar.tsx:219 | only the filter changes |
| CategoriasPage.MensajeExito | FrontEnd/frontend/src/pages/CategoriasPage.tsx:73 | "creada" after the create view, "actualizada" after any other |
| CategoriasPage.TrasEnvio | FrontEnd/frontend/src/pages/CategoriasPage.tsx:66-82 | success: back to the list, nothing edited, one more reload, the message by view; failure: only the error toast; the counter never decreases |
| CategoriasPage.Paso | FrontEnd/frontend/src/pages/CategoriasPage.tsx:56-109 | every handler as an event; only a successful submit moves the refresh counter, by exactly one |
| CategoriasPage.TriggerCountsSuccesses | FrontEnd/frontend/src/pages/CategoriasPage.tsx:68-75 | over any sequence of events the counter grows by exactly the number of successful submits |
| CategoriasPage.SubmitMessageFollowsView | FrontEnd/frontend/src/pages/CategoriasPage.tsx:56-82 | opening a form and submitting it successfully shows "creada" from create and "actualizada" from edit, back at the list |
| CategoriasPage.PageState.constructor | FrontEnd/frontend/src/pages/CategoriasPage.tsx:38-44 | list view, nothing edited, counter 0, no notification |
| CategoriasPage.PageState.HandleCrear | FrontEnd/frontend/src/pages/CategoriasPage.tsx:56-59 | the state after is Paso of the state before, for opening the create form |
| CategoriasPage.PageState.HandleEditar | FrontEnd/frontend/src/pages/CategoriasPage.tsx:61-64 | the state after is Paso for opening the edit form on that category |
| CategoriasPage.PageState.HandleFormSubmit | FrontEnd/frontend/src/pages/CategoriasPage.tsx:66-82 | the state after is Paso of the submit event; the counter grows by one exactly on success |
| CategoriasPage.PageState.HandleCancelar | FrontEnd/frontend/src/pages/CategoriasPage.tsx:84-87 | the state after is Paso for cancelling |
| CategoriasPage.PageState.BreadcrumbLista | FrontEnd/frontend/src/pages/CategoriasPage.tsx:109 | the state after is Paso for the breadcrumb: back to the list, the edited category kept |
| CategoriasPage.PageState.CerrarNotificacion | FrontEnd/frontend/src/pages/CategoriasPage.tsx:96 | the state after is Paso for closing the toast |
| ProductosPage.MensajeExito | FrontEnd/frontend/src/pages/ProductosPage.tsx:104 | "creado" after the create view, "actualizado" after any other |
| ProductosPage.CategoriasActivas | FrontEnd/frontend/src/pages/ProductosPage.tsx:58-64 | the category choices: a subsequence of the id/name pairs holding exactly those of the categories not flagged deleted |
| ProductosPage.PreloadKeepsServerList | BackEnd/patroncqrs/src/main/java/com/cqrs/patroncqrs/query/service/impl/CategoriaQueryServiceImpl.java:33-35 | every category the server lists is active, so each becomes a choice, in name order |
| ProductosPage.Paso | FrontEnd/frontend/src/pages/ProductosPage.tsx:55-140 | every handler as an event, the breadcrumb included; only a successful submit moves the counter, by exactly one, and only the preload changes the choices |
| ProductosPage.TriggerCountsSuccesses | FrontEnd/frontend/src/pages/ProductosPage.tsx:97-113 | over any sequence of events the counter grows by exactly the number of successful submits |
| ProductosPage.SubmitMessageFollowsView | FrontEnd/frontend/src/pages/ProductosPage.tsx:87-113 | opening a form and submitting it successfully shows "creado" from create and "actualizado" from edit, back at the list |
| ProductosPage.PageState.constructor | FrontEnd/frontend/src/pages/ProductosPage.tsx:45-52 | list view, nothing edited, counter 0, no choices, no notification |
| ProductosPage.PageState.CargarCategorias | FrontEnd/frontend/src/pages/ProductosPage.tsx:55-75 | the state after is Paso of the preload: the active categories become the choices, or a failure shows the error toast |
| ProductosPage.PageState.HandleCrear | FrontEnd/frontend/src/pages/ProductosPage.tsx:87-90 | the state after is Paso for opening the create form |
| ProductosPage.PageState.HandleEditar | FrontEnd/frontend/src/pages/ProductosPage.tsx:92-95 | the state after is Paso for opening the edit form on that product |
| ProductosPage.PageState.HandleFormSubmit | FrontEnd/frontend/src/pages/ProductosPage.tsx:97-113 | the state after is Paso of the submit event; the counter grows by one exactly on success |
| ProductosPage.PageState.HandleCancelar | FrontEnd/frontend/src/pages/ProductosPage.tsx:115-118 | the state after is Paso for cancelling |
| ProductosPage.PageState.BreadcrumbLista | FrontEnd/frontend/src/pages/ProductosPage.tsx:140 | the state after is Paso for the breadcrumb: back to the list, the edited product kept |
| ProductosPage.PageState.CerrarNotificacion | FrontEnd/frontend/src/pages/ProductosPage.tsx:127 | the state after is Paso for closing the toast |

## Left out

- HTTP and I/O: the REST controllers, the axios services and the network. A request's outcome is a parameter of the handler that issues it. Each list's server answer is the query service that the controller calls for that endpoint (`Respuesta`).
- Concurrency: each React handler, including its awaited requests, is one atomic step. Interleaved requests and re-renders are not modelled.
- The `useEffect` dependencies (reload when the view or the refresh counter changes) are not modelled as automatic triggers. A reload is the caller invoking `CargarCategorias` or `CargarProductos`.
- The five-second `setTimeout` that hides the page notifications is not modelled. Closing a notification by hand is (`CerrarNotificacion`).
- Rendering, routing, Swagger configuration and the Bootstrap markup are not modelled, apart from the badge and label functions and the `maxLength` attributes of the category form.
- obtenerProductosConPrecioFormateado and formatPrice (ProductoQueryMapper.java:30-35, 46-49): `String.format("$%.2f")` is not modelled, and `precioFormateado` is always null in the model.
- Floating point: prices are `real`. Double rounding and the `Number(...)` parsing of the numeric inputs are not modelled; the form receives numbers already converted.
- Strings: there is no Unicode case mapping. Lower-casing is ASCII, trimming uses a fixed whitespace set, and the database collation is plain code-point order.
- JPA: transactions, flushing, lazy loading and the persistence context are not modelled. A repository UPDATE acts on the table immediately.
- The Categoria entity is not part of this model. `CategoriaRepository.FindById` assumes the inherited findById sees active categories only. The assumption follows the code comments ("solo activas", CategoriaCommandServiceImpl.java:46; ProductoCommandServiceImpl.java:33). It does not follow from any mechanism the repository shows. An entity-level filter would also hide deleted rows from findByIdIncludingDeleted, and no filter at all would let findById return deleted rows. Three things depend on the assumption:
  - the `YaEliminada` branch of `CategoriaCommandService.EliminarCategoria`;
  - the `CategoriaNoEncontradaOEliminada` branch of `ProductoCommandService.CrearProducto` and `ActualizarProducto`;
  - the half of `Store.Consistent` that says every active product is in an active category.
- The CrearProductoCommand class and the TypeScript DTO types are not part of this model. Their fields are taken from their uses.
- ProductoCommandService.CrearProducto: the Bean Validation constraints that the controller's Valid annotation applies to CrearProductoCommand (ProductoCommandController.java:35, 52) are not modelled, because that class is not part of this model. So the modelled server accepts a null or non-positive price, and only a null stock is rejected, by the NOT NULL column.
- findAllDeleted and the unordered queries return rows in id order. The source gives those queries no ORDER BY.
- CategoriaCommandService.CrearCategoria: requires the command to be valid, because the controller applies @Valid before calling it. The rejection of an invalid body by Bean Validation is modelled separately, by `CrearCategoriaCommand.IsValid`.
- CategoriaCommandMapper.ToEntity: requires a present name, which every valid command has.
- CategoriaCommandMapper.UpdateEntity: modelled on values. The in-place mutation of the managed entity is the service storing the returned row.
- ProductoCommandMapper.UpdateEntity: modelled on values, in the same way as the category mapper.
- CategoriaListar.ListState.ToggleEstadisticas: requires the deleted view to be off, since the button is disabled then (CategoriaListar.tsx:186).
- CategoriasPage.PageState.HandleFormSubmit: the refresh counter is an unbounded `nat`. JavaScript numbers are not modelled.
- Render errors other than the product filter's null description, such as `toLowerCase` on a null product name, are not modelled. The server never sends such values.

## Findings

| source | as written | input that shows it | evidently intended | confidence | as-written member | corrected member |
|---|---|---|---|---|---|---|
| FrontEnd/frontend/src/components/productos/ProductoListar.tsx:143-147 | the search filter calls `producto.descripcion.toLowerCase()` without a null check, although `descripcion` is a nullable column (Producto.java:19) | a product "Mesa" with a null description, in category "Muebles", under the filter "x": the name does not match, so the description is read and `toLowerCase` throws a TypeError while rendering | a null description matches nothing, as in the category list's filter (CategoriaListar.tsx:137), so the row is simply left out | medium, not executed | ProductoListar.FiltradosComoEscrito (with ProductoListar.NullDescripcionBreaksFilter and ProductoListar.NullDescripcionExample) | ProductoListar.Filtrados |
