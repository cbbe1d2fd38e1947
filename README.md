# ApiPeliculas — a verified model of the catalogue store and its request decisions

ApiPeliculas is an ASP.NET Core web API for a film catalogue. It has
categories, movies with an optional poster image, and user accounts that
log in with a JWT bearer token. This project models the logic the
repository itself contributes, and proves properties of that model:

- **The catalogue repositories** (`Catalogo`). The category and movie tables
  are sequences of records, with the `Id` column as a unique key. The
  repositories are classes over those sequences.
  - Creating a record stamps its creation date and appends it.
  - Updating a category is an upsert; updating a movie replaces the row with
    the same id.
  - Deleting removes the row with the given key.
  - Existence by id is plain membership. Existence by name compares names
    after lower-casing and trimming both.
  - The listings are sorted by name. Search is a substring match on the
    normalised name. Movies can be filtered by category.
- **The controllers' decision ladders.** These are `ControladorCategorias`,
  `ControladorPeliculas` and `ControladorPeliculasV1`. Each handler runs its
  guards in a fixed order:
  - the model is valid;
  - the body is present;
  - the route id equals the body id;
  - the record exists, or the name is not a duplicate;
  - the repository result.

  Each outcome maps to a status code. A rejected request leaves the tables
  unchanged. The V1 handlers also compute the image paths: the local path
  under `wwwroot/ImagenesPeliculas/`, the public URL under the request's base
  URL, or the placeholder URL. The V1 create and PATCH handlers ignore the
  repository's result; the V1 delete handler answers 404 when it is false.
- **Accounts** (`RepositorioUsuarios`, `ControladorUsuariosV2`).
  - Under .NET string comparison, which the model uses, the uniqueness check
    is case-sensitive, but the login lookup is case-insensitive.
  - A failed login has a fixed shape.
  - The token records a name claim, a first-role claim and an expiry seven
    days ahead.
  - Registration creates the user, bootstraps the roles "Admin" and
    "Registrado", and adds the user to "Admin".
  - The V2 controller fills in a `RespuestaAPI` envelope. Because it does not
    await registration, one of its error branches is dead.

The shared pieces have their own modules. `Texto` holds the string functions
of .NET the code relies on: `ToLower`, `ToUpper`, `Trim`, `Contains`,
`int.ToString`, `Path.GetExtension` and ordinal order. `Linq` holds the
LINQ operators and the table operations EF Core performs: `Any`,
`FirstOrDefault`, `Where`, `Select`, `OrderBy`, update by key and remove by
key. `Modelos` holds the entities, the DTOs, the field-copying maps and the
HTTP result shapes.

The environment enters as parameters:
- the clock;
- the change count `SaveChanges` reports;
- the key the database's identity column assigns;
- the GUID of a new file or user;
- the request's base URL;
- the password check, as a predicate;
- the outcome of `UserManager.CreateAsync`;
- `ModelState`, as its list of validation errors.

## Model

| member | source | states |
|---|---|---|
| Texto.ToLower | ApiPeliculas/Repositorio/Repositorio/CategoriaRepositorio.cs:55 | `ToLower` keeps the length and maps each character through the letter mapping |
| Texto.ToLowerIdempotent | ApiPeliculas/Repositorio/Repositorio/PeliculaRepositorio.cs:48 | lower-casing an already lower-cased name changes nothing |
| Texto.ToUpper | ApiPeliculas/Repositorio/Repositorio/UsuarioRepositorio.cs:123 | `ToUpper` keeps the length and maps each character through the upper-case mapping |
| Texto.FirstNonWhite | ApiPeliculas/Repositorio/Repositorio/CategoriaRepositorio.cs:55 | the first index at or after `k` that is not white space (or the end), with only white space skipped |
| Texto.EndNonWhite | ApiPeliculas/Repositorio/Repositorio/CategoriaRepositorio.cs:55 | the end of the text once the white space before `m` is dropped: only white space skipped, and the character before it is not white space |
| Texto.Trim | ApiPeliculas/Repositorio/Repositorio/CategoriaRepositorio.cs:55 | the result is a slice `s[i..j]` with only white space before `i` and after `j`, and it neither starts nor ends with white space |
| Texto.NormalizeAllWhite | ApiPeliculas/Repositorio/Repositorio/PeliculaRepositorio.cs:31 | a white-space-only query normalises to the empty text |
| Texto.TrimPadded | ApiPeliculas/Repositorio/Repositorio/CategoriaRepositorio.cs:55 | a trimmed word padded with one space on each side trims back to itself |
| Texto.TrimPlain | ApiPeliculas/Repositorio/Repositorio/CategoriaRepositorio.cs:55 | trimming a word without surrounding white space returns it unchanged |
| Texto.ToLowerCharBlanco | ApiPeliculas/Repositorio/Repositorio/CategoriaRepositorio.cs:55 | lower-casing neither creates nor removes white space |
| Texto.ToLowerConcat | ApiPeliculas/Repositorio/Repositorio/CategoriaRepositorio.cs:55 | lower-casing distributes over concatenation |
| Texto.NormalizePadded | ApiPeliculas/Repositorio/Repositorio/CategoriaRepositorio.cs:53-57 | a word padded with a space on each side normalises to the word lower-cased, as the bare word does, so " Drama " and "drama" collide as duplicates |
| Texto.Contains | ApiPeliculas/Repositorio/Repositorio/PeliculaRepositorio.cs:31 | `Contains(s, q)` holds iff `q` occurs in `s` at some position |
| Texto.ContainsEmpty | ApiPeliculas/Repositorio/Repositorio/PeliculaRepositorio.cs:31 | every text contains the empty text |
| Texto.NatToString | ApiPeliculas/Controllers/CategoriasController.cs:145 | decimal digits only, at least one digit, and no leading zero |
| Texto.IntToString | ApiPeliculas/Controllers/CategoriasController.cs:145 | a leading '-' iff the number is negative; otherwise digits only |
| Texto.ParseNatToString | ApiPeliculas/Controllers/CategoriasController.cs:145 | reading back the digits of a natural number gives the number |
| Texto.IntToStringRoundTrip | ApiPeliculas/Controllers/CategoriasController.cs:145 | the text of an id read back gives the id, so the message is faithful to the id |
| Texto.ExtensionDot | ApiPeliculas/Controllers/V1/PeliculasController.cs:103 | finds the last '.' that no directory separator follows, or reports that there is none |
| Texto.GetExtension | ApiPeliculas/Controllers/V1/PeliculasController.cs:103 | the result is empty, or a suffix that starts with '.' and has no further dot or separator; it is empty only when no dot is left in the last segment |
| Texto.ExtensionDotAt | ApiPeliculas/Controllers/V1/PeliculasController.cs:103 | a dot followed by no dot or separator up to position n is the extension dot of `p[..n]` |
| Texto.ExtensionDotNone | ApiPeliculas/Controllers/V1/PeliculasController.cs:103 | a text with no dot has no extension dot |
| Texto.GetExtensionAppended | ApiPeliculas/Controllers/V1/PeliculasController.cs:103 | appending a file's extension to a prefix without dots yields a name with that same extension |
| Texto.ExtensionDotAfterSeparator | ApiPeliculas/Controllers/V1/PeliculasController.cs:103 | a directory separator with no dot after it hides every earlier dot |
| Texto.GetExtensionExample | ApiPeliculas/Controllers/V1/PeliculasController.cs:103 | "poster.final.jpg" gives ".jpg"; "carpeta.v2/poster" gives "" |
| Texto.LessEqTotal | ApiPeliculas/Repositorio/Repositorio/CategoriaRepositorio.cs:66 | the ordinal order on names is total |
| Texto.LessEqTransitive | ApiPeliculas/Repositorio/Repositorio/CategoriaRepositorio.cs:66 | the ordinal order on names is transitive |
| Texto.LessEqAntisymmetric | ApiPeliculas/Repositorio/Repositorio/CategoriaRepositorio.cs:66 | two names that are each at most the other are equal |
| Linq.Any | ApiPeliculas/Repositorio/Repositorio/CategoriaRepositorio.cs:50 | holds iff some element satisfies the predicate |
| Linq.FirstOrDefault | ApiPeliculas/Repositorio/Repositorio/CategoriaRepositorio.cs:61 | null iff no element matches; otherwise the first matching element |
| Linq.Where | ApiPeliculas/Repositorio/Repositorio/PeliculaRepositorio.cs:64 | an element is in the result iff it is in the input and satisfies the predicate |
| Linq.WhereMultiset | ApiPeliculas/Repositorio/Repositorio/PeliculaRepositorio.cs:62-65 | every matching row keeps its multiplicity; a non-matching row is dropped |
| Linq.WhereConcat | ApiPeliculas/Repositorio/Repositorio/PeliculaRepositorio.cs:62-65 | filtering distributes over concatenation, so table order is kept |
| Linq.WhereAll | ApiPeliculas/Repositorio/Repositorio/PeliculaRepositorio.cs:31 | a predicate that every row satisfies returns the whole table |
| Linq.Select | ApiPeliculas/Controllers/V1/PeliculasController.cs:248 | one image per element, at the same index |
| Linq.SelectSnoc | ApiPeliculas/Controllers/PeliculasController.cs:176-179 | mapping one more element appends its image |
| Linq.InsertBy | ApiPeliculas/Repositorio/Repositorio/CategoriaRepositorio.cs:66 | inserting into a sorted list keeps it sorted and adds exactly that element |
| Linq.OrderBy | ApiPeliculas/Repositorio/Repositorio/CategoriaRepositorio.cs:66 | the result is sorted by the key and is a permutation of the input |
| Linq.ReplaceByKey | ApiPeliculas/Repositorio/Repositorio/PeliculaRepositorio.cs:19 | same length; each row with the key of `x` becomes `x`, and every other row is unchanged |
| Linq.RemoveByKey | ApiPeliculas/Repositorio/Repositorio/CategoriaRepositorio.cs:37 | a row remains iff it was there and has a different key |
| Linq.UniqueByWhere | ApiPeliculas/Repositorio/Repositorio/CategoriaRepositorio.cs:37 | removing rows keeps the keys unique |
| Linq.UniqueByReplace | ApiPeliculas/Repositorio/Repositorio/PeliculaRepositorio.cs:19 | replacing by key keeps the keys unique |
| Linq.WhereDrop | ApiPeliculas/Repositorio/Repositorio/CategoriaRepositorio.cs:37 | a filter that rejects one element drops exactly that element from its place |
| Linq.RemoveByKeyAt | ApiPeliculas/Repositorio/Repositorio/CategoriaRepositorio.cs:35-39 | with unique keys, removing the key of row i gives `s[..i] + s[i+1..]` |
| Linq.RemoveByKeyAbsent | ApiPeliculas/Repositorio/Repositorio/CategoriaRepositorio.cs:37 | removing a key no row has leaves the table as it was |
| Linq.ReplaceByKeyAt | ApiPeliculas/Repositorio/Repositorio/CategoriaRepositorio.cs:25 | with unique keys, replacing the key of row i gives `s[i := x]` |
| Modelos.CategoriaMapeoInverso | ApiPeliculas/PeliculasMappers/PeliculaMapper.cs:11 | the category-to-DTO map and its reverse map are inverse to each other |
| Modelos.PeliculaMapeoInverso | ApiPeliculas/PeliculasMappers/PeliculaMapper.cs:13 | the movie-to-DTO map and its reverse map are inverse to each other |
| Modelos.RespuestaAPI.constructor | ApiPeliculas/Modelos/RespuestaAPI.cs:10-19 | a new envelope has no error message, `IsSuccess` true and no result |
| Catalogo.GuardarCuentaNoNegativa | ApiPeliculas/Repositorio/Repositorio/CategoriaRepositorio.cs:69-72 | every count `SaveChanges` can report (zero or more) is a success, zero changes included; only a negative count, which `SaveChanges` never returns, makes `Guardar` false, so the `!Guardar()` branches are dead in the program |
| Catalogo.CategoriaRepositorio.constructor | ApiPeliculas/Repositorio/Repositorio/CategoriaRepositorio.cs:11-14 | the repository starts over the given table, whose keys are unique |
| Catalogo.CategoriaRepositorio.ExisteCategoria | ApiPeliculas/Repositorio/Repositorio/CategoriaRepositorio.cs:48-51 | true iff some stored category has that id |
| Catalogo.CategoriaRepositorio.ExisteCategoriaNombre | ApiPeliculas/Repositorio/Repositorio/CategoriaRepositorio.cs:53-57 | true iff some stored name equals the given one once both are lower-cased and trimmed |
| Catalogo.CategoriaRepositorio.GetCategoria | ApiPeliculas/Repositorio/Repositorio/CategoriaRepositorio.cs:59-62 | null iff no category has the id; otherwise the first stored category with it |
| Catalogo.CategoriaRepositorio.GetCategorias | ApiPeliculas/Repositorio/Repositorio/CategoriaRepositorio.cs:64-67 | a permutation of the table, sorted ascending by name |
| Catalogo.CategoriaRepositorio.CrearCategoria | ApiPeliculas/Repositorio/Repositorio/CategoriaRepositorio.cs:41-46 | appends the category with the assigned key and the current date; the result is true iff the change count is at least 0; keys stay unique |
| Catalogo.CategoriaRepositorio.ActualizarCategoria | ApiPeliculas/Repositorio/Repositorio/CategoriaRepositorio.cs:16-33 | an existing id gets its row overwritten, refreshed date included; otherwise the record is appended; keys stay unique |
| Catalogo.CategoriaRepositorio.BorrarCategoria | ApiPeliculas/Repositorio/Repositorio/CategoriaRepositorio.cs:35-39 | the table becomes the old table without the rows that have the category's key; keys stay unique |
| Catalogo.ActualizarCategoriaExistente | ApiPeliculas/Repositorio/Repositorio/CategoriaRepositorio.cs:16-33 | the upsert on a stored id changes exactly that row and no other |
| Catalogo.BorrarCategoriaExacto | ApiPeliculas/Repositorio/Repositorio/CategoriaRepositorio.cs:35-39 | deleting a stored category removes exactly its row and keeps the others in order |
| Catalogo.PeliculaRepositorio.constructor | ApiPeliculas/Repositorio/Repositorio/PeliculaRepositorio.cs:11-14 | the repository starts over the given table, whose keys are unique |
| Catalogo.PeliculaRepositorio.ExistePelicula | ApiPeliculas/Repositorio/Repositorio/PeliculaRepositorio.cs:41-44 | true iff some stored movie has that id |
| Catalogo.PeliculaRepositorio.ExistePeliculaNombre | ApiPeliculas/Repositorio/Repositorio/PeliculaRepositorio.cs:46-50 | true iff some stored name equals the given one once both are lower-cased and trimmed |
| Catalogo.PeliculaRepositorio.GetPelicula | ApiPeliculas/Repositorio/Repositorio/PeliculaRepositorio.cs:52-55 | null iff no movie has the id; otherwise the first stored movie with it |
| Catalogo.PeliculaRepositorio.GetPeliculas | ApiPeliculas/Repositorio/Repositorio/PeliculaRepositorio.cs:57-60 | a permutation of the table, sorted ascending by name |
| Catalogo.PeliculaRepositorio.BuscarPelicula | ApiPeliculas/Repositorio/Repositorio/PeliculaRepositorio.cs:29-32 | exactly the movies whose normalised name contains the normalised query |
| Catalogo.PeliculaRepositorio.GetPeliculasEnCategoria | ApiPeliculas/Repositorio/Repositorio/PeliculaRepositorio.cs:62-65 | exactly the movies with that category id |
| Catalogo.PeliculaRepositorio.BuscarPeliculaVacia | ApiPeliculas/Repositorio/Repositorio/PeliculaRepositorio.cs:29-32 | an empty or white-space-only query returns the whole table, in order |
| Catalogo.PeliculaRepositorio.CrearPelicula | ApiPeliculas/Repositorio/Repositorio/PeliculaRepositorio.cs:34-39 | appends the movie with the assigned key and the current date; the result is true iff the change count is at least 0 |
| Catalogo.PeliculaRepositorio.ActualizarPelicula | ApiPeliculas/Repositorio/Repositorio/PeliculaRepositorio.cs:16-21 | stamps the date and replaces the row with the same id; an absent id leaves the table unchanged; keys stay unique |
| Catalogo.PeliculaRepositorio.BorrarPelicula | ApiPeliculas/Repositorio/Repositorio/PeliculaRepositorio.cs:23-27 | the table becomes the old table without the rows that have the movie's key |
| Catalogo.ActualizarPeliculaExacto | ApiPeliculas/Repositorio/Repositorio/PeliculaRepositorio.cs:16-21 | updating a stored movie changes exactly its row |
| Catalogo.BorrarPeliculaExacto | ApiPeliculas/Repositorio/Repositorio/PeliculaRepositorio.cs:23-27 | deleting a stored movie removes exactly its row and keeps the others in order |
| ControladorCategorias.CategoriasController.constructor | ApiPeliculas/Controllers/CategoriasController.cs:22-26 | the controller works on the injected repository |
| ControladorCategorias.CategoriasController.GetCategorias | ApiPeliculas/Controllers/CategoriasController.cs:32-44 | 200 with one DTO per category, in the repository's order and length, sorted by name |
| ControladorCategorias.CategoriasController.GetCategoria | ApiPeliculas/Controllers/CategoriasController.cs:52-64 | 404 iff the lookup is null; otherwise 200 with the DTO of a stored category with that id |
| ControladorCategorias.CategoriasController.CrearCategoria | ApiPeliculas/Controllers/CategoriasController.cs:72-99 | 400 for an invalid model, then 400 for a missing body, then 404 "La categoría ya existe" for a normalised duplicate, each leaving the table unchanged; otherwise the category is stored and the answer is 201, or 404 when `Guardar` reports false, i.e. a negative change count, which `SaveChanges` never returns, so the branch is dead in the program |
| ControladorCategorias.CategoriasController.BorrarCategoria | ApiPeliculas/Controllers/CategoriasController.cs:106-121 | 404 with the table untouched for an unknown id; otherwise the row is removed, and the answer is 204, or 404 naming the category when `Guardar` reports false, i.e. a negative change count, which `SaveChanges` never returns, so the branch is dead in the program |
| ControladorCategorias.CategoriasController.ActualizarPatchCategoria | ApiPeliculas/Controllers/CategoriasController.cs:131-157 | 400 for an invalid model, then 400 for a missing body or a route id that differs from the body id, before any lookup; then 404 naming the id; all three leave the table unchanged; otherwise the upsert runs, and the answer is 204, or 500 when `Guardar` reports false, i.e. a negative change count, which `SaveChanges` never returns, so the branch is dead in the program |
| ControladorCategorias.CategoriasController.ActualizarPutCategoria | ApiPeliculas/Controllers/CategoriasController.cs:166-192 | the same guards, order and outcomes as the PATCH handler |
| ControladorCategorias.MsgCategoriaNoEncontradaInyectiva | ApiPeliculas/Controllers/CategoriasController.cs:145 | the not-found message identifies the requested id |
| ControladorPeliculas.PeliculasController.constructor | ApiPeliculas/Controllers/PeliculasController.cs:18-23 | the controller works on the injected repositories |
| ControladorPeliculas.PeliculasController.MapearPeliculas | ApiPeliculas/Controllers/PeliculasController.cs:175-179 | the `foreach`/`Add` loop yields one DTO per movie, in order |
| ControladorPeliculas.PeliculasController.GetPeliculas | ApiPeliculas/Controllers/PeliculasController.cs:28-40 | 200 with one DTO per movie of the listing, same length and order, sorted by name |
| ControladorPeliculas.PeliculasController.GetPelicula | ApiPeliculas/Controllers/PeliculasController.cs:47-59 | 404 iff the lookup is null; otherwise 200 with the DTO of a stored movie with that id |
| ControladorPeliculas.PeliculasController.CrearPelicula | ApiPeliculas/Controllers/PeliculasController.cs:67-94 | 400 for an invalid model or a missing body; 404 "La película ya existe" for a normalised duplicate, with nothing stored; otherwise stored, and 201, or 404 when `Guardar` reports false, i.e. a negative change count, which `SaveChanges` never returns, so the branch is dead in the program |
| ControladorPeliculas.PeliculasController.ActualizarPatchPelicula | ApiPeliculas/Controllers/PeliculasController.cs:102-128 | 400 for an invalid model; 400 on a missing body or an id mismatch; then 404 naming the id; otherwise the row is replaced, and 204, or 500 when `Guardar` reports false, i.e. a negative change count, which `SaveChanges` never returns, so the branch is dead in the program |
| ControladorPeliculas.PeliculasController.BorrarPelicula | ApiPeliculas/Controllers/PeliculasController.cs:134-149 | 404 with the table unchanged for an unknown id; otherwise the row is removed, and 204, or 404 when `Guardar` reports false, i.e. a negative change count, which `SaveChanges` never returns, so the branch is dead in the program |
| ControladorPeliculas.PeliculasController.BuscarPeliculaByCategoria | ApiPeliculas/Controllers/PeliculasController.cs:156-182 | 400 for an id ≤ 0; then 404 for an unknown category; then 404 iff the category has no movie; when the category exists and has movies the answer is 200 carrying one DTO per movie of that category, in table order |
| ControladorPeliculas.PeliculasController.BuscarPelicula | ApiPeliculas/Controllers/PeliculasController.cs:189-213 | 404 iff nothing matches; otherwise 200 with one DTO per match, in table order |
| ControladorPeliculasV1.NombreArchivoConservaExtension | ApiPeliculas/Controllers/V1/PeliculasController.cs:103 | the stored file name `Id ++ guid ++ extension` has the extension of the uploaded file |
| ControladorPeliculasV1.RutaPublicaSirveRutaLocal | ApiPeliculas/Controllers/V1/PeliculasController.cs:121-123 | the public URL is the local path with `wwwroot` replaced by the base URL |
| ControladorPeliculasV1.RutasMismoArchivo | ApiPeliculas/Controllers/V1/PeliculasController.cs:103-123 | the local path and the public URL end in the same file name |
| ControladorPeliculasV1.NombreArchivoAlCrear | ApiPeliculas/Controllers/V1/PeliculasController.cs:92-103 | on create the name is built from the unassigned id 0, so it starts with '0' |
| ControladorPeliculasV1.PeliculasController.constructor | ApiPeliculas/Controllers/V1/PeliculasController.cs:21-26 | the controller works on the injected repositories |
| ControladorPeliculasV1.PeliculasController.AsignarImagen | ApiPeliculas/Controllers/V1/PeliculasController.cs:101-128 | without an image the URL is exactly "https://placehold.co/600x400"; with one, the local path and the URL are built from `Id ++ guid ++ extension`; no other field changes |
| ControladorPeliculasV1.PeliculasController.GetPeliculas | ApiPeliculas/Controllers/V1/PeliculasController.cs:33-45 | 200 with one DTO per movie of the listing, same length and order |
| ControladorPeliculasV1.PeliculasController.GetPelicula | ApiPeliculas/Controllers/V1/PeliculasController.cs:53-65 | 404 iff the lookup is null; otherwise 200 with the DTO of a stored movie with that id |
| ControladorPeliculasV1.PeliculasController.CrearPelicula | ApiPeliculas/Controllers/V1/PeliculasController.cs:74-132 | 400 and 404-duplicate as unversioned; otherwise exactly one row is appended with the name, category, date, assigned key and image paths (placeholder without an image), and the answer is 201 whatever the save reports |
| ControladorPeliculasV1.PeliculasController.ActualizarPatchPelicula | ApiPeliculas/Controllers/V1/PeliculasController.cs:141-197 | 400 on an invalid model, a missing body or an id mismatch; 404 for an unknown id; otherwise the row is replaced and the answer is always 204; without an image the stored URL becomes the placeholder and the local path is cleared |
| ControladorPeliculasV1.PeliculasController.BorrarPelicula | ApiPeliculas/Controllers/V1/PeliculasController.cs:204-219 | 404 with the table unchanged for an unknown id; otherwise the row is removed, and 204, or 404 when `Guardar` reports false, i.e. a negative change count, which `SaveChanges` never returns, so the branch is dead in the program |
| ControladorPeliculasV1.PeliculasController.BuscarPeliculaByCategoria | ApiPeliculas/Controllers/V1/PeliculasController.cs:227-260 | 400 for an id ≤ 0; 404 for an unknown category; 404 naming the id iff the category has no movie; when the category exists and has movies the answer is 200 carrying one DTO per movie of that category, in table order |
| ControladorPeliculasV1.PeliculasController.BuscarPelicula | ApiPeliculas/Controllers/V1/PeliculasController.cs:268-287 | 404 naming the query iff nothing matches; otherwise 200 with the matches as DTOs |
| RepositorioUsuarios.AgregarARol | ApiPeliculas/Repositorio/Repositorio/UsuarioRepositorio.cs:148 | afterwards the user holds the role, keeps the roles it had and gains no other; other users are untouched |
| RepositorioUsuarios.AgregarARolIdempotente | ApiPeliculas/Repositorio/Repositorio/UsuarioRepositorio.cs:148 | adding a user to a role twice is the same as adding it once |
| RepositorioUsuarios.AgregarARolConservaRoles | ApiPeliculas/Repositorio/Repositorio/UsuarioRepositorio.cs:137-148 | adding a user to a role that exists keeps every assigned role in the role store |
| RepositorioUsuarios.NuevoUsuario | ApiPeliculas/Repositorio/Repositorio/UsuarioRepositorio.cs:119-125 | `UserName = Email = NombreUsuario`, `Nombre` from the form, `NormalizedEmail` the upper-cased `NombreUsuario` |
| RepositorioUsuarios.UsuarioRepositorio.constructor | ApiPeliculas/Repositorio/Repositorio/UsuarioRepositorio.cs:25-32 | the repository starts over the given user and role stores, in which every assigned role exists |
| RepositorioUsuarios.UsuarioRepositorio.GetUsuarios | ApiPeliculas/Repositorio/Repositorio/UsuarioRepositorio.cs:39-42 | every user, as a permutation sorted ascending by user name |
| RepositorioUsuarios.UsuarioRepositorio.IsUniqueUser | ApiPeliculas/Repositorio/Repositorio/UsuarioRepositorio.cs:44-54 | true iff no stored user name equals the given one exactly |
| RepositorioUsuarios.UsuarioRepositorio.BuscarParaLogin | ApiPeliculas/Repositorio/Repositorio/UsuarioRepositorio.cs:58-60 | null iff no user name matches once both are lower-cased; otherwise a stored user that matches |
| RepositorioUsuarios.UsuarioRepositorio.Login | ApiPeliculas/Repositorio/Repositorio/UsuarioRepositorio.cs:56-113 | empty token and null user when no user matches or the password is wrong; throws when the user has no role; otherwise the user's view and a token with a name claim, a first-role claim and expiry now + 7 days |
| RepositorioUsuarios.UsuarioRepositorio.Registro | ApiPeliculas/Repositorio/Repositorio/UsuarioRepositorio.cs:115-152 | a failed creation returns (null, its errors) with no change; otherwise the user is appended, "Admin" and "Registrado" exist, the user holds "Admin", and the view of the first user with that exact name is returned |
| RepositorioUsuarios.NoUnicoEncontradoEnLogin | ApiPeliculas/Repositorio/Repositorio/UsuarioRepositorio.cs:44-60 | a name that fails the uniqueness check is always found by the login lookup |
| RepositorioUsuarios.UnicidadDistingueMayusculas | ApiPeliculas/Repositorio/Repositorio/UsuarioRepositorio.cs:44-60 | in the model, where names compare as .NET in-memory strings, with "Ana" stored "ana" passes the uniqueness check yet logs in as "Ana" |
| RepositorioUsuarios.LoginFallidoCompleto | ApiPeliculas/Repositorio/Repositorio/UsuarioRepositorio.cs:62-67 | in a login answer the token is empty exactly when the user is null |
| RepositorioUsuarios.LoginRolExiste | ApiPeliculas/Repositorio/Repositorio/UsuarioRepositorio.cs:86-104 | a token has two claims: the name, matching the login name without case, and a role that exists in the role store; it expires 7 days after now |
| ControladorUsuariosV2.Tarea.constructor | ApiPeliculas/Controllers/V2/UsuariosV2Controller.cs:87 | the task object holds the repository's eventual answer |
| ControladorUsuariosV2.UsuariosV2Controller.constructor | ApiPeliculas/Controllers/V2/UsuariosV2Controller.cs:24-29 | each controller gets a fresh envelope with no message |
| ControladorUsuariosV2.UsuariosV2Controller.GetUsuarios | ApiPeliculas/Controllers/V2/UsuariosV2Controller.cs:36-48 | 200 with one DTO per user, in repository order and length |
| ControladorUsuariosV2.UsuariosV2Controller.Registro | ApiPeliculas/Controllers/V2/UsuariosV2Controller.cs:75-101 | a duplicate name gives 400, `IsSuccess` false and the message "El nombre de usuario ya existe", with the store unchanged; every other name gives 200 with `IsSuccess`, whatever the creation's outcome |
| ControladorUsuariosV2.UsuariosV2Controller.RegistroEsperado | ApiPeliculas/Controllers/V2/UsuariosV2Controller.cs:87-95 | with the call awaited, `IsSuccess` holds iff the name was unique and the user was created; a failed creation gives 400 "Error en el registro" |
| ControladorUsuariosV2.UsuariosV2Controller.Login | ApiPeliculas/Controllers/V2/UsuariosV2Controller.cs:108-125 | a null user or an empty token gives 400, `IsSuccess` false and "El nombre de usuario o password son incorrectos"; otherwise 200, `IsSuccess`, and `Result` the repository's answer |
| ControladorUsuariosV2.AtenderLogin | ApiPeliculas/Controllers/V2/UsuariosV2Controller.cs:24-29 | the request fails with an exception iff the repository throws; with a fresh envelope a refused login is 400 with exactly one message and no result, and an accepted one is 200 with no message and a JWT token |
| ControladorUsuariosV2.AtenderRegistro | ApiPeliculas/Controllers/V2/UsuariosV2Controller.cs:75-101 | as written, with a fresh envelope: 400, `IsSuccess` false and exactly the message "El nombre de usuario ya existe" iff the name is not unique; otherwise 200, `IsSuccess` and no message, whatever the creation's outcome |
| ControladorUsuariosV2.AtenderRegistroEsperado | ApiPeliculas/Controllers/V2/UsuariosV2Controller.cs:87-95 | with the call awaited and a fresh envelope: 200 iff the name is unique and the user was created; a duplicate name carries exactly "El nombre de usuario ya existe", a failed creation exactly "Error en el registro" |
| ControladorUsuariosV2.RegistroConClaveRechazada | ApiPeliculas/Controllers/V2/UsuariosV2Controller.cs:87-99 | a refused password on an empty store stores no user, yet the answer is 200 with `IsSuccess` |

## Left out

- Entity Framework Core, ASP.NET Identity and the HTTP pipeline are not modelled. Tables are sequences of records and the role store is a set with a map of role lists. Program.cs, the Swagger setup, the migrations and the `DbContext` mapping are not part of this model.
- Catalogo.CategoriaRepositorio.ActualizarCategoria: the model inserts an absent id as given. EF Core's `Update` of an untracked entity inserts only when its key is the default 0; a non-zero absent key would fail at save time. The controllers call this operation only for ids that exist.
- Catalogo.PeliculaRepositorio.ActualizarPelicula: the model leaves the table unchanged for an absent id. EF Core's `Update` of an untracked entity whose key is the default 0 marks it Added, so the save inserts it under a fresh key; a non-zero absent key fails at save time. Both PATCH handlers call this operation only after `ExistePelicula` has found the id.
- Catalogo.CategoriaRepositorio.CrearCategoria, Catalogo.PeliculaRepositorio.CrearPelicula: the database assigns the key; the model takes that key as a parameter and requires it to be unused.
- Exceptions thrown by the database are not modelled. These are a failed save, a concurrency conflict and a lost connection. The `catch` blocks of the search handlers exist only for them, so their 500 answers are left out. `SaveChanges` is modelled by its returned count.
- ControladorPeliculas.PeliculasController.BuscarPelicula, ControladorPeliculasV1.PeliculasController.BuscarPelicula: a query string that is absent (null) is not modelled; the query is always a string.
- Texto.ToLower, Texto.ToUpper, Texto.Trim: case mapping covers ASCII letters only, and white space for `Trim` is the ASCII set plus U+0085 and U+00A0; the other Unicode separators are not modelled. .NET's `ToLower` maps "ACCIÓN" to "acción", where the model gives "acciÓn", so in the model accented Spanish names that differ only in case do not collide in `ExisteCategoria(nombre)` or `ExistePelicula(nombre)`. `ToUpper` likewise leaves accented letters of `NormalizedEmail` unchanged.
- Name order is ordinal, code point by code point.
- The repositories' LINQ predicates run as SQL on SQL Server: the uniqueness check `IsUniqueUser`, the login lookup, `ExisteCategoria(nombre)`, `ExistePelicula(nombre)` and `BuscarPelicula`. There the column collation decides `==`, `Contains` and whether case matters, and `Trim` becomes `LTRIM`/`RTRIM`, which strip spaces only. The model evaluates these predicates with .NET in-memory string semantics. Its statements about case (RepositorioUsuarios.UnicidadDistingueMayusculas among them) and about white space hold for that semantics; under a case-insensitive collation the uniqueness check would also reject a name differing only in case.
- Texto.GetExtension: both `/` and `\` count as directory separators, as in `Path.GetExtension` on Windows. On Linux only `/` separates, so there a name such as `a.b\c` has the extension `.b\c`.
- The file system is not modelled. The V1 handlers' write, delete and directory lookup for the image file are left out; only the paths stored on the movie are computed. GUID generation and the request's scheme, host and path base are parameters.
- JWT signing (HMAC-SHA-256, section 3.2 of RFC 7518) and compact serialisation (RFC 7519) are not modelled. The token is the record of its claims and expiry. The secret key is not modelled.
- Password hashing and verification (`CheckPasswordAsync`) is a predicate parameter. `CreateAsync` is modelled by its outcome, success or an ordered error list, passed in. The identity store's own validations (for example duplicate normalised names) are inside that outcome.
- Role order as returned by `GetRolesAsync` is taken to be the order of assignment.
- Async/await and concurrency are not modelled. The un-awaited registration in the V2 controller is modelled as running to completion before the response is built.
- Authorisation attributes, CORS, response caching and API versioning are framework configuration and are not modelled.
- `UsuariosV2Controller.GetUsuario(int)` is not modelled: it passes an int where the repository takes a string id. `UsuarioRepositorio.GetUsuario(string)` is not modelled for the same reason.
- The commented-out MD5 and `PasswordHasher` code in `UsuarioRepositorio` is not live and is not modelled. Neither is `CategoriasV2Controller`, which returns a constant array.
- ModelState validation from data annotations is decided by the framework. It enters as the list of errors it produced.
- The DTO classes other than `CategoriaDto` are not part of this model's sources. Their fields are taken as the entity fields AutoMapper copies, plus the optional image file on the create and update forms of movies.

## Findings

| source | as written | input that shows it | evidently intended | confidence | as-written member | corrected member |
|---|---|---|---|---|---|---|
| ApiPeliculas/Controllers/V2/UsuariosV2Controller.cs:87-99 | `_usRepo.Registro(...)` is not awaited, so `usuario` is the task object. It is never null, which makes the "Error en el registro" branch dead: every unique name is answered 200 with `IsSuccess` true | a new name "ana" with password "abc", which `CreateAsync` rejects; the store stays empty, yet the answer is 200 with `IsSuccess` | await the call and answer 400 "Error en el registro" when no user came back | high; not executed | ControladorUsuariosV2.RegistroConClaveRechazada | ControladorUsuariosV2.UsuariosV2Controller.RegistroEsperado |
