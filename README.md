# Game store catalogue: a Dafny model

This project models the request-handling core of a small ASP.NET game-store API:

- **The game endpoints.** The application wires up the route-group variant of
  the games controller. Its GET, PUT and DELETE handlers work on a static,
  in-memory `List<GameDto>`, seeded with five games with ids 1 to 5:
  - GET all returns the list;
  - GET by id returns the first game with that id (`Find`), or 404;
  - PUT finds the first matching index (`FindIndex`), answers 404 when there is
    none, and otherwise replaces that one slot and answers 204;
  - DELETE removes every game with the id (`RemoveAll`) and always answers 204.
  PUT runs behind a parameter-validation filter, so an invalid request is
  answered 400 before the handler looks at the list. The model is the class
  `GamesController.GameList`. Its field `games: seq<GameDto>` is the list. Its
  methods are the handlers: GET by id and PUT are proved against the
  specification function `IndexOf` (first match or -1), DELETE against
  `Without` (the list minus one id), and GET all returns the field itself.
- **The mappers.** `GameMapping` and `GenreMapping` are pure functions between
  the entity records and the wire records. The summary view needs the genre
  navigation to be loaded, a precondition here. The detail view needs nothing.
- **Request validation.** The data annotations on `CreateGameDto` and
  `UpdateGameDto` become the total predicates `ValidCreate` and `ValidUpdate`,
  plus the set of failing members that a 400 answer names:
  - `[Required]`: present and not blank;
  - `[StringLength(n)]`: at most n UTF-16 code units, and a missing string passes;
  - `[Range(1, 100)]`: 1 ≤ Price ≤ 100.

Prices (`decimal`) are `real`, so 59.99 is exact. Ids are a 32-bit `Int32`
newtype. Dates are (year, month, day) triples.

Three points about the code as it stands:
- The wired-up code serves GET, PUT and DELETE from the in-memory list; only
  POST uses the database context.
- The request records declare and validate a genre *name* (`Genre: string`),
  and PUT stores that name.
- The mappers read `GenreId` from the create and update requests. Those records
  as declared have no such member. The mappers are therefore modelled over
  their own request shapes, `GameMapping.CreateRequest` and
  `GameMapping.UpdateRequest`, which carry `genreId`. The validated records
  keep the declared genre name. `game_mapping.dfy` states this in its module
  comment.

Modules: `Primitives` (Option, Int32, Date, Price), `Entities` (Genre, Game,
seed genres), `Dtos` (wire records), `RequestValidation`, `GenreMapping`,
`GameMapping`, `GamesController`.

## Model

| member | source | states |
|---|---|---|
| GamesController.GameList.constructor | gamestore-api/Controllers/GamesController.cs:12-48 | the list starts as the five seed games |
| GamesController.SeedIds | gamestore-api/Controllers/GamesController.cs:12-48 | the seed holds five games with ids 1..5 in order, all distinct |
| GamesController.GameList.GetAll | gamestore-api/Controllers/GamesController.cs:182 | returns the current list exactly; modifies nothing |
| GamesController.IndexOf | gamestore-api/Controllers/GamesController.cs:244-246 | -1 exactly when no game has the id; otherwise the index of a match with no match before it |
| GamesController.GameList.FindIndex | gamestore-api/Controllers/GamesController.cs:244 | the linear search returns the first matching index, or -1 |
| GamesController.GameList.GetById | gamestore-api/Controllers/GamesController.cs:185-189 | Ok with the first game of that id, NotFound when none; the game returned is in the list and has the id; nothing changes |
| GamesController.GameList.Put | gamestore-api/Controllers/GamesController.cs:242-262 | invalid request: ValidationProblem naming the failing members, list unchanged; unknown id: NotFound, list unchanged; otherwise NoContent, and only the first matching slot is replaced, by the path id with the request's Name, Genre, Price and ReleaseDate; distinct ids stay distinct |
| GamesController.Replacement | gamestore-api/Controllers/GamesController.cs:251-257 | defined for a valid request: the game (path id, Name, Genre, Price, ReleaseDate) a successful PUT stores; its properties are in GameList.Put and ReplaceFirstMatch |
| GamesController.ReplaceFirstMatch | gamestore-api/Controllers/GamesController.cs:251-257 | after the replacement the first match for the id is the new game: a following GET returns it; distinctness of ids is preserved |
| GamesController.GameList.Delete | gamestore-api/Controllers/GamesController.cs:265-269 | always NoContent; the new list is the old one with every game of that id removed; distinct ids stay distinct |
| GamesController.Without | gamestore-api/Controllers/GamesController.cs:267 | the list with every game of the id taken out, front to back; its properties are proved in WithoutAppend, WithoutCounts, WithoutMembers, WithoutAbsent, WithoutRemovesAll, WithoutIdempotent and WithoutDistinct |
| GamesController.WithoutAppend | gamestore-api/Controllers/GamesController.cs:267 | removal distributes over concatenation, so the remaining games keep their relative order |
| GamesController.WithoutCounts | gamestore-api/Controllers/GamesController.cs:267 | removal keeps each game of another id exactly as often as it occurs, and no game of the removed id |
| GamesController.WithoutMembers | gamestore-api/Controllers/GamesController.cs:267 | a game remains exactly when it was in the list and has another id |
| GamesController.WithoutAbsent | gamestore-api/Controllers/GamesController.cs:265-269 | deleting an id that no game has leaves the list unchanged |
| GamesController.WithoutRemovesAll | gamestore-api/Controllers/GamesController.cs:267 | after a delete, a search for that id finds nothing (GET gives NotFound) |
| GamesController.WithoutIdempotent | gamestore-api/Controllers/GamesController.cs:267 | a second delete of the same id changes nothing |
| GamesController.WithoutDistinct | gamestore-api/Controllers/GamesController.cs:267 | removal preserves distinct ids |
| GamesController.ReplaceThenGetScenario | gamestore-api/Controllers/GamesController.cs:185-259 | from the seed, a valid PUT of game 1 answers NoContent and a following GET returns the path id with the request's fields |
| GamesController.DeleteTwiceScenario | gamestore-api/Controllers/GamesController.cs:265-269 | from the seed, deleting game 1 twice answers NoContent both times; a GET then answers NotFound; the list is the other four seed games, in order |
| GameMapping.ToEntity | gamestore-api/Mapping/GameMapping.cs:15-25 | the entity (id 0, Name, no genre navigation, GenreId, Price, ReleaseDate) of a create request; proved in CreatedEntity and CreateDetailsRoundTrip |
| GameMapping.ToGameSummaryDto | gamestore-api/Mapping/GameMapping.cs:29-38 | requires the genre navigation loaded (the `Genre!`); the five fields (Id, Name, Genre.Name, Price, ReleaseDate); proved in SummaryAgreesWithDetails |
| GameMapping.ToGameDetailsDto | gamestore-api/Mapping/GameMapping.cs:42-51 | no precondition; the five fields (Id, Name, GenreId, Price, ReleaseDate); proved in DetailsOfAnyGame and the two round trips |
| GameMapping.ToEntityWithId | gamestore-api/Mapping/GameMapping.cs:55-66 | the entity (given id, Name, no genre navigation, GenreId, Price, ReleaseDate) of an update request; proved in UpdatedEntityIsFullReplacement and UpdateDetailsRoundTrip |
| GameMapping.CreatedEntity | gamestore-api/Mapping/GameMapping.cs:15-65 | a created entity is the update mapper's entity for id 0 and the same fields: Name, GenreId, Price and ReleaseDate copied, id 0, no genre navigation |
| GameMapping.UpdatedEntityIsFullReplacement | gamestore-api/Mapping/GameMapping.cs:55-65 | the entity built for an update has the given id and every other field from the request; two such entities are equal exactly when their ids and requests are |
| GameMapping.DetailsOfAnyGame | gamestore-api/Mapping/GameMapping.cs:42-50 | the details are (Id, Name, GenreId, Price, ReleaseDate) for any game, and do not depend on the genre navigation |
| GameMapping.UpdateDetailsRoundTrip | gamestore-api/Mapping/GameMapping.cs:42-65 | details of the entity for update (u, id) are (id, u.Name, u.GenreId, u.Price, u.ReleaseDate) |
| GameMapping.CreateDetailsRoundTrip | gamestore-api/Mapping/GameMapping.cs:15-50 | details of the entity for create request c are (0, c.Name, c.GenreId, c.Price, c.ReleaseDate) |
| GameMapping.SummaryAgreesWithDetails | gamestore-api/Mapping/GameMapping.cs:29-50 | with the genre loaded (the precondition standing for the `Genre!` dereference), summary and details agree on Id, Name, Price and ReleaseDate, and the summary's genre is the loaded genre's name |
| GenreMapping.ToDto | gamestore-api/Mapping/GenreMapping.cs:14-17 | total; the view (Id, Name) of a genre; proved in ToDtoInjective |
| GenreMapping.ToDtos | gamestore-api/Controllers/GenresEndpoints.cs:16 | the views of a list of genres, element by element in list order, as the listing's `Select` projects them; proved in SeedGenreDtos |
| GenreMapping.ToDtoInjective | gamestore-api/Mapping/GenreMapping.cs:14-17 | two genres have the same view exactly when they have the same id and name, that is, when they are equal |
| GenreMapping.SeedGenreDtos | gamestore-api/Data/GameStoreContext.cs:28-34 | the five seed genres map to (1,"Roleplaying") … (5,"Simulation"), in that order |
| RequestValidation.Required | gamestore-api/DTO/CreateGameDto.cs:5-6 | `[Required]` on a string: present and not empty or white space only; proved in CreateBlankNameRejected and CreateGenreLimit |
| RequestValidation.StringLength | gamestore-api/DTO/CreateGameDto.cs:5-6 | `[StringLength(n)]`: missing, or at most n UTF-16 code units; proved in CreateNameLimit, CreateGenreLimit and Utf16LengthBmp |
| RequestValidation.Range | gamestore-api/DTO/CreateGameDto.cs:7 | `[Range(lo, hi)]` on a decimal: lo ≤ p ≤ hi; proved in CreatePriceBounds |
| RequestValidation.ValidCreate | gamestore-api/DTO/CreateGameDto.cs:4-9 | the conjunction of the create annotations: Name required and at most 50, Genre required and at most 20, Price in [1, 100], ReleaseDate free; proved in CreateViolations, CreateViolationsPerField and the Create* lemmas |
| RequestValidation.ValidUpdate | gamestore-api/DTO/UpdateGameDto.cs:6-11 | the same conjunction for the update annotations; proved in UpdateViolations, UpdateMatchesCreate and the Update* lemmas |
| RequestValidation.CreateViolations | gamestore-api/DTO/CreateGameDto.cs:4-9 | no member is reported exactly when the create request is valid |
| RequestValidation.CreateViolationsPerField | gamestore-api/DTO/CreateGameDto.cs:4-9 | each member is reported exactly when its own annotations fail; the request is valid exactly when none is |
| RequestValidation.CreateBlankNameRejected | gamestore-api/DTO/CreateGameDto.cs:5 | a missing, empty or blank Name makes the request invalid, and Name is reported |
| RequestValidation.CreateNameLimit | gamestore-api/DTO/CreateGameDto.cs:5 | with the other fields valid, a Name of Basic Multilingual Plane characters is accepted up to 50 characters and rejected from 51 |
| RequestValidation.CreateGenreLimit | gamestore-api/DTO/CreateGameDto.cs:6 | a missing or blank Genre is rejected; otherwise a Genre of Basic Multilingual Plane characters is accepted up to 20 characters and rejected from 21 |
| RequestValidation.CreatePriceBounds | gamestore-api/DTO/CreateGameDto.cs:7 | with the other fields valid, the request is valid exactly when 1 ≤ Price ≤ 100; 1 and 100 pass, 0 and 101 fail |
| RequestValidation.CreateReleaseDateUnconstrained | gamestore-api/DTO/CreateGameDto.cs:8 | changing the release date changes neither validity nor the reported members |
| RequestValidation.CreateAccepted | gamestore-api/DTO/CreateGameDto.cs:4-9 | non-blank Basic Multilingual Plane Name and Genre within 50 and 20 characters and a Price in [1, 100] make a valid request |
| RequestValidation.Utf16LengthBmp | gamestore-api/DTO/CreateGameDto.cs:5-6 | for Basic Multilingual Plane text the measured length is the character count |
| RequestValidation.Utf16LengthBounds | gamestore-api/DTO/CreateGameDto.cs:5-6 | the measured length lies between the character count and twice it |
| RequestValidation.UpdateViolations | gamestore-api/DTO/UpdateGameDto.cs:6-11 | no member is reported exactly when the update request is valid |
| RequestValidation.UpdateMatchesCreate | gamestore-api/DTO/UpdateGameDto.cs:6-11 | for the same field values, update and create validity agree, naming the same members |
| RequestValidation.UpdateBlankNameRejected | gamestore-api/DTO/UpdateGameDto.cs:7 | a missing, empty or blank Name makes an update invalid |
| RequestValidation.UpdateNameLimit | gamestore-api/DTO/UpdateGameDto.cs:7 | with the other fields valid, an update Name of Basic Multilingual Plane characters is accepted up to 50 characters and rejected from 51 |
| RequestValidation.UpdateGenreLimit | gamestore-api/DTO/UpdateGameDto.cs:8 | Genre is required, and limited to 20 characters |
| RequestValidation.UpdatePriceBounds | gamestore-api/DTO/UpdateGameDto.cs:9 | with the other fields valid, the update is valid exactly when Price lies in [1, 100] |
| RequestValidation.UpdateReleaseDateUnconstrained | gamestore-api/DTO/UpdateGameDto.cs:10 | the release date takes no part in update validation |
| RequestValidation.UpdateAccepted | gamestore-api/DTO/UpdateGameDto.cs:6-11 | the update counterpart of CreateAccepted |
| RequestValidation.EldenRingRequestValid | gamestore-api/DTO/UpdateGameDto.cs:6-11 | the request ("Elden Ring", "Roleplaying", 59.99, 2022-02-25) passes the update checks, so the replacement scenario's requires can be met |

## Left out

- POST /games, in both variants. Each handler builds its entity inline; neither calls `GameMapping.ToEntity`. It copies the same four fields as `ToEntity`, and it also loads the Genre navigation through the database context. It then adds and saves the entity; the store assigns the id and enforces the genre foreign key, which is not visible code. The route-group variant answers with a `GameDto` built from the loaded genre's name. None of this is modelled.
- The first endpoint variant, `MapGamesEndpointsWithWebApplication`. Its GET and DELETE are the same as the route-group variant's, so they are modelled once. Its PUT is the same except that it runs without the validation filter; that unvalidated PUT is not modelled.
- The genre listing endpoint. It is an asynchronous database query; only its projection through `GenreMapping.ToDto` is modelled.
- Host start-up, dependency injection, the database migration on start-up, and the migration's schema. These are infrastructure.
- HTTP routing and the binding of the `{id}` route value to an int. So are JSON deserialisation and the response objects, which are reduced to `Outcome`. A missing Price or ReleaseDate in the JSON takes its default value (0, or 0001-01-01); the model receives those values as given.
- RequestValidation.Range: it is the exact comparison 1 ≤ Price ≤ 100. With integer bounds, the validation library first converts the decimal to an int, rounding half to even. So the library also accepts prices above 0.5 and below 1, and prices above 100 up to 100.5, which the model rejects. A price outside the int range makes that conversion fail. Neither is modelled, nor are decimal precision limits.
- RequestValidation.CreatePriceBounds: states validity exactly for 1 ≤ Price ≤ 100, following RequestValidation.Range; the library's rounding also accepts prices in (0.5, 1) and (100, 100.5], which this lemma does not capture.
- RequestValidation.UpdatePriceBounds: the same as CreatePriceBounds, for update requests.
- The text and the ordering of validation messages. A 400 answer is modelled as the set of failing members.
- Calendar validity of dates: no operation depends on it.
- GamesController.GameList.GetAll: it returns the list as a value. The service returns a reference to the live list, which is serialised at once; the aliasing is not modelled.
- Concurrency: the static list is shared by all requests without locking. The model runs one handler at a time.
