/** Game entity to and from wire records (Mapping/GameMapping.cs).

    The mappers read `GenreId` from the create and update requests, whereas
    CreateGameDto and UpdateGameDto as declared carry `Genre: string` (module
    RequestValidation). The two do not fit; the mappers are modelled over the
    request shape they read, `CreateRequest` and `UpdateRequest` below, whose
    genre is the foreign key, and the validated records keep the declared
    genre name. */
module GameMapping {
  import opened Primitives
  import opened Entities
  import opened Dtos

  /** The create request as the mapper reads it: genre by id. */
  datatype CreateRequest = CreateRequest(name: string, genreId: Int32, price: Price, releaseDate: Date)

  /** The update request as the mapper reads it: genre by id. */
  datatype UpdateRequest = UpdateRequest(name: string, genreId: Int32, price: Price, releaseDate: Date)

  /** A new, unsaved entity: the id keeps its default 0 until the store assigns
      one, and the genre navigation is left unset. */
  function ToEntity(game: CreateRequest): Game {
    Game(0, game.name, None, game.genreId, game.price, game.releaseDate)
  }

  /** The list view; the genre name comes from the navigation, which must have
      been loaded. */
  function ToGameSummaryDto(game: Game): GameSummaryDto
    requires game.genre.Some?
  {
    GameSummaryDto(game.id, game.name, game.genre.value.name, game.price, game.releaseDate)
  }

  /** The detail view; it needs no loaded genre, since it carries the key. */
  function ToGameDetailsDto(game: Game): GameDetailsDto {
    GameDetailsDto(game.id, game.name, game.genreId, game.price, game.releaseDate)
  }

  /** The replacement entity for an update of game `id`. */
  function ToEntityWithId(game: UpdateRequest, id: Int32): Game {
    Game(id, game.name, None, game.genreId, game.price, game.releaseDate)
  }

  /** A created entity is the replacement entity, with the default id 0, for an
      update request carrying the same fields: nothing but the id tells the two
      mappers apart. */
  lemma CreatedEntity(c: CreateRequest)
    ensures ToEntity(c) == ToEntityWithId(UpdateRequest(c.name, c.genreId, c.price, c.releaseDate), 0)
  {
  }

  /** The replacement entity has the given id and every other field from the
      request; two replacements are equal exactly when their ids and requests
      are, so nothing of an earlier entity can survive an update. */
  lemma UpdatedEntityIsFullReplacement(u: UpdateRequest, id: Int32, u': UpdateRequest, id': Int32)
    ensures ToEntityWithId(u, id).id == id && ToEntityWithId(u, id).genre.None?
    ensures ToEntityWithId(u, id).name == u.name && ToEntityWithId(u, id).genreId == u.genreId
    ensures ToEntityWithId(u, id).price == u.price && ToEntityWithId(u, id).releaseDate == u.releaseDate
    ensures ToEntityWithId(u, id) == ToEntityWithId(u', id') <==> u == u' && id == id'
  {
  }

  /** The details of any game, genre loaded or not; the navigation plays no part. */
  lemma DetailsOfAnyGame(game: Game, genre: Option<Genre>)
    ensures ToGameDetailsDto(game) == GameDetailsDto(game.id, game.name, game.genreId, game.price, game.releaseDate)
    ensures ToGameDetailsDto(game.(genre := genre)) == ToGameDetailsDto(game)
  {
  }

  /** Details of an updated entity give back the path id and the request. */
  lemma UpdateDetailsRoundTrip(u: UpdateRequest, id: Int32)
    ensures ToGameDetailsDto(ToEntityWithId(u, id)) == GameDetailsDto(id, u.name, u.genreId, u.price, u.releaseDate)
  {
  }

  /** Details of a created, unsaved entity give back id 0 and the request. */
  lemma CreateDetailsRoundTrip(c: CreateRequest)
    ensures ToGameDetailsDto(ToEntity(c)) == GameDetailsDto(0, c.name, c.genreId, c.price, c.releaseDate)
  {
  }

  /** With its genre loaded, a game's summary and details agree on id, name,
      price and release date; the summary's genre is the loaded genre's name. */
  lemma SummaryAgreesWithDetails(game: Game)
    requires game.genre.Some?
    ensures ToGameSummaryDto(game).id == ToGameDetailsDto(game).id
    ensures ToGameSummaryDto(game).name == ToGameDetailsDto(game).name
    ensures ToGameSummaryDto(game).price == ToGameDetailsDto(game).price
    ensures ToGameSummaryDto(game).releaseDate == ToGameDetailsDto(game).releaseDate
    ensures ToGameSummaryDto(game).genre == game.genre.value.name
  {
  }
}
