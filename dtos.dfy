/** The wire records the handlers and mappers return. */
module Dtos {
  import opened Primitives

  /** The element of the in-memory game list: the genre travels by name. */
  datatype GameDto = GameDto(id: Int32, name: string, genre: string, price: Price, releaseDate: Date)

  /** The list view of a game: the genre name is denormalised into it. */
  datatype GameSummaryDto = GameSummaryDto(id: Int32, name: string, genre: string, price: Price, releaseDate: Date)

  /** The detail view of a game: the genre travels as its foreign key. */
  datatype GameDetailsDto = GameDetailsDto(id: Int32, name: string, genreId: Int32, price: Price, releaseDate: Date)

  /** The wire view of a genre. */
  datatype GenreDto = GenreDto(id: Int32, name: string)
}
