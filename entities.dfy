/** The persisted records (Entities/Genre.cs, Entities/Game.cs). */
module Entities {
  import opened Primitives

  /** A genre row: its id and its name. */
  datatype Genre = Genre(id: Int32, name: string)

  /** A game row. `genre` is the navigation property, present only when the
      related genre has been loaded; `genreId` is the foreign key. */
  datatype Game = Game(
    id: Int32,
    name: string,
    genre: Option<Genre>,
    genreId: Int32,
    price: Price,
    releaseDate: Date)

  /** The five genres inserted once as seed data when the schema is created. */
  const SeedGenres: seq<Genre> := [
    Genre(1, "Roleplaying"),
    Genre(2, "Action"),
    Genre(3, "Adventure"),
    Genre(4, "Strategy"),
    Genre(5, "Simulation")
  ]
}
