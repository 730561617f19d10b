/** Genre entity to wire record (Mapping/GenreMapping.cs). */
module GenreMapping {
  import opened Entities
  import opened Dtos

  /** Total: every genre, loaded or not, has a wire view. */
  function ToDto(genre: Genre): GenreDto {
    GenreDto(genre.id, genre.name)
  }

  /** The wire views of a list of genres, in list order: what the genre listing
      projects each row through. */
  function ToDtos(genres: seq<Genre>): seq<GenreDto> {
    seq(|genres|, i requires 0 <= i < |genres| => ToDto(genres[i]))
  }

  /** Genres that differ in id or name have different wire views. */
  lemma ToDtoInjective(a: Genre, b: Genre)
    ensures ToDto(a) == ToDto(b) <==> a.id == b.id && a.name == b.name
    ensures ToDto(a) == ToDto(b) <==> a == b
  {
  }

  /** The seed genres map to (1, "Roleplaying") ... (5, "Simulation"), in order. */
  lemma SeedGenreDtos()
    ensures ToDtos(SeedGenres) == [
      GenreDto(1, "Roleplaying"),
      GenreDto(2, "Action"),
      GenreDto(3, "Adventure"),
      GenreDto(4, "Strategy"),
      GenreDto(5, "Simulation")
    ]
  {
  }
}
