/** The game endpoints over the in-memory game list (Controllers/GamesController.cs,
    the route-group variant): list all, get by id, replace by id and delete by id. */
module GamesController {
  import opened Primitives
  import opened Dtos
  import opened RequestValidation

  /** What a handler answers: 200 with a game, 404, 204, or 400 naming the
      request members that failed validation. */
  datatype Outcome = Ok(game: GameDto) | NotFound | NoContent | ValidationProblem(errors: set<Field>)

  /** The list the service starts with. */
  const SeedGames: seq<GameDto> := [
    GameDto(1, "The Legend of Zelda: Breath of the Wild", "Action-adventure", 59.99, Date(2017, 3, 3)),
    GameDto(2, "Super Mario Odyssey", "Platformer", 59.99, Date(2017, 10, 27)),
    GameDto(3, "Mario Kart 8 Deluxe", "Racing", 59.99, Date(2017, 4, 28)),
    GameDto(4, "Super Smash Bros. Ultimate", "Fighting", 59.99, Date(2018, 12, 7)),
    GameDto(5, "Animal Crossing: New Horizons", "Social simulation", 59.99, Date(2020, 3, 20))
  ]

  /** No two games of `s` share an id. */
  predicate DistinctIds(s: seq<GameDto>) {
    forall i, j | 0 <= i < j < |s| :: s[i].id != s[j].id
  }

  /** The index of the first game with id `id`, or -1 when there is none: the
      answer of `List.FindIndex`. */
  function IndexOf(s: seq<GameDto>, id: Int32): (r: int)
    ensures -1 <= r < |s|
    ensures r == -1 <==> forall i | 0 <= i < |s| :: s[i].id != id
    ensures 0 <= r ==> s[r].id == id && forall i | 0 <= i < r :: s[i].id != id
  {
    if s == [] then -1
    else if s[0].id == id then 0
    else
      var k := IndexOf(s[1..], id);
      if k == -1 then -1 else k + 1
  }

  /** `s` with every game of id `id` taken out: what `List.RemoveAll` leaves. */
  function Without(s: seq<GameDto>, id: Int32): seq<GameDto> {
    if s == [] then []
    else (if s[0].id == id then [] else [s[0]]) + Without(s[1..], id)
  }

  /** The game a successful PUT stores: the path id and the request's fields. */
  function Replacement(id: Int32, updatedGame: UpdateGameDto): (g: GameDto)
    requires ValidUpdate(updatedGame)
  {
    GameDto(id, updatedGame.name.value, updatedGame.genre.value, updatedGame.price, updatedGame.releaseDate)
  }

  /** Removal works piecewise, so it keeps the relative order of what remains. */
  lemma {:induction false} WithoutAppend(a: seq<GameDto>, b: seq<GameDto>, id: Int32)
    ensures Without(a + b, id) == Without(a, id) + Without(b, id)
  {
    if a == [] {
      assert a + b == b;
    } else {
      assert (a + b)[1..] == a[1..] + b;
      WithoutAppend(a[1..], b, id);
    }
  }

  /** Removal keeps every game of another id as often as it occurs, and no game
      of id `id`. */
  lemma {:induction false} WithoutCounts(s: seq<GameDto>, id: Int32)
    ensures forall g :: multiset(Without(s, id))[g] == if g.id == id then 0 else multiset(s)[g]
  {
    if s != [] {
      WithoutCounts(s[1..], id);
      assert s == [s[0]] + s[1..];
      assert multiset(s) == multiset([s[0]]) + multiset(s[1..]);
    }
  }

  /** The games left after a removal are exactly the games of `s` with another id. */
  lemma WithoutMembers(s: seq<GameDto>, id: Int32)
    ensures forall g :: g in Without(s, id) <==> g in s && g.id != id
  {
    WithoutCounts(s, id);
    forall g ensures g in Without(s, id) <==> g in s && g.id != id {
      assert g in Without(s, id) <==> multiset(Without(s, id))[g] > 0;
      assert g in s <==> multiset(s)[g] > 0;
    }
  }

  /** Removing an id that no game has changes nothing. */
  lemma {:induction false} WithoutAbsent(s: seq<GameDto>, id: Int32)
    requires IndexOf(s, id) == -1
    ensures Without(s, id) == s
  {
    if s != [] {
      assert IndexOf(s[1..], id) == -1;
      WithoutAbsent(s[1..], id);
      assert s == [s[0]] + s[1..];
    }
  }

  /** After a removal no game of that id is found. */
  lemma WithoutRemovesAll(s: seq<GameDto>, id: Int32)
    ensures IndexOf(Without(s, id), id) == -1
  {
    WithoutMembers(s, id);
    var w := Without(s, id);
    forall i | 0 <= i < |w| ensures w[i].id != id {
      assert w[i] in w;
    }
  }

  /** A second removal of the same id changes nothing. */
  lemma WithoutIdempotent(s: seq<GameDto>, id: Int32)
    ensures Without(Without(s, id), id) == Without(s, id)
  {
    WithoutRemovesAll(s, id);
    WithoutAbsent(Without(s, id), id);
  }

  /** Removal keeps the ids distinct. */
  lemma {:induction false} WithoutDistinct(s: seq<GameDto>, id: Int32)
    requires DistinctIds(s)
    ensures DistinctIds(Without(s, id))
  {
    if s != [] {
      var rest := Without(s[1..], id);
      WithoutDistinct(s[1..], id);
      if s[0].id != id {
        WithoutMembers(s[1..], id);
        forall j | 0 <= j < |rest| ensures rest[j].id != s[0].id {
          assert rest[j] in s[1..];
          var k :| 0 <= k < |s[1..]| && s[1..][k] == rest[j];
          assert s[k + 1] == rest[j];
        }
        var w := [s[0]] + rest;
        forall i, j | 0 <= i < j < |w| ensures w[i].id != w[j].id {
          if i == 0 {
            assert w[j] == rest[j - 1];
          } else {
            assert w[i] == rest[i - 1] && w[j] == rest[j - 1];
          }
        }
      }
    }
  }

  /** Replacing the first game of id `id` by a game of that id: it is then the
      game found for `id`, and ids stay distinct. */
  lemma ReplaceFirstMatch(s: seq<GameDto>, id: Int32, g: GameDto)
    requires 0 <= IndexOf(s, id) && g.id == id
    ensures IndexOf(s[IndexOf(s, id) := g], id) == IndexOf(s, id)
    ensures DistinctIds(s) ==> DistinctIds(s[IndexOf(s, id) := g])
  {
    var k, t := IndexOf(s, id), s[IndexOf(s, id) := g];
    var r := IndexOf(t, id);
    assert t[k].id == id;
  }

  /** The seed list holds five games with ids 1 to 5, in that order. */
  lemma SeedIds()
    ensures |SeedGames| == 5
    ensures forall i | 0 <= i < 5 :: SeedGames[i].id as int == i + 1
    ensures DistinctIds(SeedGames)
  {
  }

  /** The shared game list and the handlers that read and change it. */
  class GameList {
    var games: seq<GameDto>

    constructor ()
      ensures games == SeedGames
    {
      games := SeedGames;
    }

    /** GET /games: the list as it is. */
    method GetAll() returns (all: seq<GameDto>)
      ensures all == games
    {
      all := games;
    }

    /** `List.FindIndex` with the predicate "has id `id`". */
    method FindIndex(id: Int32) returns (index: int)
      ensures index == IndexOf(games, id)
    {
      var i := 0;
      while i < |games|
        invariant 0 <= i <= |games|
        invariant forall j | 0 <= j < i :: games[j].id != id
      {
        if games[i].id == id {
          return i;
        }
        i := i + 1;
      }
      return -1;
    }

    /** GET /games/{id}: the first game with that id, or 404. */
    method GetById(id: Int32) returns (r: Outcome)
      ensures IndexOf(games, id) == -1 ==> r == NotFound
      ensures 0 <= IndexOf(games, id) ==> r == Ok(games[IndexOf(games, id)])
      ensures r.Ok? ==> r.game in games && r.game.id == id
    {
      var index := FindIndex(id);
      if index == -1 {
        r := NotFound;
      } else {
        r := Ok(games[index]);
      }
    }

    /** PUT /games/{id}: an invalid request is answered 400 before the handler
        runs; otherwise an unknown id is answered 404, and a known one has its
        first game replaced and is answered 204. */
    method Put(id: Int32, updatedGame: UpdateGameDto) returns (r: Outcome)
      modifies this
      ensures !ValidUpdate(updatedGame) ==>
        r == ValidationProblem(UpdateViolations(updatedGame)) && games == old(games)
      ensures ValidUpdate(updatedGame) && IndexOf(old(games), id) == -1 ==>
        r == NotFound && games == old(games)
      ensures ValidUpdate(updatedGame) && 0 <= IndexOf(old(games), id) ==>
        r == NoContent && games == old(games)[IndexOf(old(games), id) := Replacement(id, updatedGame)]
      ensures DistinctIds(old(games)) ==> DistinctIds(games)
    {
      if !ValidUpdate(updatedGame) {
        return ValidationProblem(UpdateViolations(updatedGame));
      }
      var index := FindIndex(id);
      if index == -1 {
        return NotFound;
      }
      ReplaceFirstMatch(games, id, Replacement(id, updatedGame));
      games := games[index := Replacement(id, updatedGame)];
      r := NoContent;
    }

    /** DELETE /games/{id}: every game with that id is removed; always 204. */
    method Delete(id: Int32) returns (r: Outcome)
      modifies this
      ensures r == NoContent
      ensures games == Without(old(games), id)
      ensures DistinctIds(old(games)) ==> DistinctIds(games)
    {
      var s := games;
      var kept: seq<GameDto> := [];
      var i := 0;
      while i < |s|
        invariant 0 <= i <= |s|
        invariant kept == Without(s[..i], id)
      {
        assert s[..i + 1] == s[..i] + [s[i]];
        WithoutAppend(s[..i], [s[i]], id);
        if s[i].id != id {
          kept := kept + [s[i]];
        }
        i := i + 1;
      }
      assert s[..i] == s;
      if DistinctIds(s) {
        WithoutDistinct(s, id);
      }
      games := kept;
      r := NoContent;
    }
  }

  /** A client of the handlers: a valid replacement of seed game 1 answers
      NoContent, and a following read gives back the path id and the request's
      fields. */
  method ReplaceThenGetScenario(request: UpdateGameDto) returns (put: Outcome, got: Outcome)
    requires ValidUpdate(request)
    ensures put == NoContent
    ensures got == Ok(GameDto(1, request.name.value, request.genre.value, request.price, request.releaseDate))
  {
    var list := new GameList();
    assert IndexOf(list.games, 1) == 0;
    put := list.Put(1, request);
    assert IndexOf(list.games, 1) == 0;
    got := list.GetById(1);
  }

  /** A client of the handlers: deleting seed game 1 twice answers NoContent
      both times; a read then answers NotFound, and the other four seed games
      remain, in order. */
  method DeleteTwiceScenario() returns (first: Outcome, second: Outcome, gone: Outcome, left: seq<GameDto>)
    ensures first == NoContent && second == NoContent && gone == NotFound
    ensures left == SeedGames[1..]
  {
    var list := new GameList();
    first := list.Delete(1);
    assert SeedGames == [SeedGames[0]] + SeedGames[1..];
    WithoutAbsent(SeedGames[1..], 1);
    assert list.games == SeedGames[1..];
    second := list.Delete(1);
    gone := list.GetById(1);
    left := list.GetAll();
  }
}
