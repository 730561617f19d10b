/** The create and update request records (DTO/CreateGameDto.cs, DTO/UpdateGameDto.cs)
    and the Boolean predicate their data annotations amount to. Requests arrive
    as JSON, so their string fields may be missing (null): they are `Option<string>`.

    Both records declare the genre as a name, `Genre: string`, and it is that
    field that is validated here and that PUT stores. The mappers read a
    `GenreId` instead; see module GameMapping. */
module RequestValidation {
  import opened Primitives

  datatype CreateGameDto = CreateGameDto(name: Option<string>, genre: Option<string>, price: Price, releaseDate: Date)

  datatype UpdateGameDto = UpdateGameDto(name: Option<string>, genre: Option<string>, price: Price, releaseDate: Date)

  /** The request members a validation failure can name. */
  datatype Field = NameField | GenreField | PriceField

  /** The characters `char.IsWhiteSpace` accepts: the Unicode space, line and
      paragraph separators, the controls U+0009 to U+000D, and U+0085. */
  predicate IsWhiteSpace(c: char) {
    ('\U{9}' <= c <= '\U{D}') || c == '\U{20}' || c == '\U{85}' || c == '\U{A0}' || c == '\U{1680}'
    || ('\U{2000}' <= c <= '\U{200A}') || c == '\U{2028}' || c == '\U{2029}' || c == '\U{202F}'
    || c == '\U{205F}' || c == '\U{3000}'
  }

  /** Empty or made of white space only. */
  predicate Blank(s: string) {
    forall i | 0 <= i < |s| :: IsWhiteSpace(s[i])
  }

  /** The number of UTF-16 code units of `c`: characters outside the Basic
      Multilingual Plane take a surrogate pair. */
  function Utf16Units(c: char): nat {
    if c as int < 0x1_0000 then 1 else 2
  }

  /** The length of `s` as the service measures strings, in UTF-16 code units. */
  function Utf16Length(s: string): nat {
    if s == [] then 0 else Utf16Units(s[0]) + Utf16Length(s[1..])
  }

  /** Every character of `s` lies in the Basic Multilingual Plane. */
  predicate Bmp(s: string) {
    forall i | 0 <= i < |s| :: s[i] as int < 0x1_0000
  }

  /** `[Required]` on a string: present, and not empty or white space only. */
  predicate Required(s: Option<string>) {
    s.Some? && !Blank(s.value)
  }

  /** `[StringLength(max)]`: a missing string passes; a present one has at most
      `max` UTF-16 code units. */
  predicate StringLength(s: Option<string>, max: nat) {
    s.None? || Utf16Length(s.value) <= max
  }

  /** `[Range(lo, hi)]` on a decimal: both bounds inclusive. */
  predicate Range(p: Price, lo: Price, hi: Price) {
    lo <= p <= hi
  }

  /** The annotations of CreateGameDto: Name required and at most 50, Genre
      required and at most 20, Price in [1, 100]; ReleaseDate unconstrained. */
  predicate ValidCreate(r: CreateGameDto) {
    Required(r.name) && StringLength(r.name, 50)
    && Required(r.genre) && StringLength(r.genre, 20)
    && Range(r.price, 1.0, 100.0)
  }

  /** The annotations of UpdateGameDto, declared separately from the create ones. */
  predicate ValidUpdate(r: UpdateGameDto) {
    Required(r.name) && StringLength(r.name, 50)
    && Required(r.genre) && StringLength(r.genre, 20)
    && Range(r.price, 1.0, 100.0)
  }

  /** The members a rejected create request is reported against. */
  function CreateViolations(r: CreateGameDto): (v: set<Field>)
    ensures v == {} <==> ValidCreate(r)
  {
    (if Required(r.name) && StringLength(r.name, 50) then {} else {NameField})
    + (if Required(r.genre) && StringLength(r.genre, 20) then {} else {GenreField})
    + (if Range(r.price, 1.0, 100.0) then {} else {PriceField})
  }

  /** The members a rejected update request is reported against. */
  function UpdateViolations(r: UpdateGameDto): (v: set<Field>)
    ensures v == {} <==> ValidUpdate(r)
  {
    (if Required(r.name) && StringLength(r.name, 50) then {} else {NameField})
    + (if Required(r.genre) && StringLength(r.genre, 20) then {} else {GenreField})
    + (if Range(r.price, 1.0, 100.0) then {} else {PriceField})
  }

  /** For a string of Basic Multilingual Plane characters the UTF-16 length is
      the number of characters. */
  lemma {:induction false} Utf16LengthBmp(s: string)
    requires Bmp(s)
    ensures Utf16Length(s) == |s|
  {
    if s != [] {
      assert Bmp(s[1..]) by {
        forall i | 0 <= i < |s[1..]| ensures s[1..][i] as int < 0x1_0000 {
          assert s[1..][i] == s[i + 1];
        }
      }
      Utf16LengthBmp(s[1..]);
    }
  }

  /** Each character counts once or twice. */
  lemma {:induction false} Utf16LengthBounds(s: string)
    ensures |s| <= Utf16Length(s) <= 2 * |s|
  {
    if s != [] {
      Utf16LengthBounds(s[1..]);
    }
  }

  /** A missing, empty or blank Name rejects a create request. */
  lemma CreateBlankNameRejected(r: CreateGameDto)
    requires r.name.None? || Blank(r.name.value)
    ensures !ValidCreate(r) && NameField in CreateViolations(r)
  {
  }

  /** With the other fields valid, a Name of Basic Multilingual Plane characters
      is accepted up to 50 characters and rejected from 51 on. */
  lemma CreateNameLimit(r: CreateGameDto)
    requires r.name.Some? && !Blank(r.name.value) && Bmp(r.name.value)
    requires Required(r.genre) && StringLength(r.genre, 20) && Range(r.price, 1.0, 100.0)
    ensures ValidCreate(r) <==> |r.name.value| <= 50
  {
    Utf16LengthBmp(r.name.value);
  }

  /** A missing or blank Genre rejects a create request; with the other fields
      valid, a Genre of Basic Multilingual Plane characters is accepted up to 20
      characters and rejected from 21 on. */
  lemma CreateGenreLimit(r: CreateGameDto)
    requires Required(r.name) && StringLength(r.name, 50) && Range(r.price, 1.0, 100.0)
    ensures (r.genre.None? || Blank(r.genre.value)) ==> !ValidCreate(r)
    ensures r.genre.Some? && !Blank(r.genre.value) && Bmp(r.genre.value)
            ==> (ValidCreate(r) <==> |r.genre.value| <= 20)
  {
    if r.genre.Some? && Bmp(r.genre.value) {
      Utf16LengthBmp(r.genre.value);
    }
  }

  /** With the other fields valid, a create request is accepted exactly when
      1 <= Price <= 100: 1 and 100 pass, 0 and 101 fail. */
  lemma CreatePriceBounds(r: CreateGameDto)
    requires Required(r.name) && StringLength(r.name, 50)
    requires Required(r.genre) && StringLength(r.genre, 20)
    ensures ValidCreate(r) <==> 1.0 <= r.price <= 100.0
    ensures ValidCreate(r.(price := 1.0)) && ValidCreate(r.(price := 100.0))
    ensures !ValidCreate(r.(price := 0.0)) && !ValidCreate(r.(price := 101.0))
  {
  }

  /** The release date takes no part in validation. */
  lemma CreateReleaseDateUnconstrained(r: CreateGameDto, d: Date)
    ensures ValidCreate(r.(releaseDate := d)) == ValidCreate(r)
    ensures CreateViolations(r.(releaseDate := d)) == CreateViolations(r)
  {
  }

  /** A create request is valid exactly when no member is reported, and each
      member is reported exactly when its own annotations fail. */
  lemma CreateViolationsPerField(r: CreateGameDto)
    ensures NameField in CreateViolations(r) <==> !(Required(r.name) && StringLength(r.name, 50))
    ensures GenreField in CreateViolations(r) <==> !(Required(r.genre) && StringLength(r.genre, 20))
    ensures PriceField in CreateViolations(r) <==> !(1.0 <= r.price <= 100.0)
    ensures ValidCreate(r) <==> CreateViolations(r) == {}
  {
  }

  /** A create request whose Name and Genre are non-blank Basic Multilingual
      Plane strings within their limits and whose Price lies in [1, 100] is valid. */
  lemma CreateAccepted(r: CreateGameDto)
    requires r.name.Some? && !Blank(r.name.value) && Bmp(r.name.value) && |r.name.value| <= 50
    requires r.genre.Some? && !Blank(r.genre.value) && Bmp(r.genre.value) && |r.genre.value| <= 20
    requires 1.0 <= r.price <= 100.0
    ensures ValidCreate(r)
  {
    Utf16LengthBmp(r.name.value);
    Utf16LengthBmp(r.genre.value);
  }

  /** The update annotations are the create annotations: for the same field
      values both accept or both reject, naming the same members. */
  lemma UpdateMatchesCreate(name: Option<string>, genre: Option<string>, price: Price, date: Date)
    ensures ValidUpdate(UpdateGameDto(name, genre, price, date)) == ValidCreate(CreateGameDto(name, genre, price, date))
    ensures UpdateViolations(UpdateGameDto(name, genre, price, date)) == CreateViolations(CreateGameDto(name, genre, price, date))
  {
  }

  /** A missing, empty or blank Name rejects an update request. */
  lemma UpdateBlankNameRejected(r: UpdateGameDto)
    requires r.name.None? || Blank(r.name.value)
    ensures !ValidUpdate(r) && NameField in UpdateViolations(r)
  {
  }

  /** With the other fields valid, an update Name of Basic Multilingual Plane
      characters is accepted up to 50 characters and rejected from 51 on. */
  lemma UpdateNameLimit(r: UpdateGameDto)
    requires r.name.Some? && !Blank(r.name.value) && Bmp(r.name.value)
    requires Required(r.genre) && StringLength(r.genre, 20) && Range(r.price, 1.0, 100.0)
    ensures ValidUpdate(r) <==> |r.name.value| <= 50
  {
    Utf16LengthBmp(r.name.value);
  }

  /** The update Genre is required and limited to 20 characters. */
  lemma UpdateGenreLimit(r: UpdateGameDto)
    requires Required(r.name) && StringLength(r.name, 50) && Range(r.price, 1.0, 100.0)
    ensures (r.genre.None? || Blank(r.genre.value)) ==> !ValidUpdate(r)
    ensures r.genre.Some? && !Blank(r.genre.value) && Bmp(r.genre.value)
            ==> (ValidUpdate(r) <==> |r.genre.value| <= 20)
  {
    if r.genre.Some? && Bmp(r.genre.value) {
      Utf16LengthBmp(r.genre.value);
    }
  }

  /** With the other fields valid, an update request is accepted exactly when
      its Price lies in [1, 100]. */
  lemma UpdatePriceBounds(r: UpdateGameDto)
    requires Required(r.name) && StringLength(r.name, 50)
    requires Required(r.genre) && StringLength(r.genre, 20)
    ensures ValidUpdate(r) <==> 1.0 <= r.price <= 100.0
  {
  }

  /** The update counterpart of CreateAccepted. */
  lemma UpdateAccepted(r: UpdateGameDto)
    requires r.name.Some? && !Blank(r.name.value) && Bmp(r.name.value) && |r.name.value| <= 50
    requires r.genre.Some? && !Blank(r.genre.value) && Bmp(r.genre.value) && |r.genre.value| <= 20
    requires 1.0 <= r.price <= 100.0
    ensures ValidUpdate(r)
  {
    Utf16LengthBmp(r.name.value);
    Utf16LengthBmp(r.genre.value);
  }

  /** The update release date takes no part in validation. */
  lemma UpdateReleaseDateUnconstrained(r: UpdateGameDto, d: Date)
    ensures ValidUpdate(r.(releaseDate := d)) == ValidUpdate(r)
  {
  }

  /** An example update request, ("Elden Ring", "Roleplaying", 59.99, 2022-02-25),
      passes the update checks; so the requires of
      GamesController.ReplaceThenGetScenario can be met. */
  lemma EldenRingRequestValid()
    ensures ValidUpdate(UpdateGameDto(Some("Elden Ring"), Some("Roleplaying"), 59.99, Date(2022, 2, 25)))
  {
    assert !IsWhiteSpace("Elden Ring"[0]) && !IsWhiteSpace("Roleplaying"[0]);
    UpdateAccepted(UpdateGameDto(Some("Elden Ring"), Some("Roleplaying"), 59.99, Date(2022, 2, 25)));
  }
}
