/**
 * `StarWarsInfo/Integrations/Swapi/Mappers/FilmMapper.cs`: a SWAPI film
 * mapped to the stored `Film`.  Only the URL is parsed; title and opening
 * crawl are kept verbatim, and the relationship lists are not carried over.
 */
module FilmMapping {
  import opened Wrappers
  import opened SwapiFieldParser
  import opened SwapiMapping

  /** The mapper's properties. */
  datatype FilmMapper = FilmMapper(
    url: string,
    title: string,
    episodeId: int,
    openingCrawl: string,
    director: string,
    producer: string,
    releaseDate: DateOnly,
    created: DateTime,
    edited: DateTime)

  /** The stored film. */
  datatype Film = Film(
    filmId: int,
    title: string,
    episodeId: int,
    openingCrawl: string,
    director: string,
    producer: string,
    releaseDate: DateOnly,
    created: DateTime,
    edited: DateTime)

  /**
   * `new FilmMapper()`: texts empty, episode 0, and `Created` and `Edited`
   * the two readings of `DateTime.Now` taken by their initialisers.
   */
  function Default(createdNow: DateTime, editedNow: DateTime): FilmMapper {
    FilmMapper("", "", 0, "", "", "", DateOnly(0), createdNow, editedNow)
  }

  /** `ToFilm()`: fails exactly when the URL does not parse, and otherwise copies or title-cases every field. */
  function ToFilm(m: FilmMapper, titleCase: TitleCase): (r: Parsed<Film>)
    ensures r.Ok? <==> RawUrlToId(m.url).Ok?
    ensures r.Err? ==> r.error == RawUrlToId(m.url).error
    ensures r.Ok? ==> r.value.filmId == RawUrlToId(m.url).value
    ensures r.Ok? ==> r.value.title == m.title && r.value.openingCrawl == m.openingCrawl
    ensures r.Ok? ==> r.value.episodeId == m.episodeId && r.value.releaseDate == m.releaseDate
    ensures r.Ok? ==> r.value.director == titleCase(m.director) && r.value.producer == titleCase(m.producer)
    ensures r.Ok? ==> r.value.created == m.created && r.value.edited == m.edited
  {
    var filmId :- RawUrlToId(m.url);
    Ok(Film(filmId, m.title, m.episodeId, m.openingCrawl, titleCase(m.director), titleCase(m.producer),
            m.releaseDate, m.created, m.edited))
  }

  /** Title and opening crawl never go through the title-caser: changing it leaves them as they were. */
  lemma TitleAndCrawlVerbatim(m: FilmMapper, titleCase: TitleCase, other: TitleCase)
    requires RawUrlToId(m.url).Ok?
    ensures ToFilm(m, titleCase).value.title == ToFilm(m, other).value.title == m.title
    ensures ToFilm(m, titleCase).value.openingCrawl == ToFilm(m, other).value.openingCrawl == m.openingCrawl
  {
  }

  /** A film with a URL such as `.../films/4/` is stored under id 4; the other fields do not matter. */
  lemma FilmIdFromUrl(m: FilmMapper, titleCase: TitleCase, prefix: string, n: nat, slashes: nat)
    requires m.url == prefix + "/" + Strings.NatToString(n) + Strings.Repeat('/', slashes)
    requires n <= Int32Max
    ensures ToFilm(m, titleCase).Ok? && ToFilm(m, titleCase).value.filmId == n
  {
    var segment := Strings.NatToString(n);
    assert '/' !in segment;
    UrlId(prefix, segment, slashes);
    ParseInt32RoundTrip(n);
  }

  /** A default-constructed mapper throws, whenever it was made. */
  lemma DefaultThrows(titleCase: TitleCase, createdNow: DateTime, editedNow: DateTime)
    ensures ToFilm(Default(createdNow, editedNow), titleCase) == Err(FormatException)
  {
    BlankFormatError("");
  }
}
