/** The collection schemas: the field constraints of the `Episode` and `Anime` models, as validity
    predicates, and their constructors, which apply declared defaults and reject invalid values. */
module Schemas {
  import opened Wrappers

  /** An episode record as it is stored inside an anime document; the type itself imposes no
      constraint, `ValidEpisode` is the schema's. */
  datatype Episode = Episode(number: int, title: string, videoUrl: Option<string>, language: string)

  const DEFAULT_LANGUAGE := "Hindi"

  /** The episode schema: the number is at least 1. The title is required but may be any text. */
  predicate ValidEpisode(e: Episode) {
    e.number >= 1
  }

  /** Constructing an `Episode`: fails on a number below 1, and defaults `video_url` to `None` and
      `language` to "Hindi". */
  function NewEpisode(number: int, title: string, videoUrl: Arg<Option<string>>, language: Arg<string>)
    : (r: Option<Episode>)
    ensures r.Some? <==> number >= 1
    ensures r.Some? ==> ValidEpisode(r.value) && r.value.number == number && r.value.title == title
    ensures r.Some? && videoUrl.Omitted? ==> r.value.videoUrl == None
    ensures r.Some? && language.Omitted? ==> r.value.language == DEFAULT_LANGUAGE
    ensures r.Some? && videoUrl.Given? ==> r.value.videoUrl == videoUrl.value
    ensures r.Some? && language.Given? ==> r.value.language == language.value
  {
    if number >= 1 then
      Some(Episode(number, title, videoUrl.Or(None), language.Or(DEFAULT_LANGUAGE)))
    else None
  }

  const MIN_YEAR := 1950
  const MAX_YEAR := 2100

  /** The release year is absent or within 1950..2100, both ends included. */
  predicate YearInRange(year: Option<int>) {
    year.None? || MIN_YEAR <= year.value <= MAX_YEAR
  }

  datatype Anime = Anime(
    title: string,
    description: Option<string>,
    coverImage: Option<string>,
    trailerUrl: Option<string>,
    languages: seq<string>,
    genres: seq<string>,
    year: Option<int>,
    episodes: seq<Episode>)

  /** The anime schema: the year is in range and every embedded episode satisfies the episode schema. */
  predicate ValidAnime(a: Anime) {
    YearInRange(a.year) && forall i :: 0 <= i < |a.episodes| ==> ValidEpisode(a.episodes[i])
  }

  /** Constructing an `Anime`: fails when the year is out of range or an embedded episode is invalid;
      omitted fields take their defaults (`None` for the optional texts and the year, ["Hindi"] for
      the languages, no genres and no episodes). */
  function NewAnime(
    title: string,
    description: Arg<Option<string>>,
    coverImage: Arg<Option<string>>,
    trailerUrl: Arg<Option<string>>,
    languages: Arg<seq<string>>,
    genres: Arg<seq<string>>,
    year: Arg<Option<int>>,
    episodes: Arg<seq<Episode>>)
    : (r: Option<Anime>)
    ensures r.Some? <==>
      (year.Omitted? || year.value.None? || MIN_YEAR <= year.value.value <= MAX_YEAR) &&
      (episodes.Given? ==> forall i :: 0 <= i < |episodes.value| ==> episodes.value[i].number >= 1)
    ensures r.Some? ==> ValidAnime(r.value) && r.value.title == title
    ensures r.Some? && languages.Omitted? ==> r.value.languages == [DEFAULT_LANGUAGE]
    ensures r.Some? && genres.Omitted? ==> r.value.genres == []
    ensures r.Some? && episodes.Omitted? ==> r.value.episodes == []
    ensures r.Some? && description.Omitted? ==> r.value.description.None?
    ensures r.Some? && coverImage.Omitted? ==> r.value.coverImage.None?
    ensures r.Some? && trailerUrl.Omitted? ==> r.value.trailerUrl.None?
    ensures r.Some? && year.Omitted? ==> r.value.year.None?
    ensures r.Some? && description.Given? ==> r.value.description == description.value
    ensures r.Some? && coverImage.Given? ==> r.value.coverImage == coverImage.value
    ensures r.Some? && trailerUrl.Given? ==> r.value.trailerUrl == trailerUrl.value
    ensures r.Some? && languages.Given? ==> r.value.languages == languages.value
    ensures r.Some? && genres.Given? ==> r.value.genres == genres.value
    ensures r.Some? && year.Given? ==> r.value.year == year.value
    ensures r.Some? && episodes.Given? ==> r.value.episodes == episodes.value
  {
    var a := Anime(title, description.Or(None), coverImage.Or(None), trailerUrl.Or(None),
                   languages.Or([DEFAULT_LANGUAGE]), genres.Or([]), year.Or(None), episodes.Or([]));
    if ValidAnime(a) then Some(a) else None
  }

  /** An anime built from its title alone is valid and carries every declared default. */
  lemma AnimeDefaults(title: string)
    ensures NewAnime(title, Omitted, Omitted, Omitted, Omitted, Omitted, Omitted, Omitted)
         == Some(Anime(title, None, None, None, ["Hindi"], [], None, []))
  {
  }

  /** A valid anime embeds only valid episodes, so each of them passes the episode constructor. */
  lemma ValidAnimeEpisodes(a: Anime, i: nat)
    requires ValidAnime(a) && i < |a.episodes|
    ensures var e := a.episodes[i];
      NewEpisode(e.number, e.title, Given(e.videoUrl), Given(e.language)) == Some(e)
  {
  }
}
