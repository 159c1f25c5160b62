/** The catalog endpoints over the `anime` collection: request models and their defaults, listing
    with filters, creation, lookup, appending and listing episodes, and seeding. */
module AnimeApi {
  import opened Wrappers
  import opened Text
  import opened ObjectIds
  import opened Schemas
  import opened Store

  /** The creation request body after validation; every optional field defaults to `None`. */
  datatype AnimeCreate = AnimeCreate(
    title: string,
    description: Option<string>,
    coverImage: Option<string>,
    trailerUrl: Option<string>,
    languages: Option<seq<string>>,
    genres: Option<seq<string>>,
    year: Option<int>)

  /** Constructing an `AnimeCreate`: no constraint on any field, and `None` for every omitted one. */
  function NewAnimeCreate(
    title: string,
    description: Arg<Option<string>>,
    coverImage: Arg<Option<string>>,
    trailerUrl: Arg<Option<string>>,
    languages: Arg<Option<seq<string>>>,
    genres: Arg<Option<seq<string>>>,
    year: Arg<Option<int>>)
    : (p: AnimeCreate)
    ensures p.title == title
    ensures description.Omitted? ==> p.description.None?
    ensures coverImage.Omitted? ==> p.coverImage.None?
    ensures trailerUrl.Omitted? ==> p.trailerUrl.None?
    ensures languages.Omitted? ==> p.languages.None?
    ensures genres.Omitted? ==> p.genres.None?
    ensures year.Omitted? ==> p.year.None?
    ensures description.Given? ==> p.description == description.value
    ensures coverImage.Given? ==> p.coverImage == coverImage.value
    ensures trailerUrl.Given? ==> p.trailerUrl == trailerUrl.value
    ensures languages.Given? ==> p.languages == languages.value
    ensures genres.Given? ==> p.genres == genres.value
    ensures year.Given? ==> p.year == year.value
  {
    AnimeCreate(title, description.Or(None), coverImage.Or(None), trailerUrl.Or(None),
                languages.Or(None), genres.Or(None), year.Or(None))
  }

  /** Constructing an `EpisodeCreate`: any integer is accepted as the number; `video_url` defaults
      to `None` and `language` to "Hindi". */
  function NewEpisodeCreate(number: int, title: string, videoUrl: Arg<Option<string>>, language: Arg<string>)
    : (e: Episode)
    ensures e.number == number && e.title == title
    ensures videoUrl.Omitted? ==> e.videoUrl.None?
    ensures language.Omitted? ==> e.language == DEFAULT_LANGUAGE
    ensures videoUrl.Given? ==> e.videoUrl == videoUrl.value
    ensures language.Given? ==> e.language == language.value
  {
    Episode(number, title, videoUrl.Or(None), language.Or(DEFAULT_LANGUAGE))
  }

  /** The request model and the schema build the same episode, except that the schema alone
      refuses a number below 1. */
  lemma EpisodeCreateUnbounded(number: int, title: string, videoUrl: Arg<Option<string>>, language: Arg<string>)
    ensures NewEpisode(number, title, videoUrl, language)
         == if number >= 1 then Some(NewEpisodeCreate(number, title, videoUrl, language)) else None
  {
  }

  /** The dictionary `create_anime` builds before inserting it: `Omitted` marks a key not present. */
  datatype Draft = Draft(
    title: string,
    description: Option<string>,
    coverImage: Option<string>,
    trailerUrl: Option<string>,
    languages: Arg<Option<seq<string>>>,
    genres: Arg<Option<seq<string>>>,
    year: Option<int>,
    episodes: Arg<seq<Episode>>)

  /** `model_dump()`: a key for every declared field, null ones included. `AnimeCreate` declares no
      `episodes` field, so that key is absent. */
  function ModelDump(p: AnimeCreate): (d: Draft)
    ensures d.languages == Given(p.languages) && d.genres == Given(p.genres) && d.episodes == Omitted
  {
    Draft(p.title, p.description, p.coverImage, p.trailerUrl, Given(p.languages), Given(p.genres), p.year, Omitted)
  }

  /** `dict.setdefault`: adds the key with the default only when the key is absent, and never
      replaces the value of a key that is present. */
  function SetDefault<T>(a: Arg<T>, default: T): (r: Arg<T>)
    ensures r.Given?
    ensures a.Given? ==> r == a
  {
    if a.Omitted? then Given(default) else a
  }

  /** The document `create_anime` stores for a request: its fields verbatim, no episodes. */
  function CreatedBody(p: AnimeCreate): Body {
    Body(p.title, p.description, p.coverImage, p.trailerUrl, p.languages, p.genres, p.year, [], false)
  }

  /** A created document satisfies the schema exactly when both label lists were supplied and the
      year is in range: omitted lists are stored as null, not as the schema's defaults. */
  lemma CreatedConforms(p: AnimeCreate)
    ensures Conforms(CreatedBody(p)) <==> p.languages.Some? && p.genres.Some? && YearInRange(p.year)
  {
  }

  /** For a request giving only a title, the stored document has null label lists and fails the
      schema, while the schema's own constructor would have filled in ["Hindi"] and []. */
  lemma OmittedLabelsStoredAsNull(title: string)
    ensures var b := CreatedBody(NewAnimeCreate(title, Omitted, Omitted, Omitted, Omitted, Omitted, Omitted));
      b.languages.None? && b.genres.None? && !Conforms(b)
    ensures var a := NewAnime(title, Omitted, Omitted, Omitted, Omitted, Omitted, Omitted, Omitted);
      a.Some? && a.value.languages == ["Hindi"] && a.value.genres == []
  {
    AnimeDefaults(title);
  }

  /** A document as the endpoints return it: the identifier rendered as text. */
  datatype AnimeView = AnimeView(id: string, body: Body)

  function View(d: Doc): (v: AnimeView)
    ensures Decode(v.id) == Some(d.id) && v.body == d.body
  {
    DecodeRender(d.id);
    AnimeView(Render(d.id), d.body)
  }

  /** Python truthiness of an optional query parameter: `None` and "" both count as absent. */
  predicate Present(o: Option<string>) {
    o.Some? && o.value != ""
  }

  /** The query `list_anime` sends for its three parameters: a condition for each present one. */
  function FilterOf(q: Option<string>, language: Option<string>, genre: Option<string>): (f: Filter)
    ensures f == NO_FILTER <==> !Present(q) && !Present(language) && !Present(genre)
    ensures f.title.Some? ==> Present(q) && f.title == q
    ensures f.language.Some? ==> Present(language) && f.language == language
    ensures f.genre.Some? ==> Present(genre) && f.genre == genre
  {
    Filter(if Present(q) then q else None,
           if Present(language) then language else None,
           if Present(genre) then genre else None)
  }

  /** Adding a present parameter narrows the listing: the result is the old result filtered again. */
  lemma ParameterNarrows(docs: seq<Doc>, q: Option<string>, language: Option<string>, genre: Option<string>)
    ensures Select(docs, FilterOf(q, language, genre))
         == Select(Select(docs, FilterOf(q, None, genre)), FilterOf(None, language, None))
    ensures Select(docs, FilterOf(q, language, genre))
         == Select(Select(docs, FilterOf(None, language, genre)), FilterOf(q, None, None))
  {
    SelectThenSelect(docs, FilterOf(q, language, genre), FilterOf(q, None, genre), FilterOf(None, language, None));
    SelectThenSelect(docs, FilterOf(q, language, genre), FilterOf(None, language, genre), FilterOf(q, None, None));
  }

  /** What `list_anime` returns for a collection and its three parameters. */
  function Listing(docs: seq<Doc>, q: Option<string>, language: Option<string>, genre: Option<string>)
    : (r: seq<AnimeView>)
    ensures |r| <= |docs|
  {
    var found := Select(docs, FilterOf(q, language, genre));
    seq(|found|, k requires 0 <= k < |found| => View(found[k]))
  }

  /** Every listed document meets each present parameter: its title contains the query ignoring
      case, its label lists hold the requested labels, and its rendered identifier decodes to the
      identifier of a stored document with the same fields. */
  lemma ListingSound(docs: seq<Doc>, q: Option<string>, language: Option<string>, genre: Option<string>, k: nat)
    requires k < |Listing(docs, q, language, genre)|
    ensures var v := Listing(docs, q, language, genre)[k];
      (Present(q) ==> ContainsIgnoringCase(v.body.title, q.value)) &&
      (Present(language) ==> HasLabel(v.body.languages, language.value)) &&
      (Present(genre) ==> HasLabel(v.body.genres, genre.value)) &&
      exists i :: 0 <= i < |docs| && Decode(v.id) == Some(docs[i].id) && v.body == docs[i].body
  {
    var found := Select(docs, FilterOf(q, language, genre));
    assert found[k] in found;
    var i :| 0 <= i < |docs| && docs[i] == found[k];
    DecodeRender(found[k].id);
  }

  /** Every stored document that meets all present parameters is listed. */
  lemma ListingComplete(docs: seq<Doc>, q: Option<string>, language: Option<string>, genre: Option<string>, i: nat)
    requires i < |docs| && Matches(FilterOf(q, language, genre), docs[i])
    ensures View(docs[i]) in Listing(docs, q, language, genre)
  {
    var found := Select(docs, FilterOf(q, language, genre));
    assert docs[i] in docs;
    var k :| 0 <= k < |found| && found[k] == docs[i];
    assert Listing(docs, q, language, genre)[k] == View(docs[i]);
  }

  /** With every parameter absent or empty the listing returns the whole collection, in order. */
  lemma ListAllWhenUnfiltered(docs: seq<Doc>, q: Option<string>, language: Option<string>, genre: Option<string>)
    requires !Present(q) && !Present(language) && !Present(genre)
    ensures var r := Listing(docs, q, language, genre);
      |r| == |docs| && forall k :: 0 <= k < |docs| ==> r[k] == View(docs[k])
  {
    SelectNoFilter(docs);
  }

  /** A document whose language (genre) list is null is never listed under a language (genre). */
  lemma NullLabelsNeverMatch(d: Doc, q: Option<string>, language: Option<string>, genre: Option<string>)
    requires (Present(language) && d.body.languages.None?) || (Present(genre) && d.body.genres.None?)
    ensures !Matches(FilterOf(q, language, genre), d)
  {
  }

  /** The position of the document an external identifier designates: the identifier must decode
      and some document must carry it. */
  function Target(docs: seq<Doc>, animeId: string): (r: Option<nat>)
    ensures r.Some? <==>
      Decode(animeId).Some? && exists i :: 0 <= i < |docs| && docs[i].id == Decode(animeId).value
    ensures r.Some? ==> r.value < |docs| && Decode(animeId) == Some(docs[r.value].id)
  {
    match Decode(animeId)
    case None => None
    case Some(id) => IndexOf(docs, id)
  }

  /** A text that is not 24 hexadecimal digits designates no document, whatever the collection. */
  lemma MalformedIdMatchesNothing(docs: seq<Doc>, animeId: string)
    requires !IsWellFormed(animeId)
    ensures Target(docs, animeId).None?
  {
  }

  /** The identifier of a document just inserted designates that document. */
  lemma CreatedIsFound(docs: seq<Doc>, n: Oid, b: Body)
    requires WellFormed(docs, n)
    ensures Target(docs + [Doc(n, b)], Render(n)) == Some(|docs|)
  {
    DecodeRender(n);
    var all := docs + [Doc(n, b)];
    assert all[|docs|].id == n;
    var k := IndexOf(all, n);
    assert k.Some?;
  }

  /** The document after `$push` of one episode and `$set` of `updated_at` to null. */
  function WithEpisode(d: Doc, e: Episode): (r: Doc)
    ensures r.id == d.id
    ensures |r.body.episodes| == |d.body.episodes| + 1
    ensures r.body.episodes[..|d.body.episodes|] == d.body.episodes
    ensures r.body.episodes[|d.body.episodes|] == e
    ensures r.body.updatedAtNull
    ensures r.body == d.body.(episodes := r.body.episodes, updatedAtNull := true)
  {
    Doc(d.id, d.body.(episodes := d.body.episodes + [e], updatedAtNull := true))
  }

  /** Appending one episode keeps a conforming document conforming exactly when the episode
      satisfies the episode schema, which the request model does not check. */
  lemma AppendKeepsSchemaIff(d: Doc, e: Episode)
    requires Conforms(d.body)
    ensures Conforms(WithEpisode(d, e).body) <==> ValidEpisode(e)
  {
    var n := |d.body.episodes|;
    var es := WithEpisode(d, e).body.episodes;
    assert es[n] == e;
    assert forall i :: 0 <= i < n ==> es[i] == d.body.episodes[i];
  }

  /** The collection after `add_episode(animeId, e)`. */
  function AddEpisodeStep(docs: seq<Doc>, animeId: string, e: Episode): (r: seq<Doc>)
    ensures |r| == |docs|
    ensures forall i :: 0 <= i < |docs| ==> r[i].id == docs[i].id
    ensures Target(docs, animeId).None? ==> r == docs
    ensures Target(docs, animeId).Some? ==>
      var k := Target(docs, animeId).value;
      r[k] == WithEpisode(docs[k], e) && forall i :: 0 <= i < |docs| && i != k ==> r[i] == docs[i]
    ensures Target(r, animeId) == Target(docs, animeId)
  {
    match Target(docs, animeId)
    case None => docs
    case Some(k) =>
      var r := docs[k := WithEpisode(docs[k], e)];
      IndexOfSameIds(docs, r, Decode(animeId).value);
      r
  }

  /** The collection after appending the episodes `es` one call after another. */
  function AddEpisodes(docs: seq<Doc>, animeId: string, es: seq<Episode>): seq<Doc>
    decreases |es|
  {
    if es == [] then docs else AddEpisodes(AddEpisodeStep(docs, animeId, es[0]), animeId, es[1..])
  }

  /** Appending episodes keeps the number of documents and which one an identifier designates. */
  lemma {:induction false} AddEpisodesKeepTarget(docs: seq<Doc>, animeId: string, es: seq<Episode>)
    ensures |AddEpisodes(docs, animeId, es)| == |docs|
    ensures Target(AddEpisodes(docs, animeId, es), animeId) == Target(docs, animeId)
    decreases |es|
  {
    if es != [] {
      AddEpisodesKeepTarget(AddEpisodeStep(docs, animeId, es[0]), animeId, es[1..]);
    }
  }

  /** Appending episodes one call after another leaves them in call order after the earlier ones,
      and changes no other document. */
  lemma {:induction false} AddEpisodesInOrder(docs: seq<Doc>, animeId: string, es: seq<Episode>, k: nat)
    requires Target(docs, animeId) == Some(k)
    ensures |AddEpisodes(docs, animeId, es)| == |docs|
    ensures AddEpisodes(docs, animeId, es)[k].body.episodes == docs[k].body.episodes + es
    ensures forall i :: 0 <= i < |docs| && i != k ==> AddEpisodes(docs, animeId, es)[i] == docs[i]
    decreases |es|
  {
    AddEpisodesKeepTarget(docs, animeId, es);
    if es != [] {
      var next := AddEpisodeStep(docs, animeId, es[0]);
      AddEpisodesInOrder(next, animeId, es[1..], k);
      assert next[k].body.episodes == docs[k].body.episodes + [es[0]];
      assert es == [es[0]] + es[1..];
    }
  }

  /** The two documents the seed endpoint inserts. */
  const SAMPLES: seq<Body> := [
    Body(
      "Naruto (Hindi Dub)",
      Some("A young ninja seeks recognition and dreams of becoming the Hokage."),
      Some("https://i.imgur.com/8Km9tLL.jpeg"),
      Some("https://www.youtube.com/embed/-G9BqkgZXRA"),
      Some(["Hindi", "Japanese"]),
      Some(["Action", "Adventure"]),
      Some(2002),
      [Episode(1, "Enter: Naruto Uzumaki!", Some("https://www.youtube.com/embed/klqEo3v7u5M"), "Hindi"),
       Episode(2, "My Name is Konohamaru!", Some("https://www.youtube.com/embed/0mGZ2lN1tS8"), "Hindi")],
      false),
    Body(
      "Demon Slayer (Hindi)",
      Some("Tanjiro Kamado becomes a demon slayer after his family is slaughtered."),
      Some("https://i.imgur.com/2yaf2wb.jpeg"),
      Some("https://www.youtube.com/embed/VQGCKyvzIM4"),
      Some(["Hindi", "Japanese"]),
      Some(["Action", "Dark Fantasy"]),
      Some(2019),
      [Episode(1, "Cruelty", Some("https://www.youtube.com/embed/vLFu4Hjz-FM"), "Hindi")],
      false)
  ]

  const ALREADY_SEEDED := "Collection already has data"

  /** Both sample documents satisfy the anime schema. */
  lemma SamplesConform()
    ensures |SAMPLES| == 2 && forall i :: 0 <= i < |SAMPLES| ==> Conforms(SAMPLES[i])
  {
  }

  /** The query "naruto" matches the first sample's title "Naruto (Hindi Dub)", ignoring case. */
  lemma NarutoQueryMatches(id: Oid)
    ensures Matches(FilterOf(Some("naruto"), None, None), Doc(id, SAMPLES[0]))
  {
    assert Lower(SAMPLES[0].title[..6]) == Lower("naruto");
  }

  /** The outcome of an endpoint that takes an identifier: a value, or the 400 "Invalid ID" reply. */
  datatype Reply<T> = Ok(value: T) | InvalidId

  /** The seed endpoint's reply: the number inserted, and a message when nothing was. */
  datatype SeedReport = SeedReport(inserted: nat, message: Option<string>)

  /** The `anime` collection and the store's source of fresh identifiers. */
  class Catalog {
    var docs: seq<Doc>
    var nextId: nat

    ghost predicate Valid()
      reads this
    {
      WellFormed(docs, nextId)
    }

    /** An empty collection. */
    constructor ()
      ensures Valid() && docs == [] && nextId == 0
    {
      docs, nextId := [], 0;
    }

    /** `insert_one`: stores the fields verbatim under a fresh identifier, which it returns. */
    method Insert(b: Body) returns (id: Oid)
      requires Valid() && nextId < ID_SPACE
      modifies this
      ensures Valid()
      ensures id == old(nextId) && nextId == old(nextId) + 1
      ensures docs == old(docs) + [Doc(id, b)]
    {
      id := nextId;
      docs := docs + [Doc(id, b)];
      nextId := nextId + 1;
    }

    /** `insert_many`: inserts the documents in order, each under the next fresh identifier. */
    method InsertMany(bs: seq<Body>) returns (ids: seq<Oid>)
      requires Valid() && nextId + |bs| <= ID_SPACE
      modifies this
      ensures Valid()
      ensures |ids| == |bs| && nextId == old(nextId) + |bs|
      ensures |docs| == |old(docs)| + |bs| && docs[..|old(docs)|] == old(docs)
      ensures forall i :: 0 <= i < |bs| ==> ids[i] == old(nextId) + i && docs[|old(docs)| + i] == Doc(ids[i], bs[i])
    {
      ids := [];
      var i := 0;
      while i < |bs|
        invariant 0 <= i <= |bs|
        invariant Valid()
        invariant |ids| == i && nextId == old(nextId) + i
        invariant |docs| == |old(docs)| + i && docs[..|old(docs)|] == old(docs)
        invariant forall j :: 0 <= j < i ==> ids[j] == old(nextId) + j && docs[|old(docs)| + j] == Doc(ids[j], bs[j])
      {
        var id := Insert(bs[i]);
        ids := ids + [id];
        i := i + 1;
      }
    }

    /** `list_anime`: the documents meeting every present parameter, in insertion order, each with
        its identifier rendered as text. The collection is not changed. */
    method ListAnime(q: Option<string>, language: Option<string>, genre: Option<string>)
      returns (items: seq<AnimeView>)
      requires Present(q) ==> IsLiteralPattern(q.value)
      ensures items == Listing(docs, q, language, genre)
    {
      var filter := NO_FILTER;
      if Present(q) {
        filter := filter.(title := q);
      }
      if Present(language) {
        filter := filter.(language := language);
      }
      if Present(genre) {
        filter := filter.(genre := genre);
      }
      var found := Select(docs, filter);
      items := [];
      var i := 0;
      while i < |found|
        invariant 0 <= i <= |found|
        invariant |items| == i
        invariant forall k :: 0 <= k < i ==> items[k] == View(found[k])
      {
        items := items + [View(found[i])];
        i := i + 1;
      }
    }

    /** `create_anime`: inserts one document under a fresh identifier and returns that identifier as
        text. The document carries the request's fields verbatim, including null label lists (the
        `setdefault` calls find the keys present), and no episodes. */
    method CreateAnime(payload: AnimeCreate) returns (id: string)
      requires Valid() && nextId < ID_SPACE
      modifies this
      ensures Valid() && nextId == old(nextId) + 1
      ensures docs == old(docs) + [Doc(old(nextId), CreatedBody(payload))]
      ensures forall i :: 0 <= i < |old(docs)| ==> old(docs)[i].id != old(nextId)
      ensures id == Render(old(nextId)) && Decode(id) == Some(old(nextId))
    {
      var data := ModelDump(payload);
      data := data.(languages := SetDefault(data.languages, Some([DEFAULT_LANGUAGE])));
      data := data.(genres := SetDefault(data.genres, Some([])));
      data := data.(episodes := SetDefault(data.episodes, []));
      var body := Body(data.title, data.description, data.coverImage, data.trailerUrl,
                       data.languages.value, data.genres.value, data.year, data.episodes.value, false);
      var newId := Insert(body);
      id := Render(newId);
      DecodeRender(newId);
    }

    /** `get_anime`: the designated document with its identifier as text, which is the request's
        identifier lower-cased; "Invalid ID" both for a malformed identifier and for one no document
        carries (the 404 raised inside the `try` is caught and replaced). */
    method GetAnime(animeId: string) returns (r: Reply<AnimeView>)
      ensures r.Ok? <==> Target(docs, animeId).Some?
      ensures r.Ok? ==> r.value == View(docs[Target(docs, animeId).value])
      ensures r.Ok? ==> r.value.id == Lower(animeId)
    {
      var oid := Decode(animeId);
      if oid.None? {
        return InvalidId;
      }
      var found := IndexOf(docs, oid.value);
      if found.None? {
        return InvalidId;
      }
      RenderDecode(animeId);
      r := Ok(View(docs[found.value]));
    }

    /** `add_episode`: appends the episode, unchecked against the episode schema, to the designated
        document and sets its `updated_at` to null; "Invalid ID", with nothing changed, for a
        malformed identifier or one no document carries. */
    method AddEpisode(animeId: string, payload: Episode) returns (r: Reply<()>)
      requires Valid()
      modifies this
      ensures Valid() && nextId == old(nextId)
      ensures r.Ok? <==> Target(old(docs), animeId).Some?
      ensures docs == AddEpisodeStep(old(docs), animeId, payload)
    {
      var oid := Decode(animeId);
      if oid.None? {
        return InvalidId;
      }
      var found := IndexOf(docs, oid.value);
      if found.None? {
        return InvalidId;
      }
      docs := docs[found.value := WithEpisode(docs[found.value], payload)];
      r := Ok(());
    }

    /** `list_episodes`: the designated document's episodes; "Invalid ID" for a malformed identifier
        or one no document carries. */
    method ListEpisodes(animeId: string) returns (r: Reply<seq<Episode>>)
      ensures r.Ok? <==> Target(docs, animeId).Some?
      ensures r.Ok? ==> r.value == docs[Target(docs, animeId).value].body.episodes
    {
      var oid := Decode(animeId);
      if oid.None? {
        return InvalidId;
      }
      var found := IndexOf(docs, oid.value);
      if found.None? {
        return InvalidId;
      }
      r := Ok(docs[found.value].body.episodes);
    }

    /** `seed_data`: on an empty collection inserts the two sample documents and reports 2; on a
        non-empty one inserts nothing and reports 0 with a message. */
    method SeedData() returns (report: SeedReport)
      requires Valid()
      requires docs == [] ==> nextId + |SAMPLES| <= ID_SPACE
      modifies this
      ensures Valid()
      ensures old(docs) != [] ==>
        report == SeedReport(0, Some(ALREADY_SEEDED)) && docs == old(docs) && nextId == old(nextId)
      ensures old(docs) == [] ==>
        report == SeedReport(2, None) &&
        docs == [Doc(old(nextId), SAMPLES[0]), Doc(old(nextId) + 1, SAMPLES[1])] &&
        nextId == old(nextId) + 2
    {
      var count := |docs|;
      if count > 0 {
        return SeedReport(0, Some(ALREADY_SEEDED));
      }
      var ids := InsertMany(SAMPLES);
      report := SeedReport(|ids|, None);
    }
  }

  /** Seeding an empty collection twice: the first call inserts 2, the second inserts 0. */
  method SeedTwice(c: Catalog) returns (first: SeedReport, second: SeedReport)
    requires c.Valid() && c.docs == [] && c.nextId + 2 <= ID_SPACE
    modifies c
    ensures first.inserted == 2 && second.inserted == 0 && |c.docs| == 2
  {
    first := c.SeedData();
    second := c.SeedData();
  }

  /** Creating a document and looking it up by the returned identifier gives back the request's
      fields and no episodes. */
  method CreateThenGet(c: Catalog, p: AnimeCreate) returns (r: Reply<AnimeView>)
    requires c.Valid() && c.nextId < ID_SPACE
    modifies c
    ensures r.Ok?
    ensures r.value.body.title == p.title && r.value.body.description == p.description
    ensures r.value.body.coverImage == p.coverImage && r.value.body.trailerUrl == p.trailerUrl
    ensures r.value.body.year == p.year && r.value.body.episodes == []
  {
    ghost var before, n := c.docs, c.nextId;
    var id := c.CreateAnime(p);
    CreatedIsFound(before, n, CreatedBody(p));
    r := c.GetAnime(id);
  }
}
