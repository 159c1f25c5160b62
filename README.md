# Anime catalog: a Dafny model

This project models the catalog service of a small anime backend. The catalog is an `anime`
collection of documents in a document store. Each document holds a title, optional texts, label
lists (`languages`, `genres`), an optional year and an embedded list of episodes. The model covers:

- the request models `AnimeCreate` and `EpisodeCreate` and their defaults;
- the six catalog endpoints: list with filters, create, get by id, add an episode, list
  episodes, and seed;
- the `Episode` and `Anime` collection schemas, as validity predicates and constructors.

Modules follow the program's structure:

- `Wrappers`: `Option` (a nullable value) and `Arg` (a constructor keyword argument that is given
  or omitted).
- `Text`: ASCII case folding and the case-insensitive substring search that the title query
  performs.
- `ObjectIds`: the identifier codec. An internal identifier is a 96-bit number. `Decode` accepts
  exactly the texts of 24 hexadecimal digits in either case. `Render` writes 24 lower-case digits.
  Both directions of the round trip are proved.
- `Schemas`: `schemas.py`, the field constraints (episode number at least 1, year in 1950..2100)
  and the defaults.
- `Store`: the collection as a sequence of documents in insertion order. It has lookup by
  identifier (`find_one`, `update_one`), the query filter and `find`.
- `AnimeApi`: `main.py`. The `Catalog` class holds the documents and the store's fresh-identifier
  counter, with one method per endpoint. Each method is proved against a pure specification
  function (`Listing`, `Target`, `AddEpisodeStep`, `CreatedBody`), and the lemmas state what those
  functions promise.

Quirks of the code that the model keeps:

- `get_anime`, `add_episode` and `list_episodes` all answer "Invalid ID" (400) when the
  identifier is malformed and also when no document carries it. The 404 raised inside each `try`
  is caught by `except Exception`. The result type therefore has the two outcomes `Ok` and
  `InvalidId`. The code raises a 404 for a missing document (main.py:97, :114, :124), but that 404
  never reaches the client.
- `create_anime` stores `languages` and `genres` exactly as given, and `None` when they were
  omitted. `model_dump()` always has those keys, so the `setdefault` calls never fire.
  `OmittedLabelsStoredAsNull` shows that such a document then fails the `Anime` schema, whose own
  defaults would be `["Hindi"]` and `[]`. Those are also the defaults the `setdefault` calls at
  main.py:86-87 name.
- `add_episode` stores whatever `EpisodeCreate` accepts, including an episode number of 0 or
  below, which the `Episode` schema refuses (`EpisodeCreateUnbounded`, `AppendKeepsSchemaIff`).

Assumptions:

- bson's `ObjectId(text)` accepts a string exactly when it is 24 hexadecimal digits, and decodes it
  to the number those digits spell. `str(oid)` spells that number in lower case.
- The store hands out identifiers from a counter: each insertion takes the next one. Identifiers
  therefore increase in insertion order and are unique. `find` returns documents in insertion
  order.

## Model

| member | source | states |
|---|---|---|
| `Text.ContainsIgnoringCaseIff` | main.py:72-73 | the title search holds exactly when the query occurs at some position of the title, letters compared without case |
| `Text.ContainsIgnoringCase` | main.py:73 | the unanchored, case-insensitive search of a literal query: the query occurs at the start of the title or somewhere in its tail |
| `ObjectIds.Decode` | main.py:95 | `ObjectId(text)` succeeds if and only if the text is exactly 24 hexadecimal digits |
| `ObjectIds.Render` | main.py:98 | `str(oid)` is 24 lower-case hexadecimal digits |
| `ObjectIds.DecodeRender` | main.py:95-98 | decoding the rendered text of an identifier gives the identifier back |
| `ObjectIds.RenderDecode` | main.py:95-98 | rendering a decoded identifier gives the original text in lower case |
| `ObjectIds.DecodeInjective` | main.py:95 | two texts decode to the same identifier only if they differ at most in letter case |
| `Schemas.NewEpisode` | schemas.py:17-21 | an episode is built if and only if its number is at least 1; any title is accepted; omitted `video_url` gives `None` and omitted `language` gives "Hindi" |
| `Schemas.NewAnime` | schemas.py:23-35 | an anime is built if and only if the year is absent or in 1950..2100 inclusive and every given episode has a number of at least 1; the result is valid; every given field is kept; omitted fields get `None`, `["Hindi"]`, `[]` and `[]` |
| `Schemas.ValidEpisode` | schemas.py:18 | an episode satisfies the schema when its number is at least 1; the title is not constrained |
| `Schemas.ValidAnime` | schemas.py:34-35 | an anime satisfies the schema when its year is absent or in 1950..2100 and every embedded episode satisfies the episode schema |
| `Schemas.AnimeDefaults` | schemas.py:29-35 | an anime given only a title is valid and carries every declared default |
| `Schemas.ValidAnimeEpisodes` | schemas.py:35 | every episode embedded in a valid anime passes the episode constructor unchanged |
| `Store.IndexOf` | main.py:95 | finds the first document with the identifier, or reports that no document has it |
| `Store.HasLabel` | main.py:74-77 | equality against an array field: the label is an element of the list; a null list never matches |
| `Store.Matches` | main.py:72-77 | a document meets every present condition; when the title condition is present, the query occurs at some position of the title ignoring case |
| `Store.Select` | main.py:78 | the result holds exactly the stored documents that meet the filter, and is no longer than the collection |
| `Store.SelectNoFilter` | main.py:71 | the empty filter selects the whole collection in order |
| `Store.SelectThenSelect` | main.py:71-78 | selecting by a conjunction of two filters is selecting by one and then by the other |
| `Store.Conjunction` | main.py:71-78 | the title, language and genre conditions combine by AND, each applied to the result of the previous one |
| `AnimeApi.NewAnimeCreate` | main.py:54-61 | only the title is required; every given field is kept, and every omitted optional field becomes `None` |
| `AnimeApi.NewEpisodeCreate` | main.py:63-67 | any integer is accepted as the number; a given `video_url` or `language` is kept; omitted `video_url` gives `None` and omitted `language` gives "Hindi" |
| `AnimeApi.EpisodeCreateUnbounded` | main.py:63-67 | the request model and the schema build the same episode, except that only the schema refuses a number below 1 |
| `AnimeApi.ModelDump` | main.py:85 | the dumped request has the `languages` and `genres` keys (null ones included) and no `episodes` key |
| `AnimeApi.CreatedConforms` | main.py:85-89 | a created document satisfies the `Anime` schema if and only if both label lists were supplied and the year is in range |
| `AnimeApi.OmittedLabelsStoredAsNull` | main.py:85-87 | a request with only a title is stored with null `languages` and `genres` and fails the schema, whose defaults would be `["Hindi"]` and `[]` |
| `AnimeApi.SetDefault` | main.py:86-88 | `setdefault` always leaves the key present and never replaces the value of a key that was already there |
| `AnimeApi.CreatedBody` | main.py:85-89 | the stored document: the request's fields verbatim, no episodes, no `updated_at` |
| `AnimeApi.View` | main.py:79-80 | the returned document carries the stored fields and an identifier text that decodes back to the stored identifier |
| `AnimeApi.Present` | main.py:72-77 | the truthiness of `if q:`: a parameter counts only when it is given and not "" |
| `AnimeApi.FilterOf` | main.py:71-77 | the filter is empty exactly when no parameter is present, and each of its conditions comes from a present parameter |
| `AnimeApi.Listing` | main.py:78-81 | what `list_anime` returns: the selected documents as views, no more of them than the collection holds |
| `AnimeApi.ParameterNarrows` | main.py:71-78 | adding the language (or title) parameter filters the previous result again |
| `AnimeApi.ListingSound` | main.py:72-81 | every listed document meets each present parameter, and its text identifier decodes to the identifier of a stored document with the same fields |
| `AnimeApi.ListingComplete` | main.py:71-78 | every stored document that meets all present parameters is listed |
| `AnimeApi.ListAllWhenUnfiltered` | main.py:71-81 | with every parameter absent or empty, the listing is the whole collection in order |
| `AnimeApi.NullLabelsNeverMatch` | main.py:74-77 | a document with a null `languages` (or `genres`) list never matches a language (or genre) parameter |
| `AnimeApi.Target` | main.py:95-97 | an external identifier designates a document if and only if it decodes and some document carries the decoded identifier |
| `AnimeApi.MalformedIdMatchesNothing` | main.py:95 | a text that is not 24 hexadecimal digits designates no document |
| `AnimeApi.CreatedIsFound` | main.py:89-90 | the identifier returned for a newly inserted document designates that document |
| `AnimeApi.WithEpisode` | main.py:106-112 | `$push`/`$set` keeps the earlier episodes, puts the new episode last, sets `updated_at` to null and changes no other field |
| `AnimeApi.AppendKeepsSchemaIff` | main.py:108 | appending to a conforming document keeps it conforming if and only if the episode's number is at least 1 |
| `AnimeApi.AddEpisodeStep` | main.py:106-115 | only the designated document changes, by one appended episode; with no designated document nothing changes; identifiers are unchanged |
| `AnimeApi.AddEpisodesKeepTarget` | main.py:106-112 | appending episodes keeps the number of documents and which document each identifier designates |
| `AnimeApi.AddEpisodesInOrder` | main.py:106-112 | appending episodes one call after another adds them after the earlier ones in call order, and leaves the other documents unchanged |
| `AnimeApi.SamplesConform` | main.py:136-162 | both seed documents satisfy the `Anime` schema (years 2002 and 2019, episode numbers at least 1) |
| `AnimeApi.NarutoQueryMatches` | main.py:72-73 | the query "naruto" matches the title "Naruto (Hindi Dub)" |
| `AnimeApi.Catalog.Insert` | main.py:89 | stores the document verbatim under the next fresh identifier and returns that identifier |
| `AnimeApi.Catalog.InsertMany` | main.py:163 | appends the documents in order under consecutive fresh identifiers |
| `AnimeApi.Catalog.ListAnime` | main.py:69-81 | returns the specified listing: the documents meeting every present parameter, identifiers as text; the collection is unchanged |
| `AnimeApi.Catalog.CreateAnime` | main.py:83-90 | the collection grows by exactly one document under a fresh identifier; the request's fields are stored verbatim, with no episodes; the identifier is returned as text |
| `AnimeApi.Catalog.GetAnime` | main.py:92-101 | returns the designated document with its identifier as text (the request text lower-cased); "Invalid ID" for a malformed identifier and for one no document carries |
| `AnimeApi.Catalog.AddEpisode` | main.py:103-117 | succeeds if and only if the identifier designates a document; the new collection is `AddEpisodeStep` of the old; otherwise "Invalid ID" with nothing changed |
| `AnimeApi.Catalog.ListEpisodes` | main.py:119-127 | returns the designated document's episodes; "Invalid ID" for a malformed identifier and for one no document carries |
| `AnimeApi.Catalog.SeedData` | main.py:129-164 | a non-empty collection is unchanged and the reply is 0 with "Collection already has data"; an empty one receives exactly the two samples in order and the reply is 2 |
| `AnimeApi.SeedTwice` | main.py:132-164 | two consecutive seeds from empty report 2 and then 0 |
| `AnimeApi.CreateThenGet` | main.py:83-101 | looking up a created document by the returned identifier succeeds and gives back the request's title, description, cover image, trailer URL and year, with no episodes |

## Left out

- The `/test` diagnostics endpoint, `read_root`, the CORS middleware and the server startup are I/O and plumbing (main.py:11-51, 166-169).
- `database.py` (`create_document`, `get_documents`, `db`) is not part of this model. The collection is an in-memory sequence. Whatever else `create_document` may add to a document, such as timestamps, is not modelled.
- The `db is None` branch of `seed_data` (main.py:132) is left out: it would go on to crash in `insert_many`.
- Concurrency is left out: the check-then-insert race of `seed_data` and the ordering of concurrent appends.
- Pydantic type coercion and request-body validation errors are left out. The request models are built from already-typed values.
- HTTP status codes are reduced to the outcomes `Ok` and `InvalidId`.
- AnimeApi.Catalog.ListAnime: the title query must be free of regular-expression metacharacters. Only literal queries are modelled, not regular-expression matching in general.
- Text.ContainsIgnoringCaseIff: case is folded for ASCII letters only. The store's Unicode case folding is not modelled.
- ObjectIds.Decode: only the 24-hex-digit rule is modelled. bson's parser internals are not.
- AnimeApi.Catalog.CreateAnime, AnimeApi.Catalog.InsertMany and AnimeApi.Catalog.SeedData require that the 2^96 identifier space is not exhausted. Identifier generation from the clock and randomness is replaced by a counter.
