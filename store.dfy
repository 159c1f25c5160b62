/** The document store behind the catalog, reduced to what the catalog uses: the `anime`
    collection as a sequence of documents in insertion order, lookup of a document by identifier,
    and the query filter the listing endpoint builds. */
module Store {
  import opened Wrappers
  import opened Text
  import opened ObjectIds
  import opened Schemas

  /** The fields of a stored anime document. `languages` and `genres` may be `None` (null in the
      store). `updatedAtNull` records that the document carries an `updated_at` key set to null,
      which the episode endpoint writes. */
  datatype Body = Body(
    title: string,
    description: Option<string>,
    coverImage: Option<string>,
    trailerUrl: Option<string>,
    languages: Option<seq<string>>,
    genres: Option<seq<string>>,
    year: Option<int>,
    episodes: seq<Episode>,
    updatedAtNull: bool)

  /** A stored document: its store-assigned identifier and its fields. */
  datatype Doc = Doc(id: Oid, body: Body)

  /** The document read as an `Anime` of the schema, for a document whose label lists are present. */
  function AsAnime(b: Body): Anime
    requires b.languages.Some? && b.genres.Some?
  {
    Anime(b.title, b.description, b.coverImage, b.trailerUrl, b.languages.value, b.genres.value, b.year, b.episodes)
  }

  /** The document satisfies the `Anime` schema: both label lists are lists, not null, and the
      schema's constraints hold. */
  predicate Conforms(b: Body) {
    b.languages.Some? && b.genres.Some? && ValidAnime(AsAnime(b))
  }

  /** The collection's invariant: identifiers increase in insertion order (so they are unique) and
      lie below the store's next fresh identifier, which lies within the identifier space. */
  predicate WellFormed(docs: seq<Doc>, next: nat) {
    next <= ID_SPACE &&
    (forall i :: 0 <= i < |docs| ==> docs[i].id < next) &&
    (forall i, j :: 0 <= i < j < |docs| ==> docs[i].id < docs[j].id)
  }

  /** The position of the first document with identifier `id`, as `find_one` and `update_one`
      locate it; `None` when no document has it. */
  function IndexOf(docs: seq<Doc>, id: Oid): (r: Option<nat>)
    ensures r.Some? ==> r.value < |docs| && docs[r.value].id == id
    ensures r.Some? ==> forall j :: 0 <= j < r.value ==> docs[j].id != id
    ensures r.None? <==> forall j :: 0 <= j < |docs| ==> docs[j].id != id
  {
    if docs == [] then None
    else if docs[0].id == id then Some(0)
    else match IndexOf(docs[1..], id)
      case None => None
      case Some(k) => Some(k + 1)
  }

  /** The position found depends only on the identifiers of the documents. */
  lemma IndexOfSameIds(a: seq<Doc>, b: seq<Doc>, id: Oid)
    requires |a| == |b| && forall i :: 0 <= i < |a| ==> a[i].id == b[i].id
    ensures IndexOf(a, id) == IndexOf(b, id)
  {
  }

  /** A query: each present field is one condition, and a document must meet them all. */
  datatype Filter = Filter(title: Option<string>, language: Option<string>, genre: Option<string>)

  const NO_FILTER := Filter(None, None, None)

  /** A label list matches a label when it is a list holding that exact label; a null list never does. */
  predicate HasLabel(labels: Option<seq<string>>, name: string): (b: bool)
    ensures labels.None? ==> !b
  {
    labels.Some? && name in labels.value
  }

  /** The document meets every present condition: for the title, the query occurs somewhere in it
      ignoring case. */
  predicate Matches(f: Filter, d: Doc): (m: bool)
    ensures m && f.title.Some? ==> exists i :: OccursAt(d.body.title, f.title.value, i)
  {
    ContainsIgnoringCaseIff(d.body.title, if f.title.Some? then f.title.value else "");
    (f.title.None? || ContainsIgnoringCase(d.body.title, f.title.value)) &&
    (f.language.None? || HasLabel(d.body.languages, f.language.value)) &&
    (f.genre.None? || HasLabel(d.body.genres, f.genre.value))
  }

  /** `find(filter)`: the matching documents, in insertion order. */
  function Select(docs: seq<Doc>, f: Filter): (r: seq<Doc>)
    ensures |r| <= |docs|
    ensures forall d :: d in r <==> d in docs && Matches(f, d)
  {
    if docs == [] then []
    else if Matches(f, docs[0]) then [docs[0]] + Select(docs[1..], f)
    else Select(docs[1..], f)
  }

  /** The empty filter selects the whole collection, in order. */
  lemma {:induction false} SelectNoFilter(docs: seq<Doc>)
    ensures Select(docs, NO_FILTER) == docs
  {
    if docs != [] {
      SelectNoFilter(docs[1..]);
      assert docs == [docs[0]] + docs[1..];
    }
  }

  /** Selecting with `f` is selecting with `g` and then with `h`, when `f` is the conjunction of the two. */
  lemma {:induction false} SelectThenSelect(docs: seq<Doc>, f: Filter, g: Filter, h: Filter)
    requires forall d :: Matches(f, d) <==> Matches(g, d) && Matches(h, d)
    ensures Select(docs, f) == Select(Select(docs, g), h)
  {
    if docs != [] {
      SelectThenSelect(docs[1..], f, g, h);
      if Matches(g, docs[0]) {
        assert ([docs[0]] + Select(docs[1..], g))[1..] == Select(docs[1..], g);
      }
    }
  }

  /** The three conditions of a filter combine by AND: the filter selects what its title condition,
      then its language condition, then its genre condition select in turn. */
  lemma Conjunction(docs: seq<Doc>, f: Filter)
    ensures Select(docs, f)
         == Select(Select(Select(docs, Filter(f.title, None, None)), Filter(None, f.language, None)),
                   Filter(None, None, f.genre))
  {
    var t, l, g := Filter(f.title, None, None), Filter(None, f.language, None), Filter(None, None, f.genre);
    var tl := Filter(f.title, f.language, None);
    SelectThenSelect(docs, f, tl, g);
    SelectThenSelect(docs, tl, t, l);
  }
}
