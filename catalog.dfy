/** The song catalog and the search box over it: which records `loadSongs` keeps
    (script.js:29), which songs `handleSearch` finds (script.js:46-58) and what
    `displaySearchResults` shows of them (script.js:64-93). */
module Catalog {
  import opened Text
  import opened Seqs

  /** One record of the catalog file. A field that is absent or null in the file
      reads as the empty string, which JavaScript treats as falsy just like them. */
  datatype Song = Song(numero: string, titulo: string)

  /** The outcome of fetching and parsing the catalog file. */
  datatype Fetched = Failed | Parsed(records: seq<Song>)

  /** `data.slice(1).filter(song => song.numero && song.titulo)`: the header record is
      dropped and so is every record lacking a number or a title (a string is truthy
      in JavaScript exactly when it is not empty). */
  function LoadedCatalog(data: seq<Song>): (r: seq<Song>)
    ensures data == [] ==> r == []
    ensures data != [] ==> IsSubseq(r, data[1..])
    ensures forall x: Song ::
              multiset(r)[x] == if x.numero != "" && x.titulo != "" && data != [] then multiset(data[1..])[x] else 0
  {
    if data == [] then [] else Filter((song: Song) => song.numero != "" && song.titulo != "", data[1..])
  }

  /** The search term: the input trimmed, then lower-cased. It is blank exactly when
      the input holds white space only, and otherwise neither starts nor ends with
      white space. */
  function SearchTerm(input: string): (term: string)
    ensures |term| == |Trim(input)|
    ensures term == [] <==> AllSpace(input)
    ensures term != [] ==> !IsSpace(term[0]) && !IsSpace(term[|term| - 1])
  {
    Lower(Trim(input))
  }

  /** The same test stated as containment: the term is a contiguous block of the
      lower-cased number or of the lower-cased title. */
  ghost predicate Found(term: string, song: Song) {
    IsInfix(term, Lower(song.numero)) || IsInfix(term, Lower(song.titulo))
  }

  /** The search test of one song, as `includes` computes it: the term is a
      contiguous block of the lower-cased number or of the lower-cased title. */
  function Matches(term: string, song: Song): (found: bool)
    ensures found <==> Found(term, song)
  {
    Includes(Lower(song.numero), term) || Includes(Lower(song.titulo), term)
  }

  /** The songs `handleSearch` finds: none for a blank term; otherwise exactly the
      catalog songs whose number or title contains the term, in catalog order and
      with their multiplicity. */
  function Search(catalog: seq<Song>, input: string): (r: seq<Song>)
    ensures SearchTerm(input) == [] ==> r == []
    ensures IsSubseq(r, catalog)
    ensures SearchTerm(input) != [] ==>
      forall x :: multiset(r)[x] == if Found(SearchTerm(input), x) then multiset(catalog)[x] else 0
    ensures forall k :: 0 <= k < |r| ==> Found(SearchTerm(input), r[k])
  {
    var term := SearchTerm(input);
    if term == [] then []
    else Filter((song: Song) => Matches(term, song), catalog)
  }

  /** At most this many results are listed (script.js:73). */
  const MaxShown: nat := 50

  /** The line under a truncated listing: "Mostrando 50 de N resultados". */
  datatype Notice = NoNotice | ShowingOf(total: nat)

  /** What the results panel holds. `Blank` is the cleared panel, `NothingFound`
      the "Nenhum louvor encontrado" message, `Listing` the clickable results. */
  datatype View = Blank | NothingFound | Listing(shown: seq<Song>, notice: Notice)

  /** `displaySearchResults(results)`: the first `MaxShown` results, and the notice
      with the full count exactly when some were cut. */
  function DisplaySearchResults(results: seq<Song>): (v: View)
    ensures v != Blank
    ensures v == NothingFound <==> results == []
    ensures v.Listing? ==>
      |v.shown| == (if |results| < MaxShown then |results| else MaxShown)
      && v.shown == results[..|v.shown|]
    ensures v.Listing? ==> (v.notice == ShowingOf(|results|) <==> |results| > MaxShown)
    ensures v.Listing? ==> (v.notice == NoNotice <==> |results| <= MaxShown)
  {
    if results == [] then NothingFound
    else
      var limited := if |results| < MaxShown then results else results[..MaxShown];
      Listing(limited, if |results| > MaxShown then ShowingOf(|results|) else NoNotice)
  }

  /** `handleSearch` on one input event: a blank term clears the panel, anything
      else displays the search results. */
  function HandleSearch(catalog: seq<Song>, input: string): (v: View)
    ensures v == Blank <==> AllSpace(input)
    ensures v == NothingFound <==> !AllSpace(input) && Search(catalog, input) == []
    ensures !AllSpace(input) ==> v == DisplaySearchResults(Search(catalog, input))
  {
    if SearchTerm(input) == [] then Blank
    else DisplaySearchResults(Search(catalog, input))
  }

  /** The songs offered for a click are catalog songs, in catalog order, and each
      contains the term. */
  lemma {:induction false} ShownSongsMatch(catalog: seq<Song>, input: string)
    ensures HandleSearch(catalog, input).Listing? ==>
      var shown := HandleSearch(catalog, input).shown;
      IsSubseq(shown, catalog)
      && forall k :: 0 <= k < |shown| ==> Found(SearchTerm(input), shown[k])
  {
    var v := HandleSearch(catalog, input);
    if v.Listing? {
      var results := Search(catalog, input);
      assert v.shown == results[..|v.shown|];
      PrefixIsSubseq(v.shown, results);
      SubseqTrans(v.shown, results, catalog);
    }
  }
}
