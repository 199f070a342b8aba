# Song picker for worship planning — verified model of the list builder

The page (`script.js`) loads a catalog of songs ("louvores") from a JSON file,
lets the user type in a search box, lists the matching songs (at most 50), and
builds an ordered list of selected songs: a click on a result adds the song
unless a song with the same number (`numero`) is already selected, and each
selected song has a button that removes it.

This project models that logic in Dafny:

- `text.dfy` (module `Text`): `trim`, `toLowerCase` and `includes` on strings.
- `seqs.dfy` (module `Seqs`): `filter` and the subsequence relation it yields.
- `catalog.dfy` (module `Catalog`): the record filter of `loadSongs`, the search of
  `handleSearch` and the 50-item cut of `displaySearchResults`, as functions.
- `playlist.dfy` (module `Playlist`): the selected list as a value — add with
  de-duplication on `numero`, splice-remove — and the invariant that numbers stay
  distinct across any run of adds and removes.
- `app.dfy` (module `App`): the page state as a class `SongPicker` with the fields
  `allSongs` and `selectedSongs`, and the handlers that reassign them.

## Model

| member | source | states |
|---|---|---|
| `Text.Trim` | script.js:46 | the trimmed term is an infix of the input surrounded by white space only, does not start or end with white space, and is empty exactly when the input is all white space |
| `Text.Lower` | script.js:55-56 | lower-casing keeps the length and maps each character by the ASCII/Latin-1 case mapping |
| `Text.LowerChar` | script.js:55-56 | a capital (ASCII or Latin-1) moves 32 code points up, any other character is kept, no capital remains, and white space stays white space and nothing else becomes white space |
| `Text.Includes` | script.js:57 | `includes` is true exactly when the needle occurs as a contiguous block of the haystack (the empty needle always does) |
| `Seqs.Filter` | script.js:54-58 | `filter` yields a subsequence of its input that holds every element satisfying the test as often as the input does, and no other element |
| `Seqs.FilterUnique` | script.js:54-58 | those two properties determine the filter's result completely: any sequence meeting them is the filter's result |
| `Catalog.LoadedCatalog` | script.js:29 | the loaded catalog is a subsequence of the input minus its first (header) record, holds exactly the records with a non-empty number and title, and nothing when the input is empty |
| `Catalog.SearchTerm` | script.js:46-48 | the term has the trimmed input's length, is empty exactly when the typed input is white space only, and otherwise neither starts nor ends with white space |
| `Catalog.Matches` | script.js:55-57 | the filter callback accepts a song exactly when the term is a contiguous block of its lower-cased number or of its lower-cased title |
| `Catalog.Search` | script.js:46-58 | a blank term finds nothing; otherwise the results are exactly the catalog songs, in catalog order and multiplicity, whose lower-cased number or title contains the trimmed lower-cased term |
| `Catalog.DisplaySearchResults` | script.js:64-92 | no results give the "nothing found" message; otherwise the first min(50, n) results are listed, and the "showing 50 of n" notice appears exactly when n > 50 |
| `Catalog.HandleSearch` | script.js:45-61 | the results panel is cleared exactly when the input is blank; any other input displays the search results: "nothing found" exactly when there are none, otherwise the first min(50, n) with the notice when n > 50 |
| `Catalog.ShownSongsMatch` | script.js:73-83 | the listed, clickable songs are catalog songs in catalog order, and each contains the term |
| `Playlist.WithSong` | script.js:98-106 | an add keeps the list as a prefix and grows it by at most one; the length is unchanged exactly when the number is already present; a grown list ends with the song |
| `Playlist.RemoveAt` | script.js:146 | splicing out index i leaves one song fewer, the songs before i in place, each later song one position down, and removes exactly the song that was at i |
| `Playlist.DuplicateLeavesListUnchanged` | script.js:98-103 | adding a song whose number is already selected leaves the list identical |
| `Playlist.NewNumeroIsAppended` | script.js:98-106 | adding a song with a new number grows the list by one, keeps every earlier song at its position and puts the new song last |
| `Playlist.AddedNumeroPresent` | script.js:96-106 | after an add the song's number is always in the list |
| `Playlist.AddIdempotent` | script.js:96-106 | adding the same song a second time changes nothing |
| `Playlist.RemoveUndoesAdd` | script.js:145-146 | removing the song an add has just appended restores the earlier list |
| `Playlist.AddKeepsDistinct` | script.js:96-106 | an add keeps the selected numbers pairwise distinct |
| `Playlist.RemoveKeepsDistinct` | script.js:145-146 | a remove keeps the selected numbers pairwise distinct |
| `Playlist.ReplayKeepsDistinct` | script.js:96-146 | across any sequence of adds and removes at rendered positions, no two selected songs share a number |
| `App.IsDuplicate` | script.js:98 | the duplicate scan answers true exactly when some selected song has the given number |
| `App.SongPicker.constructor` | script.js:2-3 | the page starts with an empty catalog and an empty selection |
| `App.SongPicker.LoadSongs` | script.js:18-37 | a parsed catalog file replaces `allSongs` with its loaded songs; a failed fetch leaves `allSongs` as it was; the selection is untouched |
| `App.SongPicker.AddSongToList` | script.js:96-114 | reports a duplicate exactly when the number is already selected and then leaves the list unchanged; otherwise appends the song; numbers stay distinct |
| `App.SongPicker.RemoveSongFromList` | script.js:145-148 | at a rendered position: one song fewer, earlier songs in place, later songs shifted down by one; numbers stay distinct |

## Left out

- Fetching and parsing the catalog file, the console messages and the error banner (`showError`): network and DOM. The fetch outcome is a parameter of `App.SongPicker.LoadSongs`.
- HTML building, event wiring, the duplicate `alert` and the re-rendering of the list (`updateSelectedList`): DOM. The alert is the `isDuplicate` result of `App.SongPicker.AddSongToList`.
- Clearing the search box and the results panel after a successful add (script.js:112-113): a DOM side effect with no effect on the modelled state.
- Catalog fields that hold JSON numbers or other non-string values: a record is modelled with string fields, an absent or null field reading as the empty string.
- Strings are sequences of Unicode scalar values, whereas JavaScript strings are UTF-16 code units; a lone surrogate cannot be represented. On well-formed text this changes no result of `trim` or `includes`.
- Text.Lower, Text.LowerChar: model the case mapping of `toLowerCase` for ASCII and Latin-1 capitals only; higher capitals (U+0100 and up) are kept unchanged, and mappings that change the length (U+0130 becomes two code units) are not modelled, so the length clauses of `Text.Lower` and `Catalog.SearchTerm` hold only under the modelled mapping.
- App.SongPicker.RemoveSongFromList: requires an index within the list; `splice` with an out-of-range or negative index is not modelled because the page only passes the index of a rendered item.
- The identity key with origin and lower-cased title, the recency check against saved lists, moving items and clearing the list: `script.js` does none of these.
