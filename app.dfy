/** The page's module-level state (`allSongs`, `selectedSongs`, script.js:2-3) and the
    handlers that change it. */
module App {
  import opened Catalog
  import opened Playlist

  /** `selectedSongs.some(song => song.numero === numero)` (script.js:98): scans the
      list front to back and stops at the first song with that number. */
  method IsDuplicate(list: seq<Song>, numero: string) returns (found: bool)
    ensures found <==> HasNumero(list, numero)
  {
    found := false;
    var i := 0;
    while i < |list| && !found
      invariant 0 <= i <= |list|
      invariant found ==> 0 < i && list[i - 1].numero == numero
      invariant !found ==> forall k :: 0 <= k < i ==> list[k].numero != numero
    {
      found := list[i].numero == numero;
      i := i + 1;
    }
  }

  class SongPicker {
    /** The loaded catalog. */
    var allSongs: seq<Song>
    /** The songs picked so far, in the order they were picked. */
    var selectedSongs: seq<Song>

    /** No two picked songs carry the same number. */
    ghost predicate Valid()
      reads this
    {
      DistinctNumeros(selectedSongs)
    }

    /** The page before the catalog has loaded: nothing to search, nothing picked. */
    constructor ()
      ensures Valid() && allSongs == [] && selectedSongs == []
    {
      allSongs := [];
      selectedSongs := [];
    }

    /** `loadSongs()` (script.js:18-37) once the fetch has settled: a parsed file
        replaces the catalog with its listed songs; a failure leaves it as it was. */
    method LoadSongs(fetched: Fetched)
      modifies this`allSongs
      ensures allSongs == if fetched.Parsed? then LoadedCatalog(fetched.records) else old(allSongs)
    {
      if fetched.Parsed? {
        allSongs := LoadedCatalog(fetched.records);
      }
    }

    /** `addSongToList(song)`: a song whose number is already picked is refused
        (`isDuplicate`, the alert) and the list is untouched; otherwise it is pushed
        at the end. */
    method AddSongToList(song: Song) returns (isDuplicate: bool)
      requires Valid()
      modifies this`selectedSongs
      ensures Valid()
      ensures isDuplicate <==> HasNumero(old(selectedSongs), song.numero)
      ensures selectedSongs == WithSong(old(selectedSongs), song)
      ensures isDuplicate ==> selectedSongs == old(selectedSongs)
      ensures !isDuplicate ==> selectedSongs == old(selectedSongs) + [song]
    {
      isDuplicate := IsDuplicate(selectedSongs, song.numero);
      AddKeepsDistinct(selectedSongs, song);
      if !isDuplicate {
        selectedSongs := selectedSongs + [song];
      }
    }

    /** `removeSongFromList(index)`: the song at a rendered position is spliced out
        and the later ones move down by one. */
    method RemoveSongFromList(index: nat)
      requires Valid() && index < |selectedSongs|
      modifies this`selectedSongs
      ensures Valid()
      ensures selectedSongs == RemoveAt(old(selectedSongs), index)
      ensures |selectedSongs| == |old(selectedSongs)| - 1
      ensures selectedSongs[..index] == old(selectedSongs)[..index]
      ensures selectedSongs[index..] == old(selectedSongs)[index + 1..]
    {
      RemoveKeepsDistinct(selectedSongs, index);
      selectedSongs := RemoveAt(selectedSongs, index);
    }
  }
}
