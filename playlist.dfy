/** The selected-songs list as values: what `addSongToList` (script.js:96-114) and
    `removeSongFromList` (script.js:145-148) do to it, and the properties that hold
    across any run of them. */
module Playlist {
  import opened Catalog

  /** Some song of `list` carries this number. */
  ghost predicate HasNumero(list: seq<Song>, numero: string) {
    exists i :: 0 <= i < |list| && list[i].numero == numero
  }

  /** No two songs of `list` carry the same number. */
  ghost predicate DistinctNumeros(list: seq<Song>) {
    forall i, j :: 0 <= i < j < |list| ==> list[i].numero != list[j].numero
  }

  /** The list after `addSongToList(song)`: unchanged when a song with the same number
      is already present, otherwise `song` pushed at the end. */
  ghost function WithSong(list: seq<Song>, song: Song): (r: seq<Song>)
    ensures |list| <= |r| <= |list| + 1 && r[..|list|] == list
    ensures |r| == |list| <==> HasNumero(list, song.numero)
    ensures |r| > |list| ==> r[|list|] == song
  {
    if HasNumero(list, song.numero) then list else list + [song]
  }

  /** The list after `splice(index, 1)`. */
  function RemoveAt(list: seq<Song>, index: nat): (r: seq<Song>)
    requires index < |list|
    ensures |r| == |list| - 1
    ensures forall k :: 0 <= k < index ==> r[k] == list[k]
    ensures forall k :: index <= k < |r| ==> r[k] == list[k + 1]
    ensures multiset(r) + multiset{list[index]} == multiset(list)
  {
    assert list == list[..index] + [list[index]] + list[index + 1..];
    list[..index] + list[index + 1..]
  }

  /** A duplicate number leaves the list exactly as it was. */
  lemma {:induction false} DuplicateLeavesListUnchanged(list: seq<Song>, song: Song, i: nat)
    requires i < |list| && list[i].numero == song.numero
    ensures WithSong(list, song) == list
  {
  }

  /** A new number is appended: one more song, the earlier ones in place, the new
      one last. */
  lemma {:induction false} NewNumeroIsAppended(list: seq<Song>, song: Song)
    requires forall k :: 0 <= k < |list| ==> list[k].numero != song.numero
    ensures |WithSong(list, song)| == |list| + 1
    ensures WithSong(list, song)[..|list|] == list
    ensures WithSong(list, song)[|list|] == song
  {
  }

  /** After an add the song's number is in the list, whichever branch was taken. */
  lemma {:induction false} AddedNumeroPresent(list: seq<Song>, song: Song)
    ensures HasNumero(WithSong(list, song), song.numero)
  {
    if !HasNumero(list, song.numero) {
      assert WithSong(list, song)[|list|] == song;
    }
  }

  /** Adding the same song twice is adding it once. */
  lemma {:induction false} AddIdempotent(list: seq<Song>, song: Song)
    ensures WithSong(WithSong(list, song), song) == WithSong(list, song)
  {
    AddedNumeroPresent(list, song);
  }

  /** Removing the song an add just appended gives back the list before the add. */
  lemma {:induction false} RemoveUndoesAdd(list: seq<Song>, song: Song)
    requires !HasNumero(list, song.numero)
    ensures RemoveAt(WithSong(list, song), |list|) == list
  {
    assert (list + [song])[..|list|] == list;
  }

  /** Adding keeps the numbers distinct. */
  lemma {:induction false} AddKeepsDistinct(list: seq<Song>, song: Song)
    requires DistinctNumeros(list)
    ensures DistinctNumeros(WithSong(list, song))
  {
    if !HasNumero(list, song.numero) {
      var r := list + [song];
      forall i, j | 0 <= i < j < |r| ensures r[i].numero != r[j].numero {
        if j == |list| {
          assert r[i] == list[i];
        }
      }
    }
  }

  /** Removing keeps the numbers distinct. */
  lemma {:induction false} RemoveKeepsDistinct(list: seq<Song>, index: nat)
    requires DistinctNumeros(list) && index < |list|
    ensures DistinctNumeros(RemoveAt(list, index))
  {
    var r := RemoveAt(list, index);
    forall i, j | 0 <= i < j < |r| ensures r[i].numero != r[j].numero {
      var i', j' := if i < index then i else i + 1, if j < index then j else j + 1;
      assert r[i] == list[i'] && r[j] == list[j'];
    }
  }

  /** One user action on the list: a click on a search result or on a remove button. */
  datatype Action = Add(song: Song) | Remove(index: nat)

  /** Every remove button pressed in `actions` is one the list on screen shows at
      that moment (the UI renders one button per position). */
  ghost predicate Replayable(list: seq<Song>, actions: seq<Action>)
    decreases |actions|
  {
    actions == [] ||
    match actions[0]
    case Add(song) => Replayable(WithSong(list, song), actions[1..])
    case Remove(index) => index < |list| && Replayable(RemoveAt(list, index), actions[1..])
  }

  /** The list after performing `actions` in order. */
  ghost function Replay(list: seq<Song>, actions: seq<Action>): seq<Song>
    requires Replayable(list, actions)
    decreases |actions|
  {
    if actions == [] then list
    else match actions[0]
      case Add(song) => Replay(WithSong(list, song), actions[1..])
      case Remove(index) => Replay(RemoveAt(list, index), actions[1..])
  }

  /** However songs are added and removed, no two selected songs share a number. */
  lemma {:induction false} ReplayKeepsDistinct(list: seq<Song>, actions: seq<Action>)
    requires DistinctNumeros(list) && Replayable(list, actions)
    ensures DistinctNumeros(Replay(list, actions))
    decreases |actions|
  {
    if actions != [] {
      match actions[0]
      case Add(song) =>
        AddKeepsDistinct(list, song);
        ReplayKeepsDistinct(WithSong(list, song), actions[1..]);
      case Remove(index) =>
        RemoveKeepsDistinct(list, index);
        ReplayKeepsDistinct(RemoveAt(list, index), actions[1..]);
    }
  }
}
