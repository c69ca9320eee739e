/**
 * The playback state container: the queue engine (queue, current index and
 * the play, shuffle and repeat flags) together with the ledger fields it
 * updates. Every operation is an atomic transition from one state to the
 * next; the random draws of the source are explicit arguments.
 */
module Player {
  import opened Wrappers
  import opened Tracks
  import Js
  import Ledger
  import Shuffle

  datatype PlayerState = PlayerState(
    queue: seq<Track>,
    currentIndex: int,
    isPlaying: bool,
    isShuffling: bool,
    isRepeating: bool,
    favorites: seq<Track>,
    recentlyPlayed: seq<Track>)

  /** The provider's first state, given the ledger lists read back from storage. */
  function InitialState(favorites: seq<Track>, recentlyPlayed: seq<Track>): (p: PlayerState)
    ensures ValidIndex(p) && CurrentTrack(p) == None
    ensures !p.isPlaying && !p.isShuffling && !p.isRepeating
    ensures p.favorites == favorites && p.recentlyPlayed == recentlyPlayed
  {
    PlayerState([], 0, false, false, false, favorites, recentlyPlayed)
  }

  /** The queue/index invariant: a valid position when there is a queue, position 0 when there is none. */
  predicate ValidIndex(p: PlayerState) {
    if |p.queue| == 0 then p.currentIndex == 0 else 0 <= p.currentIndex < |p.queue|
  }

  /** The invariant the whole state keeps while the ledger lists are well formed. */
  predicate WellFormed(p: PlayerState) {
    && ValidIndex(p)
    && NoDupIds(p.favorites) && AllKeyed(p.favorites)
    && NoDupIds(p.recentlyPlayed) && AllKeyed(p.recentlyPlayed)
    && |p.recentlyPlayed| <= Ledger.RecentCap
  }

  /** `queue[currentIndex]`: the track being played, undefined when the queue is empty. */
  function CurrentTrack(p: PlayerState): (r: Option<Track>)
    ensures ValidIndex(p) ==> (r.Some? <==> |p.queue| > 0)
    ensures r.Some? <==> 0 <= p.currentIndex < |p.queue|
    ensures r.Some? ==> r.value == p.queue[p.currentIndex] && r.value in p.queue
  {
    Lookup(p.queue, p.currentIndex)
  }

  /**
   * `playTrack(track, trackList)`: start playing `track` from `trackList`.
   * `choices` are the shuffle's draws, used only when shuffle is on.
   */
  function PlayTrack(p: PlayerState, track: Option<Track>, trackList: seq<Track>, choices: seq<int>): (r: PlayerState)
    requires HasKey(track) && p.isShuffling ==> |choices| == |trackList| && Shuffle.ValidChoices(choices)
    ensures !HasKey(track) ==> r == p
    ensures HasKey(track) ==>
              && (p.isShuffling ==> r.queue == Shuffle.Shuffle(trackList, choices))
              && (!p.isShuffling ==> r.queue == trackList)
              && multiset(r.queue) == multiset(trackList)
              && ValidIndex(r)
              && (HasId(r.queue, KeyOf(track)) ==>
                    r.queue[r.currentIndex].id == KeyOf(track) &&
                    forall i :: 0 <= i < r.currentIndex ==> r.queue[i].id != KeyOf(track))
              && (!HasId(r.queue, KeyOf(track)) ==> r.currentIndex == 0)
              && r.isPlaying
              && r.recentlyPlayed == Ledger.AddToRecentlyPlayed(p.recentlyPlayed, track)
              && r.recentlyPlayed[0] == track.value
              && r.isShuffling == p.isShuffling && r.isRepeating == p.isRepeating
              && r.favorites == p.favorites
  {
    if !HasKey(track) then p
    else
      var list := if p.isShuffling then Shuffle.Shuffle(trackList, choices) else trackList;
      var index := FindIndex(list, KeyOf(track));
      p.(queue := list,
         currentIndex := if index >= 0 then index else 0,
         isPlaying := true,
         recentlyPlayed := Ledger.AddToRecentlyPlayed(p.recentlyPlayed, track))
  }

  /**
   * `playNext`: move to the following track, wrapping around at the end,
   * or to the drawn position `pick` when shuffle is on.
   */
  function PlayNext(p: PlayerState, pick: int): (r: PlayerState)
    requires p.isShuffling && |p.queue| > 0 ==> 0 <= pick < |p.queue|
    ensures |p.queue| == 0 ==> r == p
    ensures |p.queue| > 0 ==>
              && r.queue == p.queue && r.isPlaying
              && (p.isShuffling ==> r.currentIndex == pick)
              && (!p.isShuffling && ValidIndex(p) ==>
                    r.currentIndex == if p.currentIndex + 1 < |p.queue| then p.currentIndex + 1 else 0)
              && r.recentlyPlayed == Ledger.AddToRecentlyPlayed(p.recentlyPlayed, CurrentTrack(r))
              && r.isShuffling == p.isShuffling && r.isRepeating == p.isRepeating
              && r.favorites == p.favorites
    ensures ValidIndex(p) ==> ValidIndex(r)
  {
    if |p.queue| == 0 then p
    else
      var n := |p.queue|;
      var next := if p.isShuffling then pick else Js.Rem(p.currentIndex + 1, n);
      p.(currentIndex := next,
         isPlaying := true,
         recentlyPlayed := Ledger.AddToRecentlyPlayed(p.recentlyPlayed, Lookup(p.queue, next)))
  }

  /** `playPrevious`: move to the preceding track, wrapping around at the start; shuffle plays no part. */
  function PlayPrevious(p: PlayerState): (r: PlayerState)
    ensures |p.queue| == 0 ==> r == p
    ensures |p.queue| > 0 ==>
              && r.queue == p.queue && r.isPlaying
              && (ValidIndex(p) ==>
                    r.currentIndex == if p.currentIndex > 0 then p.currentIndex - 1 else |p.queue| - 1)
              && r.recentlyPlayed == Ledger.AddToRecentlyPlayed(p.recentlyPlayed, CurrentTrack(r))
              && r.isShuffling == p.isShuffling && r.isRepeating == p.isRepeating
              && r.favorites == p.favorites
    ensures ValidIndex(p) ==> ValidIndex(r)
  {
    if |p.queue| == 0 then p
    else
      var n := |p.queue|;
      var prev := Js.Rem(p.currentIndex - 1 + n, n);
      p.(currentIndex := prev,
         isPlaying := true,
         recentlyPlayed := Ledger.AddToRecentlyPlayed(p.recentlyPlayed, Lookup(p.queue, prev)))
  }

  /** `togglePlay`: flips the playing flag and nothing else. */
  function TogglePlay(p: PlayerState): (r: PlayerState)
    ensures r.isPlaying != p.isPlaying && r.(isPlaying := p.isPlaying) == p
  {
    p.(isPlaying := !p.isPlaying)
  }

  /** `toggleShuffle`: flips the shuffle flag and nothing else; the queue is not reordered. */
  function ToggleShuffle(p: PlayerState): (r: PlayerState)
    ensures r.isShuffling != p.isShuffling && r.(isShuffling := p.isShuffling) == p
  {
    p.(isShuffling := !p.isShuffling)
  }

  /** `toggleRepeat`: flips the repeat flag and nothing else. */
  function ToggleRepeat(p: PlayerState): (r: PlayerState)
    ensures r.isRepeating != p.isRepeating && r.(isRepeating := p.isRepeating) == p
  {
    p.(isRepeating := !p.isRepeating)
  }

  /** `toggleFavorite` on the player state: only the favorites change. */
  function ToggleFavorite(p: PlayerState, track: Option<Track>): (r: PlayerState)
    ensures r.(favorites := p.favorites) == p
    ensures r.favorites == Ledger.ToggleFavorite(p.favorites, track)
    ensures !HasKey(track) ==> r == p
    ensures HasKey(track) ==> IsFavorite(r, track) == !IsFavorite(p, track)
  {
    if HasKey(track) then
      Ledger.ToggleFlipsOnlyThatTrack(p.favorites, track, track);
      p.(favorites := Ledger.ToggleFavorite(p.favorites, track))
    else p
  }

  /** `isFavorite` on the player state. */
  function IsFavorite(p: PlayerState, track: Option<Track>): (b: bool)
    ensures b <==> KeyOf(track) in Ids(p.favorites)
  {
    Ledger.IsFavorite(p.favorites, track)
  }

  /**
   * The context's handler for the end of a track: with repeat on the same
   * track restarts from zero and the state stays as it is; otherwise the
   * queue advances as `playNext` does.
   */
  function HandleEnded(p: PlayerState, pick: int): (r: PlayerState)
    requires p.isShuffling && |p.queue| > 0 ==> 0 <= pick < |p.queue|
    ensures p.isRepeating ==> r == p
    ensures !p.isRepeating ==> r == PlayNext(p, pick)
  {
    if p.isRepeating then p else PlayNext(p, pick)
  }

  /**
   * What the running application does at the end of a track: the player
   * bar's own audio element calls `playNext` directly, whatever the repeat
   * flag says, because the context's handler is attached to an audio
   * reference that no element uses.
   */
  function EndedAsWired(p: PlayerState, pick: int): (r: PlayerState)
    requires p.isShuffling && |p.queue| > 0 ==> 0 <= pick < |p.queue|
    ensures r == PlayNext(p, pick)
    ensures r.isRepeating == p.isRepeating && r.isShuffling == p.isShuffling && r.queue == p.queue
    ensures |p.queue| > 0 ==> r.isPlaying
    ensures !p.isShuffling && ValidIndex(p) && |p.queue| > 0 ==>
              r.currentIndex == if p.currentIndex + 1 < |p.queue| then p.currentIndex + 1 else 0
  {
    PlayNext(p, pick)
  }

  /**
   * For every state with repeat on, shuffle off and at least two queued
   * tracks, the wired handler leaves the current position while the
   * context's handler keeps it.
   */
  lemma RepeatIgnoredWhenWired(p: PlayerState, pick: int)
    requires p.isRepeating && !p.isShuffling && ValidIndex(p) && |p.queue| >= 2
    ensures EndedAsWired(p, pick).currentIndex != p.currentIndex
    ensures HandleEnded(p, pick).currentIndex == p.currentIndex
  {
  }

  /** With repeat on and two tracks queued, the wired handler still leaves the current track. */
  lemma RepeatIgnoredAsWired()
    ensures var a := Track(Some(1), "A", "", "", "");
            var b := Track(Some(2), "B", "", "", "");
            var p := PlayerState([a, b], 0, true, false, true, [], []);
            && p.isRepeating
            && CurrentTrack(EndedAsWired(p, 0)) == Some(b)
            && CurrentTrack(HandleEnded(p, 0)) == Some(a)
  {
  }
}
