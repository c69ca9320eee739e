/**
 * Laws of the queue engine that relate several transitions: wrap-around
 * closure of `playNext`, `playPrevious` as its inverse, where a shuffled
 * start lands, and the state invariant every command keeps.
 */
module QueueLaws {
  import opened Wrappers
  import opened Tracks
  import Ledger
  import Shuffle
  import opened Player

  /** `k` presses of "next" with shuffle off (the draw is then unused). */
  function Advance(p: PlayerState, k: nat): (r: PlayerState)
    requires !p.isShuffling
    ensures !r.isShuffling && r.queue == p.queue
    ensures ValidIndex(p) ==> ValidIndex(r)
    decreases k
  {
    if k == 0 then p else Advance(PlayNext(p, 0), k - 1)
  }

  /** Where `k` steps forward from position `i` land in a ring of `n` positions, within one lap. */
  function Forward(i: int, k: int, n: int): int {
    if i + k < n then i + k else i + k - n
  }

  /**
   * Within one lap, `k` presses move the position `k` places forward,
   * wrapping past the end of the queue back to its start.
   */
  lemma {:induction false} AdvanceIndex(p: PlayerState, k: nat)
    requires !p.isShuffling && ValidIndex(p) && |p.queue| > 0 && k <= |p.queue|
    ensures Advance(p, k).currentIndex == Forward(p.currentIndex, k, |p.queue|)
    decreases k
  {
    if k > 0 {
      NextIndex(p);
      AdvanceIndex(PlayNext(p, 0), k - 1);
      AdvanceIndexStep(p, k);
    }
  }

  /** One step of the induction: the first press, then `k - 1` more from where it lands. */
  lemma AdvanceIndexStep(p: PlayerState, k: nat)
    requires !p.isShuffling && ValidIndex(p) && |p.queue| > 0 && 0 < k <= |p.queue|
    requires Advance(PlayNext(p, 0), k - 1).currentIndex ==
             Forward(PlayNext(p, 0).currentIndex, k - 1, |p.queue|)
    ensures Advance(p, k).currentIndex == Forward(p.currentIndex, k, |p.queue|)
  {
    NextIndex(p);
  }

  /** One press of "next" with shuffle off moves one place forward, wrapping at the end. */
  lemma NextIndex(p: PlayerState)
    requires !p.isShuffling && ValidIndex(p) && |p.queue| > 0
    ensures var q := PlayNext(p, 0);
            && q.currentIndex == (if p.currentIndex + 1 < |p.queue| then p.currentIndex + 1 else 0)
            && ValidIndex(q) && q.queue == p.queue && !q.isShuffling
  {
  }

  /** Pressing "next" as many times as there are tracks comes back to the starting track. */
  lemma NextWrapsAround(p: PlayerState)
    requires !p.isShuffling && ValidIndex(p) && |p.queue| > 0
    ensures Advance(p, |p.queue|).currentIndex == p.currentIndex
    ensures Advance(p, |p.queue|).queue == p.queue
  {
    AdvanceIndex(p, |p.queue|);
  }

  /**
   * With shuffle off, "previous" after "next" and "next" after "previous"
   * each return to the starting position and keep the queue. The history
   * and the playing flag are not restored.
   */
  lemma PreviousInvertsNext(p: PlayerState, pick: int)
    requires !p.isShuffling && ValidIndex(p)
    ensures PlayPrevious(PlayNext(p, pick)).currentIndex == p.currentIndex
    ensures PlayNext(PlayPrevious(p), pick).currentIndex == p.currentIndex
    ensures PlayPrevious(PlayNext(p, pick)).queue == p.queue
    ensures PlayNext(PlayPrevious(p), pick).queue == p.queue
  {
  }

  /** With shuffle on, "next" can land on every position of the queue. */
  lemma ShuffledNextReachesEveryPosition(p: PlayerState, i: int)
    requires p.isShuffling && 0 <= i < |p.queue|
    ensures PlayNext(p, i).currentIndex == i
    ensures CurrentTrack(PlayNext(p, i)) == Some(p.queue[i])
  {
  }

  /**
   * Starting a track that is in the list, with shuffle on or off, yields a
   * permutation of the list whose current track has the started track's id.
   */
  lemma StartLandsOnTrack(p: PlayerState, track: Option<Track>, trackList: seq<Track>, choices: seq<int>)
    requires HasKey(track) && HasId(trackList, KeyOf(track))
    requires p.isShuffling ==> |choices| == |trackList| && Shuffle.ValidChoices(choices)
    ensures var r := PlayTrack(p, track, trackList, choices);
            && multiset(r.queue) == multiset(trackList)
            && CurrentTrack(r).Some?
            && CurrentTrack(r).value.id == KeyOf(track)
  {
    var r := PlayTrack(p, track, trackList, choices);
    var i :| 0 <= i < |trackList| && trackList[i].id == KeyOf(track);
    assert trackList[i] in multiset(r.queue);
    var j :| 0 <= j < |r.queue| && r.queue[j] == trackList[i];
  }

  /** Three presses of "next" over the queue A, B, C starting at A visit B, then C, then A again. */
  lemma AdvanceScenario()
    ensures var q := [Track(Some(1), "A", "", "", ""), Track(Some(2), "B", "", "", ""), Track(Some(3), "C", "", "", "")];
            var p := PlayerState(q, 0, false, false, false, [], []);
            && Advance(p, 1).currentIndex == 1
            && Advance(p, 2).currentIndex == 2
            && Advance(p, 3).currentIndex == 0
  {
    var q := [Track(Some(1), "A", "", "", ""), Track(Some(2), "B", "", "", ""), Track(Some(3), "C", "", "", "")];
    var p := PlayerState(q, 0, false, false, false, [], []);
    AdvanceIndex(p, 1);
    AdvanceIndex(p, 2);
    AdvanceIndex(p, 3);
  }

  /** The toggles undo themselves. */
  lemma TogglesAreInvolutions(p: PlayerState)
    ensures TogglePlay(TogglePlay(p)) == p
    ensures ToggleShuffle(ToggleShuffle(p)) == p
    ensures ToggleRepeat(ToggleRepeat(p)) == p
  {
  }

  /** Every command the context exposes, with its draws. */
  datatype Command =
    | PlayTrackCmd(track: Option<Track>, trackList: seq<Track>, choices: seq<int>)
    | NextCmd(pick: int)
    | PreviousCmd
    | TogglePlayCmd
    | ToggleShuffleCmd
    | ToggleRepeatCmd
    | ToggleFavoriteCmd(favorite: Option<Track>)
    | EndedCmd(endPick: int)

  /** The draws a command carries lie in the ranges `Math.random` gives. */
  predicate DrawsInRange(p: PlayerState, c: Command) {
    match c
    case PlayTrackCmd(track, list, choices) =>
      HasKey(track) && p.isShuffling ==> |choices| == |list| && Shuffle.ValidChoices(choices)
    case NextCmd(pick) => p.isShuffling && |p.queue| > 0 ==> 0 <= pick < |p.queue|
    case EndedCmd(pick) => p.isShuffling && |p.queue| > 0 ==> 0 <= pick < |p.queue|
    case _ => true
  }

  function Apply(p: PlayerState, c: Command): PlayerState
    requires DrawsInRange(p, c)
  {
    match c
    case PlayTrackCmd(track, list, choices) => PlayTrack(p, track, list, choices)
    case NextCmd(pick) => PlayNext(p, pick)
    case PreviousCmd => PlayPrevious(p)
    case TogglePlayCmd => TogglePlay(p)
    case ToggleShuffleCmd => ToggleShuffle(p)
    case ToggleRepeatCmd => ToggleRepeat(p)
    case ToggleFavoriteCmd(t) => ToggleFavorite(p, t)
    case EndedCmd(pick) => HandleEnded(p, pick)
  }

  /** Recording a queued track keeps the history well formed. */
  lemma RecordKeepsHistory(recent: seq<Track>, track: Option<Track>)
    requires NoDupIds(recent) && AllKeyed(recent) && |recent| <= Ledger.RecentCap
    ensures var r := Ledger.AddToRecentlyPlayed(recent, track);
            NoDupIds(r) && AllKeyed(r) && |r| <= Ledger.RecentCap
  {
    var r := Ledger.AddToRecentlyPlayed(recent, track);
    if HasKey(track) {
      forall i | 0 <= i < |r| ensures HasKey(Some(r[i])) {
        if i > 0 {
          assert r[i] in recent;
        }
      }
    }
  }

  /**
   * Every command keeps the queue index valid, both ledger lists free of
   * duplicate ids and of entries without an id, and the history within its cap.
   */
  lemma CommandsKeepWellFormed(p: PlayerState, c: Command)
    requires WellFormed(p) && DrawsInRange(p, c)
    ensures WellFormed(Apply(p, c))
  {
    match c
    case PlayTrackCmd(track, list, choices) =>
      RecordKeepsHistory(p.recentlyPlayed, track);
    case NextCmd(pick) =>
      RecordKeepsHistory(p.recentlyPlayed, CurrentTrack(PlayNext(p, pick)));
    case PreviousCmd =>
      RecordKeepsHistory(p.recentlyPlayed, CurrentTrack(PlayPrevious(p)));
    case ToggleFavoriteCmd(t) =>
      Ledger.ToggleKeepsWellFormed(p.favorites, t);
    case EndedCmd(pick) =>
      RecordKeepsHistory(p.recentlyPlayed, CurrentTrack(PlayNext(p, pick)));
    case _ =>
  }
}
