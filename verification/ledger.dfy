/**
 * The favorites and recently-played ledger of the player context: an
 * id-keyed toggle over an insertion-ordered list, and a most-recent-first
 * history list deduplicated by id and capped in length.
 */
module Ledger {
  import opened Wrappers
  import opened Tracks
  import Js

  /** The most entries the recently-played list keeps. */
  const RecentCap: nat := 20

  /**
   * `addToRecentlyPlayed`: without a truthy id nothing changes; otherwise
   * the track moves to the front, any older entry with its id goes, and the
   * list is cut to its first `RecentCap` entries.
   */
  function AddToRecentlyPlayed(recent: seq<Track>, track: Option<Track>): (r: seq<Track>)
    ensures !HasKey(track) ==> r == recent
    ensures HasKey(track) ==> 1 <= |r| <= RecentCap && r[0] == track.value
    ensures HasKey(track) ==> forall i :: 1 <= i < |r| ==> r[i].id != KeyOf(track) && r[i] in recent
    ensures HasKey(track) ==>
              var rest := RemoveId(recent, KeyOf(track));
              |r| - 1 <= |rest| && r[1..] == rest[..|r| - 1]
    ensures HasKey(track) ==>
              var rest := RemoveId(recent, KeyOf(track));
              |r| == if |rest| + 1 < RecentCap then |rest| + 1 else RecentCap
    ensures HasKey(track) ==>
              forall i :: 0 <= i < |recent| && recent[i].id != KeyOf(track) ==> recent[i] in r || |r| == RecentCap
    ensures HasKey(track) && HasId(recent, KeyOf(track)) ==> |r| <= |recent|
    ensures HasKey(track) && !HasId(recent, KeyOf(track)) ==>
              |r| == if |recent| < RecentCap then |recent| + 1 else RecentCap
    ensures NoDupIds(recent) ==> NoDupIds(r)
  {
    if !HasKey(track) then recent
    else
      var t := track.value;
      var rest := RemoveId(recent, t.id);
      PrependFacts(t, rest);
      NoDupIdsRemoveId(recent, t.id);
      Js.Slice([t] + rest, RecentCap)
  }

  /** Putting `t` before a list without its id and cutting to the cap keeps `t` first and the rest in order. */
  lemma PrependFacts(t: Track, rest: seq<Track>)
    requires forall i :: 0 <= i < |rest| ==> rest[i].id != t.id
    ensures var r := Js.Slice([t] + rest, RecentCap);
            && |r| == (if |rest| + 1 < RecentCap then |rest| + 1 else RecentCap)
            && r[0] == t
            && (forall i :: 1 <= i < |r| ==> r[i] == rest[i - 1])
            && r[1..] == rest[..|r| - 1]
            && (forall i :: 0 <= i < |rest| ==> rest[i] in r || |r| == RecentCap)
            && (NoDupIds(rest) ==> NoDupIds(r))
  {
    var r := Js.Slice([t] + rest, RecentCap);
    assert forall i :: 1 <= i < |r| ==> r[i] == rest[i - 1];
    assert r[1..] == rest[..|r| - 1];
    forall i | 0 <= i < |rest| && |r| < RecentCap ensures rest[i] in r {
      assert r[i + 1] == rest[i];
    }
    if NoDupIds(rest) {
      forall i, j | 0 <= i < j < |r| ensures r[i].id != r[j].id {
        if i > 0 {
          assert r[i] == rest[i - 1] && r[j] == rest[j - 1];
        }
      }
    }
  }

  /** `toggleFavorite`: remove every entry with the track's id if there is one, otherwise append the track. */
  function ToggleFavorite(favorites: seq<Track>, track: Option<Track>): (r: seq<Track>)
    ensures !HasKey(track) ==> r == favorites
    ensures HasKey(track) && HasId(favorites, KeyOf(track)) ==>
              && r == RemoveId(favorites, KeyOf(track))
              && !HasId(r, KeyOf(track)) && |r| < |favorites|
              && (forall i :: 0 <= i < |r| ==> r[i] in favorites)
              && (forall i :: 0 <= i < |favorites| && favorites[i].id != KeyOf(track) ==> favorites[i] in r)
    ensures HasKey(track) && !HasId(favorites, KeyOf(track)) ==>
              |r| == |favorites| + 1 && r[..|favorites|] == favorites && r[|favorites|] == track.value
  {
    if !HasKey(track) then favorites
    else if HasId(favorites, KeyOf(track)) then
      RemoveId(favorites, KeyOf(track))
    else favorites + [track.value]
  }

  /**
   * `isFavorite`: some favorite has the same id as the (possibly undefined)
   * track, so an undefined track is compared by an undefined id.
   */
  function IsFavorite(favorites: seq<Track>, track: Option<Track>): (b: bool)
    ensures b <==> KeyOf(track) in Ids(favorites)
    ensures b <==> FindIndex(favorites, KeyOf(track)) != -1
    ensures track.None? && AllKeyed(favorites) ==> !b
  {
    HasId(favorites, KeyOf(track))
  }

  /** A toggle flips the track's favorite status and no other track's. */
  lemma ToggleFlipsOnlyThatTrack(favorites: seq<Track>, track: Option<Track>, other: Option<Track>)
    requires HasKey(track)
    ensures IsFavorite(ToggleFavorite(favorites, track), track) == !IsFavorite(favorites, track)
    ensures KeyOf(other) != KeyOf(track) ==>
              IsFavorite(ToggleFavorite(favorites, track), other) == IsFavorite(favorites, other)
  {
    var r := ToggleFavorite(favorites, track);
    var k := KeyOf(track);
    if !IsFavorite(favorites, track) {
      assert r[|favorites|].id == k;
    }
    if KeyOf(other) != k {
      var ko := KeyOf(other);
      if HasId(favorites, ko) {
        var i :| 0 <= i < |favorites| && favorites[i].id == ko;
        if HasId(favorites, k) {
          assert favorites[i] in r;
          var j :| 0 <= j < |r| && r[j] == favorites[i];
        } else {
          assert r[i] == favorites[i];
        }
      }
      if HasId(r, ko) {
        var i :| 0 <= i < |r| && r[i].id == ko;
        if HasId(favorites, k) {
          assert r[i] in favorites;
          var j :| 0 <= j < |favorites| && favorites[j] == r[i];
        } else {
          assert i < |favorites| && favorites[i] == r[i];
        }
      }
    }
  }

  /** Toggling a track that is not a favorite twice gives back exactly the original list. */
  lemma ToggleTwiceRestoresAbsent(favorites: seq<Track>, track: Option<Track>)
    requires !IsFavorite(favorites, track)
    ensures ToggleFavorite(ToggleFavorite(favorites, track), track) == favorites
  {
    if HasKey(track) {
      var once := ToggleFavorite(favorites, track);
      assert once[|favorites|].id == KeyOf(track);
      RemoveIdLast(favorites, track.value);
    }
  }

  /** Toggling any track twice gives back the original set of favorite ids. */
  lemma ToggleTwiceRestoresIds(favorites: seq<Track>, track: Option<Track>)
    ensures Ids(ToggleFavorite(ToggleFavorite(favorites, track), track)) == Ids(favorites)
  {
    if HasKey(track) && IsFavorite(favorites, track) {
      var k := KeyOf(track);
      var once := RemoveId(favorites, k);
      assert !HasId(once, k);
      IdsRemoveId(favorites, k);
      IdsAppend(once, track.value);
      var i :| 0 <= i < |favorites| && favorites[i].id == k;
      assert k in Ids(favorites);
    } else if HasKey(track) {
      ToggleTwiceRestoresAbsent(favorites, track);
    }
  }

  /**
   * Toggling a track that is already a favorite twice restores its id but
   * re-appends it at the end, so a favorite that was not last moves.
   */
  lemma ToggleTwiceMovesPresentToEnd()
    ensures var a := Track(Some(1), "A", "", "", "");
            var b := Track(Some(2), "B", "", "", "");
            ToggleFavorite(ToggleFavorite([a, b], Some(a)), Some(a)) == [b, a]
  {
    var a := Track(Some(1), "A", "", "", "");
    var b := Track(Some(2), "B", "", "", "");
    assert HasId([a, b], a.id) by { assert [a, b][0].id == a.id; }
    assert RemoveId([a, b], a.id) == [b] by {
      assert [a, b][1..] == [b];
      assert [b][1..] == [];
    }
  }

  /** Filtering the id of a freshly appended track removes just that track. */
  lemma RemoveIdLast(s: seq<Track>, t: Track)
    requires !HasId(s, t.id)
    ensures RemoveId(s + [t], t.id) == s
  {
    RemoveIdAppend(s, [t], t.id);
    assert RemoveId([t], t.id) == [];
  }

  /**
   * The toggle keeps favorites free of duplicate ids, and separately free of
   * entries without an id: each half needs only its own hypothesis.
   */
  lemma ToggleKeepsWellFormed(favorites: seq<Track>, track: Option<Track>)
    ensures NoDupIds(favorites) ==> NoDupIds(ToggleFavorite(favorites, track))
    ensures AllKeyed(favorites) ==> AllKeyed(ToggleFavorite(favorites, track))
  {
    var r := ToggleFavorite(favorites, track);
    if HasKey(track) && IsFavorite(favorites, track) {
      NoDupIdsRemoveId(favorites, KeyOf(track));
      if AllKeyed(favorites) {
        forall i | 0 <= i < |r| ensures HasKey(Some(r[i])) {
          assert r[i] in favorites;
        }
      }
    } else if HasKey(track) && NoDupIds(favorites) {
      forall i, j | 0 <= i < j < |r| ensures r[i].id != r[j].id {
        if j == |favorites| {
          assert favorites[i].id != KeyOf(track);
        }
      }
    }
  }

  /** An undefined track is never reported as a favorite while every favorite has an id. */
  lemma UndefinedIsNotFavorite(favorites: seq<Track>)
    requires AllKeyed(favorites)
    ensures !IsFavorite(favorites, None)
  {
  }

  /** Playing the same track twice in a row records it once. */
  lemma RecentIdempotent(recent: seq<Track>, track: Option<Track>)
    ensures AddToRecentlyPlayed(AddToRecentlyPlayed(recent, track), track) == AddToRecentlyPlayed(recent, track)
  {
    if HasKey(track) {
      var once := AddToRecentlyPlayed(recent, track);
      var k := KeyOf(track);
      var tail := once[1..];
      assert once == [track.value] + tail;
      RemoveIdHead(track.value, tail);
    }
  }

  /** Filtering a track's id from a list headed by that track leaves the id-free tail. */
  lemma RemoveIdHead(t: Track, tail: seq<Track>)
    requires !HasId(tail, t.id)
    ensures RemoveId([t] + tail, t.id) == tail
  {
    assert ([t] + tail)[1..] == tail;
  }

  /** Recording a new id in a full history drops exactly the oldest entry. */
  lemma RecentEvictsOldest(recent: seq<Track>, track: Option<Track>)
    requires HasKey(track) && !HasId(recent, KeyOf(track)) && |recent| >= RecentCap
    ensures AddToRecentlyPlayed(recent, track) == [track.value] + recent[..RecentCap - 1]
  {
  }
}
