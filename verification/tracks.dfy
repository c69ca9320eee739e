/**
 * Tracks as the player sees them, and the id-keyed list helpers the player
 * context builds its operations from (`filter`, `some`, `findIndex` and
 * array indexing, all comparing ids with `===`).
 */
module Tracks {
  import opened Wrappers

  /**
   * A normalized catalog track. `id == None` is a record whose `id` is
   * undefined. The other fields are carried along and never inspected; they
   * only make two tracks with the same id distinct values.
   */
  datatype Track = Track(id: Option<int>, title: string, artist: string, album: string, preview: string)

  /** `track?.id`: the id of a track argument that may itself be undefined. */
  function KeyOf(track: Option<Track>): Option<int> {
    if track.Some? then track.value.id else None
  }

  /** `!!track?.id`: the track is defined and its id is truthy (present and non-zero). */
  predicate HasKey(track: Option<Track>) {
    KeyOf(track).Some? && KeyOf(track).value != 0
  }

  /** `list.some((t) => t.id === key)`. */
  predicate HasId(s: seq<Track>, key: Option<int>) {
    exists i :: 0 <= i < |s| && s[i].id == key
  }

  /** No id occurs at two positions. */
  predicate NoDupIds(s: seq<Track>) {
    forall i, j :: 0 <= i < j < |s| ==> s[i].id != s[j].id
  }

  /** Every entry has a truthy id, as every entry the ledger inserts does. */
  predicate AllKeyed(s: seq<Track>) {
    forall i :: 0 <= i < |s| ==> HasKey(Some(s[i]))
  }

  /** The set of ids occurring in `s`. */
  function Ids(s: seq<Track>): set<Option<int>> {
    set i | 0 <= i < |s| :: s[i].id
  }

  /** `list.filter((t) => t.id !== key)`. */
  function RemoveId(s: seq<Track>, key: Option<int>): (r: seq<Track>)
    ensures |r| <= |s|
    ensures forall i :: 0 <= i < |r| ==> r[i].id != key && r[i] in s
    ensures forall i :: 0 <= i < |s| && s[i].id != key ==> s[i] in r
    ensures HasId(s, key) ==> |r| < |s|
    ensures !HasId(s, key) ==> r == s
    ensures |s| == 1 ==> r == if s[0].id != key then s else []
  {
    if |s| == 0 then []
    else
      var rest := RemoveId(s[1..], key);
      HasIdCons(s, key);
      assert |s| == 1 ==> rest == [];
      if s[0].id != key then
        assert [s[0]] + s[1..] == s;
        RemoveIdConsKept(s, key, rest);
        [s[0]] + rest
      else rest
  }

  /** Keeping the head in front of the filtered tail keeps and drops what `filter` does. */
  lemma RemoveIdConsKept(s: seq<Track>, key: Option<int>, rest: seq<Track>)
    requires |s| > 0 && s[0].id != key
    requires forall i :: 0 <= i < |rest| ==> rest[i].id != key && rest[i] in s[1..]
    requires forall i :: 0 <= i < |s| - 1 && s[1..][i].id != key ==> s[1..][i] in rest
    ensures forall i :: 0 <= i < |rest| + 1 ==> ([s[0]] + rest)[i].id != key && ([s[0]] + rest)[i] in s
    ensures forall i :: 0 <= i < |s| && s[i].id != key ==> s[i] in [s[0]] + rest
  {
    var r := [s[0]] + rest;
    forall i | 0 <= i < |r| ensures r[i].id != key && r[i] in s {
      if i > 0 {
        assert r[i] == rest[i - 1];
        var j :| 0 <= j < |s| - 1 && s[1..][j] == rest[i - 1];
        assert s[j + 1] == r[i];
      }
    }
    forall i | 0 <= i < |s| && s[i].id != key ensures s[i] in r {
      if i > 0 {
        assert s[i] == s[1..][i - 1];
        var j :| 0 <= j < |rest| && rest[j] == s[i];
        assert r[j + 1] == s[i];
      }
    }
  }

  /** An id occurs in a non-empty list when it is the head's or occurs in the tail. */
  lemma HasIdCons(s: seq<Track>, key: Option<int>)
    requires |s| > 0
    ensures HasId(s, key) <==> s[0].id == key || HasId(s[1..], key)
  {
    if HasId(s[1..], key) {
      var i :| 0 <= i < |s| - 1 && s[1..][i].id == key;
      assert s[i + 1].id == key;
    }
    if HasId(s, key) && s[0].id != key {
      var i :| 0 <= i < |s| && s[i].id == key;
      assert s[1..][i - 1].id == key;
    }
  }

  /** The ids left after removing `key` are exactly the other ids. */
  lemma IdsRemoveId(s: seq<Track>, key: Option<int>)
    ensures Ids(RemoveId(s, key)) == Ids(s) - {key}
  {
    var r := RemoveId(s, key);
    forall k | k in Ids(r) ensures k in Ids(s) - {key} {
      var i :| 0 <= i < |r| && r[i].id == k;
      KeptEntryIsOld(s, key, i);
    }
    forall k | k in Ids(s) - {key} ensures k in Ids(r) {
      var i :| 0 <= i < |s| && s[i].id == k;
      OtherEntryIsKept(s, key, i);
    }
  }

  /** An entry left by the filter has another id and comes from the list. */
  lemma KeptEntryIsOld(s: seq<Track>, key: Option<int>, i: int)
    requires 0 <= i < |RemoveId(s, key)|
    ensures var t := RemoveId(s, key)[i];
            t.id != key && t.id in Ids(s)
  {
    var t := RemoveId(s, key)[i];
    assert t in s;
    var j :| 0 <= j < |s| && s[j] == t;
  }

  /** An entry with another id survives the filter. */
  lemma OtherEntryIsKept(s: seq<Track>, key: Option<int>, i: int)
    requires 0 <= i < |s| && s[i].id != key
    ensures s[i].id in Ids(RemoveId(s, key))
  {
    var r := RemoveId(s, key);
    assert s[i] in r;
    var j :| 0 <= j < |r| && r[j] == s[i];
  }

  /**
   * Filtering a concatenation filters each part. With the one-entry case
   * in the contract of `RemoveId`, this pins the filter down completely:
   * the kept entries stay in their original order.
   */
  lemma {:induction false} RemoveIdAppend(s: seq<Track>, u: seq<Track>, key: Option<int>)
    ensures RemoveId(s + u, key) == RemoveId(s, key) + RemoveId(u, key)
  {
    if |s| == 0 {
      assert s + u == u;
    } else {
      assert (s + u)[1..] == s[1..] + u;
      RemoveIdAppend(s[1..], u, key);
    }
  }

  /** The ids of a list with one more track are the old ids and that track's. */
  lemma IdsAppend(s: seq<Track>, t: Track)
    ensures Ids(s + [t]) == Ids(s) + {t.id}
  {
    var st := s + [t];
    forall k | k in Ids(st) ensures k in Ids(s) + {t.id} {
      var i :| 0 <= i < |st| && st[i].id == k;
      if i < |s| { assert s[i] == st[i]; }
    }
    forall k | k in Ids(s) + {t.id} ensures k in Ids(st) {
      if k == t.id {
        assert st[|s|].id == k;
      } else {
        var i :| 0 <= i < |s| && s[i].id == k;
        assert st[i] == s[i];
      }
    }
  }

  /** Filtering keeps the remaining ids pairwise distinct. */
  lemma {:induction false} NoDupIdsRemoveId(s: seq<Track>, key: Option<int>)
    ensures NoDupIds(s) ==> NoDupIds(RemoveId(s, key))
  {
    if |s| > 0 && NoDupIds(s) {
      assert NoDupIds(s[1..]) by {
        forall i, j | 0 <= i < j < |s| - 1 ensures s[1..][i].id != s[1..][j].id {
          assert s[1..][i] == s[i + 1] && s[1..][j] == s[j + 1];
        }
      }
      NoDupIdsRemoveId(s[1..], key);
      if s[0].id != key {
        ConsNoDupIds(s[0], RemoveId(s[1..], key), s[1..]);
      }
    }
  }

  /** Putting a track in front of a duplicate-free list drawn from tracks with other ids keeps it duplicate-free. */
  lemma ConsNoDupIds(t: Track, rest: seq<Track>, pool: seq<Track>)
    requires NoDupIds(rest) && !HasId(pool, t.id)
    requires forall i :: 0 <= i < |rest| ==> rest[i] in pool
    ensures NoDupIds([t] + rest)
  {
    var r := [t] + rest;
    forall i, j | 0 <= i < j < |r| ensures r[i].id != r[j].id {
      if i == 0 {
        assert r[j] == rest[j - 1] && rest[j - 1] in pool;
        var k :| 0 <= k < |pool| && pool[k] == rest[j - 1];
      } else {
        assert r[i] == rest[i - 1] && r[j] == rest[j - 1];
      }
    }
  }

  /**
   * `list.findIndex((t) => t.id === key)`: the first position holding `key`,
   * or -1 when there is none.
   */
  function FindIndex(s: seq<Track>, key: Option<int>): (r: int)
    ensures -1 <= r < |s|
    ensures r == -1 <==> !HasId(s, key)
    ensures r >= 0 ==> s[r].id == key && forall i :: 0 <= i < r ==> s[i].id != key
  {
    if |s| == 0 then -1
    else if s[0].id == key then 0
    else
      var k := FindIndex(s[1..], key);
      assert HasId(s, key) ==> HasId(s[1..], key) by {
        if HasId(s, key) {
          var i :| 0 <= i < |s| && s[i].id == key;
          assert s[1..][i - 1].id == key;
        }
      }
      if k == -1 then -1 else k + 1
  }

  /** Array indexing `queue[i]`: undefined outside the bounds. */
  function Lookup(s: seq<Track>, i: int): (r: Option<Track>)
    ensures r.Some? <==> 0 <= i < |s|
    ensures r.Some? ==> r.value == s[i]
  {
    if 0 <= i < |s| then Some(s[i]) else None
  }
}
