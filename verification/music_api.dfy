/**
 * The pure part of the catalog client: the requests it sends through the
 * proxy and the shaping of each parsed response into the records the pages
 * use. The fetch itself is not modelled; each operation takes the parsed
 * response body as an argument. A `TypeError` is what the source would
 * throw (and rethrow from its `catch`) on a response of the wrong shape.
 */
module MusicApi {
  import opened Wrappers
  import opened Js

  /** A catalog request: the path forwarded to the proxy and its query parameters. */
  datatype Request = Request(path: string, params: seq<(string, Json)>)

  /** The fields a normalized track keeps. */
  const TrackFields: set<string> := {"id", "title", "artist", "album", "preview"}

  /** The fields a normalized playlist keeps. */
  const PlaylistFields: set<string> := {"id", "title", "picture_medium"}

  /** The catalog playlist the trending list is read from. */
  const TrendingPlaylistPath: string := "playlist/1111142221"

  const ChartPlaylistsPath: string := "chart/0/playlists"
  const SearchPath: string := "search"

  /** The object holding exactly the given fields of `v`, each read as `v.field`. */
  function Project(v: Json, keys: set<string>): Json {
    Obj(map k | k in keys :: Get(v, k))
  }

  /** `normalizeTrack`: a falsy entry becomes `null`; anything else keeps exactly the track fields. */
  function NormalizeTrack(v: Json): (r: Json)
    ensures r == Null <==> !Truthy(v)
    ensures Truthy(v) ==>
              r.Obj? && r.fields.Keys == TrackFields &&
              forall k :: k in TrackFields ==> r.fields[k] == Get(v, k)
  {
    if !Truthy(v) then Null else Project(v, TrackFields)
  }

  /** `normalizePlaylist`: a falsy entry becomes `null`; anything else keeps id, title and cover. */
  function NormalizePlaylist(v: Json): (r: Json)
    ensures r == Null <==> !Truthy(v)
    ensures Truthy(v) ==>
              r.Obj? && r.fields.Keys == PlaylistFields &&
              forall k :: k in PlaylistFields ==> r.fields[k] == Get(v, k)
  {
    if !Truthy(v) then Null else Project(v, PlaylistFields)
  }

  /** Normalizing an already normalized record changes nothing. */
  lemma NormalizeIdempotent(v: Json)
    ensures NormalizeTrack(NormalizeTrack(v)) == NormalizeTrack(v)
    ensures NormalizePlaylist(NormalizePlaylist(v)) == NormalizePlaylist(v)
  {
    if Truthy(v) {
      var t := NormalizeTrack(v);
      assert NormalizeTrack(t).fields == t.fields;
      var p := NormalizePlaylist(v);
      assert NormalizePlaylist(p).fields == p.fields;
    }
  }

  /** `v.a?.b`: the field `b` of `v.a`, or undefined when `v.a` is nullish. */
  function Chain(v: Json, a: string, b: string): Json {
    var inner := Get(v, a);
    if Nullish(inner) then Undefined else Get(inner, b)
  }

  /**
   * `xs?.map(f) || []`: undefined or null gives the empty list, an array is
   * mapped element by element, and anything else has no `map` to call.
   */
  function MapOrEmpty(xs: Json, f: Json -> Json): (r: Completion<seq<Json>>)
    ensures Nullish(xs) ==> r == Normal([])
    ensures xs.Arr? ==>
              r.Normal? && |r.value| == |xs.items| &&
              forall i :: 0 <= i < |xs.items| ==> r.value[i] == f(xs.items[i])
    ensures !Nullish(xs) && !xs.Arr? ==> r == TypeError
  {
    if Nullish(xs) then Normal([])
    else if xs.Arr? then Normal(Map(xs.items, f))
    else TypeError
  }

  function TrendingRequest(): Request {
    Request(TrendingPlaylistPath, [])
  }

  /**
   * `getTrendingTracks(limit)` on the fetched playlist: its tracks, cut to
   * `limit` as `slice(0, limit)` cuts, each normalized. A missing or falsy
   * `tracks.data` counts as no tracks.
   */
  function GetTrendingTracks(response: Json, limit: int): (r: Completion<seq<Json>>)
    ensures Nullish(response) ==> r == TypeError
    ensures !Nullish(response) && !Truthy(Chain(response, "tracks", "data")) ==> r == Normal([])
    ensures !Nullish(response) && Truthy(Chain(response, "tracks", "data")) && !Chain(response, "tracks", "data").Arr? ==>
              r == TypeError
    ensures !Nullish(response) && Chain(response, "tracks", "data").Arr? ==>
              var items := Chain(response, "tracks", "data").items;
              && r.Normal?
              && |r.value| == SliceEnd(|items|, limit)
              && forall i :: 0 <= i < |r.value| ==> r.value[i] == NormalizeTrack(items[i])
  {
    if Nullish(response) then TypeError
    else
      var data := Chain(response, "tracks", "data");
      var tracks := if Truthy(data) then data else Arr([]);
      if !tracks.Arr? then TypeError
      else Normal(Map(Slice(tracks.items, limit), NormalizeTrack))
  }

  /** A non-negative limit keeps the first `min(limit, n)` tracks, in their original order. */
  lemma TrendingKeepsLeadingTracks(response: Json, limit: int, i: int)
    requires !Nullish(response) && Chain(response, "tracks", "data").Arr? && limit >= 0
    ensures var items := Chain(response, "tracks", "data").items;
            var r := GetTrendingTracks(response, limit);
            && |r.value| == (if limit < |items| then limit else |items|)
            && (0 <= i < |r.value| ==> r.value[i] == NormalizeTrack(items[i]))
  {
  }

  /** The chart request carries the limit; the response is not cut on this side. */
  function TopChartRequest(limit: int): (r: Request)
    ensures r.path == ChartPlaylistsPath && r.params == [("limit", Num(limit))]
  {
    Request(ChartPlaylistsPath, [("limit", Num(limit))])
  }

  /** `getTopChartPlaylists` on the fetched chart: every entry of `data`, normalized one to one. */
  function GetTopChartPlaylists(response: Json): (r: Completion<seq<Json>>)
    ensures Nullish(response) ==> r == TypeError
    ensures !Nullish(response) && Nullish(Get(response, "data")) ==> r == Normal([])
    ensures !Nullish(response) && Get(response, "data").Arr? ==>
              r.Normal? && |r.value| == |Get(response, "data").items| &&
              forall i :: 0 <= i < |r.value| ==> r.value[i] == NormalizePlaylist(Get(response, "data").items[i])
    ensures !Nullish(response) && !Nullish(Get(response, "data")) && !Get(response, "data").Arr? ==> r == TypeError
  {
    if Nullish(response) then TypeError else MapOrEmpty(Get(response, "data"), NormalizePlaylist)
  }

  /**
   * Chart normalization never filters either: entry `i` of the result is
   * null exactly when entry `i` of the chart was falsy.
   */
  lemma ChartKeepsEveryEntry(response: Json, i: int)
    requires !Nullish(response) && Get(response, "data").Arr?
    requires 0 <= i < |Get(response, "data").items|
    ensures var r := GetTopChartPlaylists(response);
            i < |r.value| && (r.value[i] == Null <==> !Truthy(Get(response, "data").items[i]))
  {
  }

  /** The request for one playlist: the id is spliced into the path. */
  function PlaylistRequest(playlistId: string): Request {
    Request("playlist/" + playlistId, [])
  }

  /** Documentation only: the trending tracks are read by fetching one fixed playlist, as `getPlaylistById` would. */
  lemma TrendingIsPlaylistFetch()
    ensures TrendingRequest() == PlaylistRequest("1111142221")
  {
  }

  /** `o.key = v` on an object. */
  function SetField(o: Json, key: string, v: Json): (r: Json)
    requires o.Obj?
    ensures r.Obj? && r.fields.Keys == o.fields.Keys + {key} && r.fields[key] == v
    ensures forall k :: k in o.fields && k != key ==> r.fields[k] == o.fields[k]
  {
    Obj(o.fields[key := v])
  }

  /**
   * `getPlaylistById` on the fetched playlist: when `tracks` and
   * `tracks.data` are both truthy, `tracks.data` is replaced by its
   * normalized entries; everything else comes back as fetched.
   */
  function GetPlaylistById(response: Json): (r: Completion<Json>)
    ensures Nullish(response) ==> r == TypeError
    ensures !Nullish(response) && !(Truthy(Get(response, "tracks")) && Truthy(Chain(response, "tracks", "data"))) ==>
              r == Normal(response)
    ensures !Nullish(response) && Truthy(Get(response, "tracks")) && Truthy(Chain(response, "tracks", "data")) ==>
              var tracks := Get(response, "tracks");
              var data := Get(tracks, "data");
              && (!data.Arr? ==> r == TypeError)
              && (data.Arr? ==>
                    && r.Normal? && r.value.Obj?
                    && r.value.fields.Keys == response.fields.Keys
                    && (forall k :: k in response.fields && k != "tracks" ==> r.value.fields[k] == response.fields[k])
                    && var tracks' := r.value.fields["tracks"];
                       && tracks'.Obj? && tracks'.fields.Keys == tracks.fields.Keys
                       && (forall k :: k in tracks.fields && k != "data" ==> tracks'.fields[k] == tracks.fields[k])
                       && var data' := tracks'.fields["data"];
                          && data'.Arr? && |data'.items| == |data.items|
                          && forall i :: 0 <= i < |data.items| ==> data'.items[i] == NormalizeTrack(data.items[i]))
  {
    if Nullish(response) then TypeError
    else
      var tracks := Get(response, "tracks");
      if Truthy(tracks) && Truthy(Get(tracks, "data")) then
        var data := Get(tracks, "data");
        if !data.Arr? then TypeError
        else Normal(SetField(response, "tracks", SetField(tracks, "data", Arr(Map(data.items, NormalizeTrack)))))
      else Normal(response)
  }

  /** Shaping a playlist that was already shaped gives it back unchanged. */
  lemma PlaylistShapingIdempotent(response: Json)
    requires GetPlaylistById(response).Normal?
    ensures GetPlaylistById(GetPlaylistById(response).value) == GetPlaylistById(response)
  {
    var p := GetPlaylistById(response).value;
    var tracks := Get(response, "tracks");
    if Truthy(tracks) && Truthy(Get(tracks, "data")) {
      var data := Get(tracks, "data").items;
      var tracks' := p.fields["tracks"];
      var data' := tracks'.fields["data"].items;
      var again := Map(data', NormalizeTrack);
      assert again == data' by {
        forall i | 0 <= i < |data'| ensures again[i] == data'[i] {
          NormalizeIdempotent(data[i]);
        }
      }
      assert tracks'.fields["data" := Arr(again)] == tracks'.fields;
      assert p.fields["tracks" := Obj(tracks'.fields)] == p.fields;
    }
  }

  /** The search request, or none at all for an empty query. */
  function SearchRequest(query: string): (r: Option<Request>)
    ensures r.None? <==> query == ""
    ensures r.Some? ==> r.value.path == SearchPath && r.value.params == [("q", Str(query))]
  {
    if query == "" then None else Some(Request(SearchPath, [("q", Str(query))]))
  }

  /**
   * `searchMusic(query)`: an empty query answers the empty list whatever
   * the catalog holds; otherwise the `data` of the search response,
   * normalized element by element.
   */
  function SearchMusic(query: string, response: Json): (r: Completion<seq<Json>>)
    ensures query == "" ==> r == Normal([])
    ensures query != "" && Nullish(response) ==> r == TypeError
    ensures query != "" && !Nullish(response) && Nullish(Get(response, "data")) ==> r == Normal([])
    ensures query != "" && !Nullish(response) && Get(response, "data").Arr? ==>
              r.Normal? && |r.value| == |Get(response, "data").items| &&
              forall i :: 0 <= i < |r.value| ==> r.value[i] == NormalizeTrack(Get(response, "data").items[i])
    ensures query != "" && !Nullish(response) && !Nullish(Get(response, "data")) && !Get(response, "data").Arr? ==>
              r == TypeError
  {
    if query == "" then Normal([])
    else if Nullish(response) then TypeError
    else MapOrEmpty(Get(response, "data"), NormalizeTrack)
  }

  /** An empty query sends nothing and its answer does not depend on any response. */
  lemma EmptySearchMakesNoRequest(response: Json, other: Json)
    ensures SearchRequest("") == None
    ensures SearchMusic("", response) == SearchMusic("", other) == Normal([])
  {
  }

  /**
   * Normalization never drops entries: entry `i` of a search result is null
   * exactly when entry `i` of the response was falsy.
   */
  lemma SearchKeepsEveryEntry(query: string, response: Json, i: int)
    requires query != "" && !Nullish(response) && Get(response, "data").Arr?
    requires 0 <= i < |Get(response, "data").items|
    ensures var r := SearchMusic(query, response);
            i < |r.value| && (r.value[i] == Null <==> !Truthy(Get(response, "data").items[i]))
  {
  }
}
