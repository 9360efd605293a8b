/**
 * The data shaping around the network calls of the track loader: batching
 * the requested track ids, collecting the distinct artist ids of the
 * fetched tracks, the artist-id to genres map, and merging the genres back
 * into graph records. The network is passed in as functions.
 */
module PlaylistTracks {
  import opened Wrappers
  import opened Seqs
  import PlaylistGraph

  // ---------------------------------------------------------------------
  // Batching the track ids
  // ---------------------------------------------------------------------

  /** The most track ids one request may carry. */
  const BatchSize: nat := 50

  function Min(a: int, b: int): int
  {
    if a < b then a else b
  }

  /** Consecutive slices of at most `BatchSize` ids, in order. */
  function Batches(ids: seq<string>): seq<seq<string>>
    decreases |ids|
  {
    if |ids| == 0 then []
    else
      var n := Min(BatchSize, |ids|);
      [ids[..n]] + Batches(ids[n..])
  }

  lemma BatchesFrom(ids: seq<string>, i: nat)
    requires i < |ids|
    ensures Batches(ids[i..]) == [ids[i..Min(i + BatchSize, |ids|)]] + Batches(ids[Min(i + BatchSize, |ids|)..])
  {
    var rest := ids[i..];
    var n := Min(BatchSize, |rest|);
    assert rest[..n] == ids[i..i + n];
    assert rest[n..] == ids[i + n..];
  }

  /** The index loop that slices `trackIds` into request groups. */
  method BatchTrackIds(trackIds: seq<string>) returns (groups: seq<seq<string>>)
    ensures groups == Batches(trackIds)
  {
    groups := [];
    var i := 0;
    while i < |trackIds|
      invariant 0 <= i < |trackIds| + BatchSize
      invariant groups + Batches(trackIds[Min(i, |trackIds|)..]) == Batches(trackIds)
      decreases |trackIds| - i
    {
      var group := trackIds[i..Min(i + BatchSize, |trackIds|)];
      BatchesFrom(trackIds, i);
      assert groups + [group] + Batches(trackIds[Min(i + BatchSize, |trackIds|)..])
        == groups + ([group] + Batches(trackIds[Min(i + BatchSize, |trackIds|)..]));
      groups := groups + [group];
      i := i + BatchSize;
    }
    assert trackIds[|trackIds|..] == [];
  }

  /** Concatenating the batches gives back the ids. */
  lemma {:induction false} BatchesFlatten(ids: seq<string>)
    ensures Flatten(Batches(ids)) == ids
    decreases |ids|
  {
    if |ids| > 0 {
      var n := Min(BatchSize, |ids|);
      BatchesFlatten(ids[n..]);
      assert ([ids[..n]] + Batches(ids[n..]))[1..] == Batches(ids[n..]);
      assert ids == ids[..n] + ids[n..];
    }
  }

  /**
   * There are ceil(n / 50) batches, none with an empty id list; batch k
   * holds ids 50k up to 50k + 50 (or to the end), so every batch but the
   * last holds exactly 50.
   */
  lemma {:induction false} BatchesShape(ids: seq<string>)
    ensures |Batches(ids)| == (|ids| + BatchSize - 1) / BatchSize
    ensures forall k :: 0 <= k < |Batches(ids)| ==>
      && BatchSize * k < |ids|
      && Batches(ids)[k] == ids[BatchSize * k..Min(BatchSize * k + BatchSize, |ids|)]
    decreases |ids|
  {
    if |ids| > 0 {
      var n := Min(BatchSize, |ids|);
      var b, rest := Batches(ids), Batches(ids[n..]);
      BatchesShape(ids[n..]);
      forall k | 0 <= k < |b|
        ensures BatchSize * k < |ids| && b[k] == ids[BatchSize * k..Min(BatchSize * k + BatchSize, |ids|)]
      {
        if k > 0 {
          assert b[k] == rest[k - 1];
          assert n == BatchSize;
          assert ids[n..][BatchSize * (k - 1)..Min(BatchSize * (k - 1) + BatchSize, |ids| - n)]
            == ids[BatchSize * k..Min(BatchSize * k + BatchSize, |ids|)];
        }
      }
    }
  }

  /** Every batch is non-empty with at most 50 ids, and all but the last have exactly 50. */
  lemma BatchSizes(ids: seq<string>)
    ensures forall k :: 0 <= k < |Batches(ids)| ==> 0 < |Batches(ids)[k]| <= BatchSize
    ensures forall k :: 0 <= k < |Batches(ids)| - 1 ==> |Batches(ids)[k]| == BatchSize
  {
    BatchesShape(ids);
  }

  // ---------------------------------------------------------------------
  // Fetched data
  // ---------------------------------------------------------------------

  /** An artist of a fetched track: its catalogue id and display name. */
  datatype ArtistRef = ArtistRef(id: string, name: string)

  /** A track as the track endpoint returns it. */
  datatype FetchedTrack = FetchedTrack(id: string, name: string, artists: seq<ArtistRef>)

  /** An artist as the artist endpoint returns it. */
  datatype ArtistDetail = ArtistDetail(id: string, genres: seq<string>)

  /** A response: a parsed body, or a status that is not a success. */
  datatype Response<T> = Ok(body: T) | HttpError(status: int)

  /**
   * Awaiting all responses: every body in order, or a failure status when
   * some response failed. Here the first failing response in index order
   * is the one reported.
   */
  function AwaitAll<T>(rs: seq<Response<T>>): (r: Response<seq<T>>)
    ensures r.Ok? <==> forall k :: 0 <= k < |rs| ==> rs[k].Ok?
    ensures r.Ok? ==> |r.body| == |rs| && forall k :: 0 <= k < |rs| ==> rs[k] == Ok(r.body[k])
    ensures r.HttpError? ==> exists k :: 0 <= k < |rs| && rs[k] == HttpError(r.status)
  {
    if rs == [] then Ok([])
    else
      match rs[0]
      case HttpError(s) => HttpError(s)
      case Ok(b) =>
        match AwaitAll(rs[1..])
        case HttpError(s) =>
          assert exists k :: 0 <= k < |rs[1..]| && rs[1..][k] == HttpError(s);
          var k :| 0 <= k < |rs[1..]| && rs[1..][k] == HttpError(s);
          assert rs[k + 1] == HttpError(s);
          HttpError(s)
        case Ok(bs) =>
          assert forall k :: 1 <= k < |rs| ==> rs[k] == rs[1..][k - 1];
          Ok([b] + bs)
  }

  // ---------------------------------------------------------------------
  // Distinct artist ids
  // ---------------------------------------------------------------------

  /** The artist ids of some artists, in order. */
  function RefIds(artists: seq<ArtistRef>): seq<string>
    decreases |artists|
  {
    if |artists| == 0 then []
    else RefIds(artists[..|artists| - 1]) + [artists[|artists| - 1].id]
  }

  /** The artist ids of every artist of every track, in order, repeats kept. */
  function ArtistIds(tracks: seq<FetchedTrack>): seq<string>
    decreases |tracks|
  {
    if |tracks| == 0 then []
    else ArtistIds(tracks[..|tracks| - 1]) + RefIds(tracks[|tracks| - 1].artists)
  }

  /**
   * The insertion-ordered set of artist ids built over all fetched tracks,
   * read back as an array.
   */
  method CollectArtistIds(allTracks: seq<seq<FetchedTrack>>) returns (artistIds: seq<string>)
    ensures artistIds == Dedup(ArtistIds(Flatten(allTracks)))
  {
    var flat := Flatten(allTracks);
    artistIds := [];
    for i := 0 to |flat|
      invariant artistIds == Dedup(ArtistIds(flat[..i]))
    {
      var artists := flat[i].artists;
      assert ArtistIds(flat[..i + 1]) == ArtistIds(flat[..i]) + RefIds(artists) by {
        PrefixSnoc(flat, i);
      }
      assert ArtistIds(flat[..i]) + RefIds(artists[..0]) == ArtistIds(flat[..i]) by {
        assert artists[..0] == [];
      }
      for j := 0 to |artists|
        invariant artistIds == Dedup(ArtistIds(flat[..i]) + RefIds(artists[..j]))
      {
        var id := artists[j].id;
        assert RefIds(artists[..j + 1]) == RefIds(artists[..j]) + [id] by {
          PrefixSnoc(artists, j);
        }
        assert ArtistIds(flat[..i]) + RefIds(artists[..j + 1]) == (ArtistIds(flat[..i]) + RefIds(artists[..j])) + [id];
        DedupSnoc(ArtistIds(flat[..i]) + RefIds(artists[..j]), id);
        DedupElements(ArtistIds(flat[..i]) + RefIds(artists[..j]));
        if id !in artistIds {
          artistIds := artistIds + [id];
        }
      }
      assert artists[..|artists|] == artists;
    }
    assert flat[..|flat|] == flat;
  }

  lemma {:induction false} RefIdsExact(artists: seq<ArtistRef>, x: string)
    ensures x in RefIds(artists) <==> exists a :: a in artists && a.id == x
    decreases |artists|
  {
    if |artists| > 0 {
      var p := artists[..|artists| - 1];
      RefIdsExact(p, x);
      assert artists == p + [artists[|artists| - 1]];
    }
  }

  lemma {:induction false} ArtistIdsExact(tracks: seq<FetchedTrack>, x: string)
    ensures x in ArtistIds(tracks) <==> exists t, a :: t in tracks && a in t.artists && a.id == x
    decreases |tracks|
  {
    if |tracks| > 0 {
      var p, t := tracks[..|tracks| - 1], tracks[|tracks| - 1];
      ArtistIdsExact(p, x);
      RefIdsExact(t.artists, x);
      assert tracks == p + [t];
    }
  }

  /**
   * The collected artist ids have no repeats, are exactly the ids of the
   * artists of the fetched tracks, and come in first-occurrence order.
   */
  lemma CollectedArtistIds(allTracks: seq<seq<FetchedTrack>>)
    ensures var all := ArtistIds(Flatten(allTracks));
      && Distinct(Dedup(all))
      && (forall x :: x in Dedup(all) <==> x in all)
      && (forall x :: x in Dedup(all) <==> exists t, a :: t in Flatten(allTracks) && a in t.artists && a.id == x)
      && (forall i, j :: 0 <= i < j < |Dedup(all)| ==> IndexOf(all, Dedup(all)[i]) < IndexOf(all, Dedup(all)[j]))
  {
    var all := ArtistIds(Flatten(allTracks));
    DedupDistinct(all);
    DedupOrder(all);
    forall x ensures x in all <==> exists t, a :: t in Flatten(allTracks) && a in t.artists && a.id == x {
      ArtistIdsExact(Flatten(allTracks), x);
    }
  }

  // ---------------------------------------------------------------------
  // The artist-id to genres map
  // ---------------------------------------------------------------------

  /** Setting each detail's genres under its id, in order. */
  function GenreMapOf(details: seq<ArtistDetail>): map<string, seq<string>>
    decreases |details|
  {
    if |details| == 0 then map[]
    else
      var d := details[|details| - 1];
      GenreMapOf(details[..|details| - 1])[d.id := d.genres]
  }

  method BuildArtistGenreMap(details: seq<ArtistDetail>) returns (m: map<string, seq<string>>)
    ensures m == GenreMapOf(details)
  {
    m := map[];
    for k := 0 to |details|
      invariant m == GenreMapOf(details[..k])
    {
      PrefixSnoc(details, k);
      m := m[details[k].id := details[k].genres];
    }
    assert details[..|details|] == details;
  }

  /** The map has a key for exactly the ids of the details. */
  lemma {:induction false} GenreMapKeys(details: seq<ArtistDetail>, id: string)
    ensures id in GenreMapOf(details) <==> exists k :: 0 <= k < |details| && details[k].id == id
    decreases |details|
  {
    if |details| > 0 {
      var p := details[..|details| - 1];
      GenreMapKeys(p, id);
      if exists k :: 0 <= k < |p| && p[k].id == id {
        var k :| 0 <= k < |p| && p[k].id == id;
        assert details[k] == p[k];
      }
      if exists k :: 0 <= k < |details| && details[k].id == id {
        var k :| 0 <= k < |details| && details[k].id == id;
        if k < |p| { assert p[k] == details[k]; }
      }
    }
  }

  /** When several details share an id, the last of them decides its genres. */
  lemma {:induction false} GenreMapLastWins(details: seq<ArtistDetail>, k: nat)
    requires k < |details|
    requires forall j :: k < j < |details| ==> details[j].id != details[k].id
    ensures details[k].id in GenreMapOf(details)
    ensures GenreMapOf(details)[details[k].id] == details[k].genres
    decreases |details|
  {
    if k < |details| - 1 {
      var p := details[..|details| - 1];
      assert p[k] == details[k];
      GenreMapLastWins(p, k);
    }
  }

  // ---------------------------------------------------------------------
  // Merging genres into graph records
  // ---------------------------------------------------------------------

  /** An artist for the graph: its name and the genres looked up by its id, if any. */
  function MergeArtist(genreMap: map<string, seq<string>>, a: ArtistRef): PlaylistGraph.Artist
  {
    PlaylistGraph.Artist(a.name, if a.id in genreMap then Some(genreMap[a.id]) else None)
  }

  /** A graph record for a fetched track, tagged with the playlist it was loaded for. */
  function MergeTrack(genreMap: map<string, seq<string>>, playlistId: string, t: FetchedTrack): PlaylistGraph.Track
  {
    PlaylistGraph.Track(t.id, t.name, seq(|t.artists|, j requires 0 <= j < |t.artists| => MergeArtist(genreMap, t.artists[j])), playlistId)
  }

  /** The graph records of all fetched tracks, batch by batch. */
  function MergeTracks(allTracks: seq<seq<FetchedTrack>>, genreMap: map<string, seq<string>>, playlistId: string): (r: seq<PlaylistGraph.Track>)
    ensures |r| == |Flatten(allTracks)|
  {
    var flat := Flatten(allTracks);
    seq(|flat|, k requires 0 <= k < |flat| => MergeTrack(genreMap, playlistId, flat[k]))
  }

  /**
   * Track p of batch b becomes the record at offset |earlier batches| + p,
   * with the same id and name, the loader's playlist id, and its artists
   * in order with the same names and the genres the map holds for their
   * ids (absent when it holds none).
   */
  lemma MergedInBatchOrder(allTracks: seq<seq<FetchedTrack>>, genreMap: map<string, seq<string>>, playlistId: string, b: nat, p: nat)
    requires b < |allTracks| && p < |allTracks[b]|
    ensures var r, t, at := MergeTracks(allTracks, genreMap, playlistId), allTracks[b][p], |Flatten(allTracks[..b])| + p;
      && at < |r|
      && r[at].id == t.id && r[at].name == t.name && r[at].playlistId == playlistId
      && |r[at].artists| == |t.artists|
      && forall j :: 0 <= j < |t.artists| ==>
        && r[at].artists[j].name == t.artists[j].name
        && (r[at].artists[j].genres.Some? <==> t.artists[j].id in genreMap)
        && (t.artists[j].id in genreMap ==> r[at].artists[j].genres == Some(genreMap[t.artists[j].id]))
  {
    FlattenIndex(allTracks, b, p);
  }

  /**
   * End to end: an artist of a merged record has genres exactly when some
   * artist detail carries its id, and then they are the genres of the last
   * such detail.
   */
  lemma MergedGenresFromDetails(allTracks: seq<seq<FetchedTrack>>, details: seq<ArtistDetail>, playlistId: string, k: nat, j: nat, last: nat)
    requires k < |Flatten(allTracks)| && j < |Flatten(allTracks)[k].artists|
    requires last < |details| && details[last].id == Flatten(allTracks)[k].artists[j].id
    requires forall i :: last < i < |details| ==> details[i].id != details[last].id
    ensures MergeTracks(allTracks, GenreMapOf(details), playlistId)[k].artists[j].genres == Some(details[last].genres)
  {
    GenreMapLastWins(details, last);
  }

  /** An artist whose id no detail carries gets no genres. */
  lemma MergedWithoutDetail(allTracks: seq<seq<FetchedTrack>>, details: seq<ArtistDetail>, playlistId: string, k: nat, j: nat)
    requires k < |Flatten(allTracks)| && j < |Flatten(allTracks)[k].artists|
    requires forall i :: 0 <= i < |details| ==> details[i].id != Flatten(allTracks)[k].artists[j].id
    ensures MergeTracks(allTracks, GenreMapOf(details), playlistId)[k].artists[j].genres == None
  {
    GenreMapKeys(details, Flatten(allTracks)[k].artists[j].id);
  }

  // ---------------------------------------------------------------------
  // Loading
  // ---------------------------------------------------------------------

  /** Every response succeeded. */
  predicate AllOk<T>(rs: seq<Response<T>>)
  {
    forall k :: 0 <= k < |rs| ==> rs[k].Ok?
  }

  /** The bodies of responses that all succeeded, in order. */
  function Bodies<T>(rs: seq<Response<T>>): seq<T>
    requires AllOk(rs)
  {
    seq(|rs|, k requires 0 <= k < |rs| => rs[k].body)
  }

  /** Awaiting responses that all succeeded gives their bodies, in order. */
  lemma AwaitAllBodies<T>(rs: seq<Response<T>>)
    requires AllOk(rs)
    ensures AwaitAll(rs) == Ok(Bodies(rs))
  {
    var r := AwaitAll(rs);
    assert r.body == Bodies(rs) by {
      forall k | 0 <= k < |rs| ensures r.body[k] == rs[k].body {
        assert rs[k] == Ok(r.body[k]);
      }
    }
  }

  /** The track request of each batch, in batch order. */
  function BatchRequests(tok: string, trackIds: seq<string>,
                         fetchBatch: (string, seq<string>) -> Response<seq<FetchedTrack>>): seq<Response<seq<FetchedTrack>>>
  {
    var groups := Batches(trackIds);
    seq(|groups|, k requires 0 <= k < |groups| => fetchBatch(tok, groups[k]))
  }

  /** The artist request of each collected artist id, in collection order. */
  function ArtistRequests(tok: string, allTracks: seq<seq<FetchedTrack>>,
                          fetchArtist: (string, string) -> Response<ArtistDetail>): seq<Response<ArtistDetail>>
  {
    var ids := Dedup(ArtistIds(Flatten(allTracks)));
    seq(|ids|, k requires 0 <= k < |ids| => fetchArtist(tok, ids[k]))
  }

  /**
   * What one load produces, given the token response and the two
   * endpoints as functions of the token and the request. A failed token,
   * a failed batch request or a failed artist request fails the whole load
   * with the status of a failed request; when every request succeeds, the
   * load yields the fetched tracks merged with the genres of the fetched
   * artist details.
   */
  function LoadResult(
    trackIds: seq<string>, playlistId: string, token: Response<string>,
    fetchBatch: (string, seq<string>) -> Response<seq<FetchedTrack>>,
    fetchArtist: (string, string) -> Response<ArtistDetail>): (r: Response<seq<PlaylistGraph.Track>>)
    ensures token.HttpError? ==> r == HttpError(token.status)
    ensures token.Ok? ==>
      var batches := BatchRequests(token.body, trackIds, fetchBatch);
      && (!AllOk(batches) ==> r.HttpError? && exists k :: 0 <= k < |batches| && batches[k] == HttpError(r.status))
      && (AllOk(batches) ==>
            var artists := ArtistRequests(token.body, Bodies(batches), fetchArtist);
            && (!AllOk(artists) ==> r.HttpError? && exists k :: 0 <= k < |artists| && artists[k] == HttpError(r.status))
            && (AllOk(artists) ==> r == Ok(MergeTracks(Bodies(batches), GenreMapOf(Bodies(artists)), playlistId))))
    ensures r.Ok? ==> forall k :: 0 <= k < |r.body| ==> r.body[k].playlistId == playlistId
    ensures token.Ok? && |trackIds| == 0 ==> r == Ok([])
  {
    match token
    case HttpError(s) => HttpError(s)
    case Ok(tok) =>
      var batches := BatchRequests(tok, trackIds, fetchBatch);
      match AwaitAll(batches)
      case HttpError(s) => HttpError(s)
      case Ok(allTracks) =>
        AwaitAllBodies(batches);
        var artists := ArtistRequests(tok, allTracks, fetchArtist);
        match AwaitAll(artists)
        case HttpError(s) => HttpError(s)
        case Ok(details) =>
          AwaitAllBodies(artists);
          Ok(MergeTracks(allTracks, GenreMapOf(details), playlistId))
  }

  /** The component's state: the loaded records, the last failure status, the loading flag. */
  class TrackLoader {
    var tracks: seq<PlaylistGraph.Track>
    var error: Option<int>
    var loading: bool

    constructor()
      ensures tracks == [] && error == None && !loading
    {
      tracks := [];
      error := None;
      loading := false;
    }

    /**
     * The effect run when the ids or the playlist change: loading starts
     * only for a non-empty id list; success replaces the records and clears
     * the failure, failure keeps the records and records the status; the
     * loading flag is cleared either way.
     */
    method RunEffect(
      trackIds: seq<string>, playlistId: string, token: Response<string>,
      fetchBatch: (string, seq<string>) -> Response<seq<FetchedTrack>>,
      fetchArtist: (string, string) -> Response<ArtistDetail>)
      modifies this
      ensures |trackIds| == 0 ==> tracks == old(tracks) && error == old(error) && loading == old(loading)
      ensures |trackIds| > 0 ==> !loading
      ensures |trackIds| > 0 ==>
        var r := LoadResult(trackIds, playlistId, token, fetchBatch, fetchArtist);
        && (r.Ok? ==> tracks == r.body && error == None)
        && (r.HttpError? ==> tracks == old(tracks) && error == Some(r.status))
    {
      if |trackIds| == 0 {
        return;
      }
      loading := true;
      if token.HttpError? {
        error := Some(token.status);
      } else {
        var tok := token.body;
        var groups := BatchTrackIds(trackIds);
        var batches := seq(|groups|, k requires 0 <= k < |groups| => fetchBatch(tok, groups[k]));
        assert batches == BatchRequests(tok, trackIds, fetchBatch);
        var fetched := AwaitAll(batches);
        if fetched.HttpError? {
          error := Some(fetched.status);
        } else {
          var artistIds := CollectArtistIds(fetched.body);
          var artists := seq(|artistIds|, k requires 0 <= k < |artistIds| => fetchArtist(tok, artistIds[k]));
          assert artists == ArtistRequests(tok, fetched.body, fetchArtist);
          var details := AwaitAll(artists);
          if details.HttpError? {
            error := Some(details.status);
          } else {
            var genreMap := BuildArtistGenreMap(details.body);
            tracks := MergeTracks(fetched.body, genreMap, playlistId);
            error := None;
          }
        }
      }
      loading := false;
    }
  }

  /** The ids of some fetched tracks, in order. */
  function FetchedIds(ts: seq<FetchedTrack>): seq<string>
  {
    seq(|ts|, k requires 0 <= k < |ts| => ts[k].id)
  }

  lemma {:induction false} FetchedIdsFlatten(all: seq<seq<FetchedTrack>>)
    ensures FetchedIds(Flatten(all)) == Flatten(seq(|all|, k requires 0 <= k < |all| => FetchedIds(all[k])))
    decreases |all|
  {
    var parts := seq(|all|, k requires 0 <= k < |all| => FetchedIds(all[k]));
    if all != [] {
      FetchedIdsFlatten(all[1..]);
      assert parts[1..] == seq(|all[1..]|, k requires 0 <= k < |all[1..]| => FetchedIds(all[1..][k]));
      assert FetchedIds(all[0] + Flatten(all[1..])) == FetchedIds(all[0]) + FetchedIds(Flatten(all[1..]));
    }
  }

  lemma {:induction false} TrackIdsIndex(ts: seq<PlaylistGraph.Track>)
    ensures |PlaylistGraph.TrackIds(ts)| == |ts|
    ensures forall k :: 0 <= k < |ts| ==> PlaylistGraph.TrackIds(ts)[k] == ts[k].id
    decreases |ts|
  {
    if |ts| > 0 {
      TrackIdsIndex(ts[..|ts| - 1]);
    }
  }

  /**
   * When the track endpoint answers every batch with the requested tracks
   * in request order, a successful load yields one record per requested
   * id, in the order of `trackIds`, repeats kept.
   */
  lemma LoadedIdsMatchRequest(
    trackIds: seq<string>, playlistId: string, token: Response<string>,
    fetchBatch: (string, seq<string>) -> Response<seq<FetchedTrack>>,
    fetchArtist: (string, string) -> Response<ArtistDetail>)
    requires forall tok, b :: fetchBatch(tok, b).Ok? ==> FetchedIds(fetchBatch(tok, b).body) == b
    ensures var r := LoadResult(trackIds, playlistId, token, fetchBatch, fetchArtist);
      r.Ok? ==> PlaylistGraph.TrackIds(r.body) == trackIds
  {
    var r := LoadResult(trackIds, playlistId, token, fetchBatch, fetchArtist);
    if r.Ok? {
      var tok := token.body;
      var groups := Batches(trackIds);
      var batches := BatchRequests(tok, trackIds, fetchBatch);
      var all := Bodies(batches);
      var details := Bodies(ArtistRequests(tok, all, fetchArtist));
      assert r.body == MergeTracks(all, GenreMapOf(details), playlistId);
      var parts := seq(|all|, k requires 0 <= k < |all| => FetchedIds(all[k]));
      assert parts == groups by {
        forall k | 0 <= k < |all| ensures parts[k] == groups[k] {
          assert fetchBatch(tok, groups[k]) == Ok(all[k]);
        }
      }
      FetchedIdsFlatten(all);
      BatchesFlatten(trackIds);
      TrackIdsIndex(r.body);
      assert PlaylistGraph.TrackIds(r.body) == FetchedIds(Flatten(all));
    }
  }
}
