# Playlist graph: graph model builder and track-loading data shaping

This project models the two deterministic data transformations at the centre of
a playlist visualiser, and proves properties about them.

- **The graph model builder of the graph view.**
  - It takes a list of track records. Each record is a track id, a name, a list
    of artist references (a display name and optional genres) and the id of the
    playlist it came from.
  - It gives back an ordered node list (track, artist and genre nodes) and an
    ordered link list (track-artist and artist-genre links).
  - The visual encoding maps each node to a circle radius and fill colour, and
    each link to a stroke colour and width.
- **The data shaping of the track loader.** This is the part between the
  network calls:
  - the requested track ids are cut into batches of 50;
  - the distinct artist ids of the fetched tracks are collected;
  - an artist-id to genres map is built;
  - the genres are merged back into graph records tagged with the playlist id.

What the model altered, and where the code wins:

- **The network is replaced by function parameters.** Two function parameters
  stand in for it:
  - `fetchBatch(token, ids)` answers one batch request;
  - `fetchArtist(token, id)` answers one artist request.

  Each returns a `Response` that is either a body or an HTTP status. The token
  response is a parameter too.
- **No global id uniqueness is claimed.** The builder is modelled as written:
  - the lookup for an existing node matches on id alone, whatever the node's
    kind;
  - a repeated record appends its playlist id again in full, so duplicates are
    kept;
  - genre nodes are pushed without any existence check.
- **What the code does with repeats and collisions**, stated as facts about
  the code:
  - a track's playlist ids are a list that keeps repeats, not a set: a track
    id carried by k records gives one node listing k playlist ids
    (`RepeatedTrackNode`, `RecordOwnsId`);
  - which node owns an id depends on what comes first: an artist name met
    before the first record with that track id turns later records' playlist
    ids into entries on the artist node (`ArtistOwnsId`);
  - node ids stop being unique once a genre equals a track id or an artist
    name (`NodeIdsDistinctIff`, `GenreNamedLikeTrack`).

Layout:

| File | Contents |
|---|---|
| `wrappers.dfy` | `Option` |
| `seqs.dfy` | first-occurrence removal of repeats (`Dedup`), `Flatten` and their lemmas |
| `playlist_graph.dfy` | the graph datatypes, the reference definitions of the graph, the builder methods proved against them, and the render guard |
| `graph_properties.dfy` | the properties of the built graph |
| `graph_encoding.dfy` | radius, fill, stroke colour and stroke width |
| `playlist_tracks.dfy` | batching, artist-id collection, the genre map, the merge, a load as a function, and the loader component as a class |

## Model

| member | source | states |
|---|---|---|
| PlaylistGraph.FindById | src/components/PlaylistGraph.tsx:48 | finds a node exactly when some node has the id; the index returned is the first node with that id, whatever its kind |
| PlaylistGraph.AddTrackNode | src/components/PlaylistGraph.tsx:48-61 | if a node with the record's id exists, only that node gains the record's playlist id, appended; otherwise one track node with a one-element playlist list is pushed; the node list stays the first-by-id node list of the records so far |
| PlaylistGraph.AddArtistNode | src/components/PlaylistGraph.tsx:66-72 | an artist node keyed by display name is pushed exactly when no node of any kind has that name as id; the node list invariant is kept |
| PlaylistGraph.CollectGenres | src/components/PlaylistGraph.tsx:82-90 | after an artist reference's genres, every genre key has the duplicate-free, first-seen-ordered list of names of the artists so far that list it; a new genre becomes the last key |
| PlaylistGraph.AddArtist | src/components/PlaylistGraph.tsx:64-90 | one artist of a record adds its node if it is new, one track-artist link, and its genres; the invariant of the pass advances by one artist |
| PlaylistGraph.AddRecord | src/components/PlaylistGraph.tsx:46-92 | one record advances the pass state: the nodes, links, genre keys and genre lists equal the reference definitions over the records so far |
| PlaylistGraph.AppendGenreLinks | src/components/PlaylistGraph.tsx:102-108 | appends one artist-genre link per listed name, in list order |
| PlaylistGraph.AppendGenres | src/components/PlaylistGraph.tsx:95-109 | appends one genre node per key in key order, and that key's artist-genre links |
| PlaylistGraph.BuildGraph | src/components/PlaylistGraph.tsx:41-109 | the nodes and links built equal the reference graph of the records |
| PlaylistGraph.RenderGraph | src/components/PlaylistGraph.tsx:38-39 | no graph is built exactly when the drawing surface is missing or there are no records; otherwise the graph built is the reference graph |
| GraphProperties.PassNodeIdsDistinct | src/components/PlaylistGraph.tsx:48-72 | after the track/artist pass, node ids are pairwise distinct |
| GraphProperties.PassNodeIds | src/components/PlaylistGraph.tsx:48-72 | after the pass, a node has an id exactly when some record has that track id or some artist reference has that name |
| GraphProperties.PassNodeOrigin | src/components/PlaylistGraph.tsx:48-72 | every pass node is either a track node named after a record with its id, or an artist node whose id is an artist name; its playlist list holds the playlist ids of the records with its id, in order |
| GraphProperties.PlaylistsOfCount | src/components/PlaylistGraph.tsx:50-53 | the playlist ids gathered for an id number as many as the records carrying that id |
| GraphProperties.RepeatedTrackNode | src/components/PlaylistGraph.tsx:48-60 | a track id that is no artist name gives exactly one node; it is a track node whose playlist list holds the records' playlist ids in input order with duplicates, one per record |
| GraphProperties.RecordOwnsId | src/components/PlaylistGraph.tsx:48-72 | the first record with a track id, when no artist of an earlier record has that id as its name, owns the id: the one pass node with it is a track node with that record's name and the playlist ids of every record with the id, in input order, repeats kept |
| GraphProperties.ArtistOwnsId | src/components/PlaylistGraph.tsx:48-72 | an artist name that no record up to and including the artist's own carries as track id owns that id: the one pass node with it is an artist node, holding the playlist ids of every later record with that track id |
| GraphProperties.TrackIdMatchesArtistName | src/components/PlaylistGraph.tsx:48-53 | the two-record case: a record with a single artist x, then a record with track id x and no artists, gives a track node for the first record and an artist node for x that carries the second record's playlist id; the second record gets no track node |
| GraphProperties.TrackArtistLinkCount | src/components/PlaylistGraph.tsx:64-79 | there are as many track-artist links as artist references over all records, in input order, with no removal of repeats; each goes from a record's id to the reference's name |
| GraphProperties.TrackArtistLinkAt | src/components/PlaylistGraph.tsx:64-79 | artist j of record i is artist reference number (references of earlier records) + j, and the track-artist link at that position goes from record i's track id to that artist's name |
| GraphProperties.ArtistLinksShape | src/components/PlaylistGraph.tsx:75-79 | link k of a record goes from the record's id to artist k's name |
| GraphProperties.AllGenresExact | src/components/PlaylistGraph.tsx:82-83 | a genre occurs in the collected genres exactly when some artist reference lists it |
| GraphProperties.NamesWithGenreExact | src/components/PlaylistGraph.tsx:84-88 | a name is collected for a genre exactly when some reference with that name lists the genre |
| GraphProperties.GenreKeysExact | src/components/PlaylistGraph.tsx:82-90 | the genre keys have no repeats and are exactly the genres some artist reference lists |
| GraphProperties.GenreArtistsExact | src/components/PlaylistGraph.tsx:82-90 | a genre's artist list has no duplicate names and holds exactly the names of references that list the genre |
| GraphProperties.GenreNodesShape | src/components/PlaylistGraph.tsx:96-100 | genre node k has genre k as both id and name |
| GraphProperties.GenreNodesLast | src/components/PlaylistGraph.tsx:95-100 | the graph's nodes are the pass nodes, none of them a genre node, followed by exactly one genre node per key in key order |
| GraphProperties.GenreArtistLinksShape | src/components/PlaylistGraph.tsx:102-108 | a genre's links go from each listed name, in order, to the genre |
| GraphProperties.GenreLinksExact | src/components/PlaylistGraph.tsx:95-109 | a link is an artist-genre link of the graph exactly when its target is a genre key and its source is in that genre's artist list |
| GraphProperties.GenreLinksDistinct | src/components/PlaylistGraph.tsx:95-109 | for distinct keys, the artist-genre links have no repeats |
| GraphProperties.LinksOrdered | src/components/PlaylistGraph.tsx:75-109 | every track-artist link comes before every artist-genre link, and the artist-genre links have no repeats |
| GraphProperties.TrackArtistEndpoints | src/components/PlaylistGraph.tsx:55-79 | both ends of a track-artist link are ids of pass nodes |
| GraphProperties.GenreLinkEndpoints | src/components/PlaylistGraph.tsx:82-107 | the source of an artist-genre link is an id of a pass node, and its target is a genre key |
| GraphProperties.LinkEndpointsExist | src/components/PlaylistGraph.tsx:55-107 | every link's source and target is the id of some node |
| GraphProperties.EmptyGraph | src/components/PlaylistGraph.tsx:39-43 | there are no nodes exactly when there are no records, and no records means no links |
| GraphProperties.CollisionBreaksDistinct | src/components/PlaylistGraph.tsx:95-100 | a genre equal to a track id or an artist name produces a duplicate node id |
| GraphProperties.DuplicateIdIsCollision | src/components/PlaylistGraph.tsx:95-100 | a duplicate node id is always a genre equal to a track id or an artist name |
| GraphProperties.NodeIdsDistinctIff | src/components/PlaylistGraph.tsx:41-109 | node ids are distinct exactly when no genre equals a track id or an artist name |
| GraphProperties.GenreNamedLikeTrack | src/components/PlaylistGraph.tsx:95-100 | a record whose artist lists a genre equal to the record's id yields a graph with a repeated node id |
| GraphProperties.SameTrackTwoPlaylists | src/components/PlaylistGraph.tsx:41-109 | the same track in two playlists, with one artist and one genre, gives three nodes (the track node lists both playlist ids) and three links, the track-artist link twice |
| GraphEncoding.NodeRadius | src/components/PlaylistGraph.tsx:159-166 | radius 8 iff the node is a track node with more than one playlist id, 5 iff it is some other track node, 6 iff an artist, 4 iff a genre |
| GraphEncoding.NodeFill | src/components/PlaylistGraph.tsx:167-174 | `#ff4444` iff a track node with more than one playlist id, `#4CAF50` iff another track node, `#2196F3` iff an artist, `#9C27B0` iff a genre |
| GraphEncoding.LinkStroke | src/components/PlaylistGraph.tsx:143 | `#999` iff a track-artist link, `#666` iff an artist-genre link |
| GraphEncoding.LinkStrokeWidth | src/components/PlaylistGraph.tsx:145 | the width is positive; it is 1 iff the link is a track-artist link, and 0.5 iff it is an artist-genre link |
| GraphEncoding.RadiusAndFillAgree | src/components/PlaylistGraph.tsx:159-174 | two nodes share a radius iff they share a fill, iff they have the same kind and the same shared-track status |
| GraphEncoding.SharedTrackHighlighted | src/components/PlaylistGraph.tsx:48-60 | a track id no artist carries is drawn red with radius 8 exactly when two or more records carry it |
| PlaylistTracks.BatchTrackIds | src/components/PlaylistTracks.tsx:71-74 | the index loop produces exactly the consecutive slices of at most 50 ids |
| PlaylistTracks.BatchesFlatten | src/components/PlaylistTracks.tsx:71-74 | concatenating the batches gives back the ids |
| PlaylistTracks.BatchesShape | src/components/PlaylistTracks.tsx:72-73 | there are ceil(n/50) batches, so none for no ids, and batch k is ids 50k up to 50k+50 or the end |
| PlaylistTracks.BatchSizes | src/components/PlaylistTracks.tsx:72-73 | every batch is non-empty and holds at most 50 ids; every batch but the last holds exactly 50 |
| PlaylistTracks.AwaitAll | src/components/PlaylistTracks.tsx:76-94 | success exactly when every response succeeded, with the bodies in request order; a failure reports the status of some failed response |
| PlaylistTracks.CollectArtistIds | src/components/PlaylistTracks.tsx:97-104 | the collected ids are the artist ids of all fetched tracks, with repeats removed and first occurrences kept |
| PlaylistTracks.RefIdsExact | src/components/PlaylistTracks.tsx:99-101 | an id is listed for a track's artists exactly when one of them has it |
| PlaylistTracks.ArtistIdsExact | src/components/PlaylistTracks.tsx:98-102 | an id is listed exactly when some artist of some fetched track has it |
| PlaylistTracks.CollectedArtistIds | src/components/PlaylistTracks.tsx:97-104 | the collected ids have no repeats, are exactly the ids of the artists of the fetched tracks, and come in first-occurrence order |
| PlaylistTracks.BuildArtistGenreMap | src/components/PlaylistTracks.tsx:125-128 | the loop builds the map that sets each detail's genres under its id, in order |
| PlaylistTracks.GenreMapKeys | src/components/PlaylistTracks.tsx:125-128 | the map has a key for exactly the ids of the details |
| PlaylistTracks.GenreMapLastWins | src/components/PlaylistTracks.tsx:125-128 | when details share an id, the last of them decides the genres |
| PlaylistTracks.MergeTracks | src/components/PlaylistTracks.tsx:131-139 | one record per fetched track across all batches |
| PlaylistTracks.MergedInBatchOrder | src/components/PlaylistTracks.tsx:131-139 | track p of batch b becomes the record after all earlier batches' tracks, with the same id and name and the loader's playlist id; its artists keep their count, order and names, and their genres are present exactly when the map holds the artist's id, taking the map's value |
| PlaylistTracks.MergedGenresFromDetails | src/components/PlaylistTracks.tsx:125-137 | an artist's merged genres are those of the last artist detail with its id |
| PlaylistTracks.MergedWithoutDetail | src/components/PlaylistTracks.tsx:134-137 | an artist whose id no detail carries has no genres |
| PlaylistTracks.AwaitAllBodies | src/components/PlaylistTracks.tsx:76-94 | when every response succeeded, awaiting them gives their bodies in request order |
| PlaylistTracks.LoadResult | src/components/PlaylistTracks.tsx:65-142 | a failed token response fails the load with its status; otherwise a failed batch request, or (after all batches succeed) a failed artist request, fails the whole load with the status of a failed request; when every request succeeds the load is the fetched tracks merged with the genre map of the fetched details; every loaded record carries the playlist id; no ids with a token loads nothing |
| PlaylistTracks.LoadedIdsMatchRequest | src/components/PlaylistTracks.tsx:71-139 | when every batch is answered with the requested tracks in order, a successful load has one record per requested id, in request order, repeats kept |
| PlaylistTracks.TrackLoader.constructor | src/components/PlaylistTracks.tsx:11-21 | the component starts with no records, no error, and not loading |
| PlaylistTracks.TrackLoader.RunEffect | src/components/PlaylistTracks.tsx:65-155 | a load runs only for a non-empty id list, and nothing changes otherwise; success replaces the records and clears the error; failure keeps the records and records the status; loading is off when the load ends |

## Left out

- The d3 force simulation, the zoom, the tick handler that moves nodes and
  links, the drag handlers and the `simulation.stop()` cleanup
  (src/components/PlaylistGraph.tsx:111-215). These are floating-point layout
  and SVG side effects driven by the library.
- The SVG element attributes other than stroke, stroke width, radius and fill:
  stroke opacity, labels, font and positions. They are constants or layout
  output.
- The token request and the credential check (src/components/PlaylistTracks.tsx:24-63).
  - The token's response is a parameter of the load.
  - How that response is produced is not modelled.
- The URLs, headers and JSON parsing of the two endpoints.
  - Each endpoint is a function parameter returning a body or a status.
  - A status counts as a failure exactly when the function returns `HttpError`;
    the model does not check status ranges.
- Null entries in the track endpoint's answer (for unknown ids) are not
  modelled. A fetched track always has an id, a name and artists.
- PlaylistTracks.AwaitAll: the failure is stated only as "some failed response".
  - `Promise.all` rejects with whichever failure settles first in time.
  - The definition picks the first failure in request order.
  - The contract promises only that the status belongs to some failed response.
- PlaylistTracks.TrackLoader.RunEffect: one load is modelled as one atomic
  step, so overlapping loads are not modelled.
  - The component starts the load without awaiting it
    (src/components/PlaylistTracks.tsx:152-154). The effect also returns no
    cleanup.
  - If the ids or the playlist change during a load, a second load starts
    beside the first.
  - The older load's records or error can then land after the newer one's.
  - The older load's `finally` can clear the loading flag while the newer
    load still runs.
- PlaylistTracks.TrackLoader.RunEffect: the stored error is kept as the
  failing status only.
  - The message text is left out.
  - A failure other than an HTTP status (a network error) is not modelled.
  - The loading flag is set at the start and cleared at the end; the render
    in between, which shows the loading state, is not modelled.
- The rendering of the loading, error and track list views
  (src/components/PlaylistTracks.tsx:157-193).
- Insertion order is not modelled for the artist-genre map. The map is only
  read by key (src/components/PlaylistTracks.tsx:136), so its order is never
  observed.
