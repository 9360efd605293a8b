/**
 * The graph model of the playlist graph component: the pass that turns
 * track records into an ordered node list and an ordered link list, the
 * guard in front of it, and the visual encoding of nodes and links.
 *
 * The builder is a method with loops over sequences and a map, as the
 * component's `forEach` loops push into arrays and a `Map`. It is proved
 * against reference definitions (first occurrence by id, concatenation,
 * removal of repeats) whose properties are stated as lemmas below.
 */
module PlaylistGraph {
  import opened Wrappers
  import opened Seqs

  // ---------------------------------------------------------------------
  // Data model
  // ---------------------------------------------------------------------

  /** An artist reference of an input record; `genres` may be absent. */
  datatype Artist = Artist(name: string, genres: Option<seq<string>>)

  /** One input record: a track as it occurs in one playlist. */
  datatype Track = Track(id: string, name: string, artists: seq<Artist>, playlistId: string)

  datatype NodeKind = TrackNode | ArtistNode | GenreNode

  /**
   * A node of the graph. `playlistIds` is the component's optional list;
   * an absent list is the empty sequence (the component only reads it
   * through `|| []` and `&& length > 1`, which treat both alike).
   */
  datatype Node = Node(id: string, name: string, kind: NodeKind, playlistIds: seq<string>)

  datatype LinkKind = TrackArtist | ArtistGenre

  /** A link names its endpoints by node id. */
  datatype Link = Link(source: string, target: string, kind: LinkKind)

  datatype Graph = Graph(nodes: seq<Node>, links: seq<Link>)

  /** Some node has this id. */
  ghost predicate HasId(nodes: seq<Node>, id: string)
  {
    exists k :: 0 <= k < |nodes| && nodes[k].id == id
  }

  /** No two nodes share an id. */
  ghost predicate DistinctIds(nodes: seq<Node>)
  {
    forall i, j :: 0 <= i < j < |nodes| ==> nodes[i].id != nodes[j].id
  }

  /**
   * `nodes.find(n => n.id === id)`: the index of the first node with this
   * id, of whatever kind, if there is one.
   */
  function FindById(nodes: seq<Node>, id: string): (r: Option<nat>)
    ensures r.Some? <==> HasId(nodes, id)
    ensures r.Some? ==> r.value < |nodes| && nodes[r.value].id == id
    ensures r.Some? ==> forall j :: 0 <= j < r.value ==> nodes[j].id != id
  {
    if nodes == [] then None
    else if nodes[0].id == id then Some(0)
    else
      match FindById(nodes[1..], id)
      case None =>
        assert !HasId(nodes, id) by {
          forall k | 0 <= k < |nodes| ensures nodes[k].id != id {
            if k > 0 { assert nodes[1..][k - 1] == nodes[k]; }
          }
        }
        None
      case Some(k) =>
        assert nodes[1..][k] == nodes[k + 1];
        Some(k + 1)
  }

  // ---------------------------------------------------------------------
  // Reference definitions
  // ---------------------------------------------------------------------

  /** The genres an artist reference lists (`artist.genres`, absent = none). */
  function GenresOf(a: Artist): seq<string>
  {
    a.genres.GetOr([])
  }

  /** The node a record would create for its track (before playlist ids). */
  function TrackItem(t: Track): Node
  {
    Node(t.id, t.name, TrackNode, [])
  }

  /** The node an artist reference would create. */
  function ArtistItem(a: Artist): Node
  {
    Node(a.name, a.name, ArtistNode, [])
  }

  function ArtistItems(artists: seq<Artist>): seq<Node>
    decreases |artists|
  {
    if |artists| == 0 then []
    else ArtistItems(artists[..|artists| - 1]) + [ArtistItem(artists[|artists| - 1])]
  }

  /**
   * Every node the track/artist pass considers, in the order it considers
   * them: per record, its track, then its artists.
   */
  function Items(tracks: seq<Track>): seq<Node>
    decreases |tracks|
  {
    if |tracks| == 0 then []
    else
      var t := tracks[|tracks| - 1];
      Items(tracks[..|tracks| - 1]) + [TrackItem(t)] + ArtistItems(t.artists)
  }

  /** Every artist reference of every record, in input order. */
  function Refs(tracks: seq<Track>): seq<Artist>
    decreases |tracks|
  {
    if |tracks| == 0 then []
    else Refs(tracks[..|tracks| - 1]) + tracks[|tracks| - 1].artists
  }

  /** The track ids of the records, in input order, repeats kept. */
  function TrackIds(tracks: seq<Track>): seq<string>
    decreases |tracks|
  {
    if |tracks| == 0 then []
    else TrackIds(tracks[..|tracks| - 1]) + [tracks[|tracks| - 1].id]
  }

  /** The playlist ids of the records with this track id, in input order, repeats kept. */
  function PlaylistsOf(tracks: seq<Track>, id: string): seq<string>
    decreases |tracks|
  {
    if |tracks| == 0 then []
    else
      var t := tracks[|tracks| - 1];
      PlaylistsOf(tracks[..|tracks| - 1], id) + (if t.id == id then [t.playlistId] else [])
  }

  /** The items whose id does not occur among the items before them. */
  ghost function FirstById(items: seq<Node>): seq<Node>
    decreases |items|
  {
    if |items| == 0 then []
    else
      var prev := items[..|items| - 1];
      var x := items[|items| - 1];
      if HasId(prev, x.id) then FirstById(prev) else FirstById(prev) + [x]
  }

  /** Each node carries the playlist ids of the records with its id. */
  function Attach(nodes: seq<Node>, tracks: seq<Track>): seq<Node>
  {
    seq(|nodes|, k requires 0 <= k < |nodes| => nodes[k].(playlistIds := PlaylistsOf(tracks, nodes[k].id)))
  }

  /** The nodes of the track/artist pass. */
  ghost function PassNodes(tracks: seq<Track>): seq<Node>
  {
    Attach(FirstById(Items(tracks)), tracks)
  }

  /** Every genre string of every artist reference, in order, repeats kept. */
  function AllGenres(refs: seq<Artist>): seq<string>
    decreases |refs|
  {
    if |refs| == 0 then []
    else AllGenres(refs[..|refs| - 1]) + GenresOf(refs[|refs| - 1])
  }

  /** The names of the artist references that list genre `g`, in order, repeats kept. */
  function NamesWithGenre(refs: seq<Artist>, g: string): seq<string>
    decreases |refs|
  {
    if |refs| == 0 then []
    else
      var a := refs[|refs| - 1];
      NamesWithGenre(refs[..|refs| - 1], g) + (if g in GenresOf(a) then [a.name] else [])
  }

  /** The distinct genres, in first-seen order: the keys of the genre map. */
  function GenreKeys(tracks: seq<Track>): seq<string>
  {
    Dedup(AllGenres(Refs(tracks)))
  }

  /** The distinct names of artists listing genre `g`, in first-seen order. */
  function GenreArtists(tracks: seq<Track>, g: string): seq<string>
  {
    Dedup(NamesWithGenre(Refs(tracks), g))
  }

  function GenreNodes(genres: seq<string>): seq<Node>
    decreases |genres|
  {
    if |genres| == 0 then []
    else
      var g := genres[|genres| - 1];
      GenreNodes(genres[..|genres| - 1]) + [Node(g, g, GenreNode, [])]
  }

  /** One track-artist link per artist reference of one record. */
  function ArtistLinks(trackId: string, artists: seq<Artist>): seq<Link>
    decreases |artists|
  {
    if |artists| == 0 then []
    else ArtistLinks(trackId, artists[..|artists| - 1]) + [Link(trackId, artists[|artists| - 1].name, TrackArtist)]
  }

  function TrackArtistLinks(tracks: seq<Track>): seq<Link>
    decreases |tracks|
  {
    if |tracks| == 0 then []
    else
      var t := tracks[|tracks| - 1];
      TrackArtistLinks(tracks[..|tracks| - 1]) + ArtistLinks(t.id, t.artists)
  }

  /** One artist-genre link per listed artist name. */
  function GenreArtistLinks(g: string, names: seq<string>): seq<Link>
    decreases |names|
  {
    if |names| == 0 then []
    else GenreArtistLinks(g, names[..|names| - 1]) + [Link(names[|names| - 1], g, ArtistGenre)]
  }

  /** The artist-genre links of the given genres, genre by genre. */
  function GenreLinks(refs: seq<Artist>, genres: seq<string>): seq<Link>
    decreases |genres|
  {
    if |genres| == 0 then []
    else
      var g := genres[|genres| - 1];
      GenreLinks(refs, genres[..|genres| - 1]) + GenreArtistLinks(g, Dedup(NamesWithGenre(refs, g)))
  }

  /** The graph that the builder produces, by the definitions above. */
  ghost function GraphOf(tracks: seq<Track>): Graph
  {
    Graph(PassNodes(tracks) + GenreNodes(GenreKeys(tracks)),
          TrackArtistLinks(tracks) + GenreLinks(Refs(tracks), GenreKeys(tracks)))
  }

  // ---------------------------------------------------------------------
  // Facts the builder's loops rest on
  // ---------------------------------------------------------------------

  /** The builder's nodes are the first items by id, with their playlist ids. */
  ghost predicate Reflects(nodes: seq<Node>, items: seq<Node>, tracks: seq<Track>)
  {
    var f := FirstById(items);
    |nodes| == |f| &&
    forall k :: 0 <= k < |nodes| ==> nodes[k] == f[k].(playlistIds := PlaylistsOf(tracks, f[k].id))
  }

  /** Every record's track id is among the items. */
  ghost predicate Covers(items: seq<Node>, tracks: seq<Track>)
  {
    forall k :: 0 <= k < |tracks| ==> HasId(items, tracks[k].id)
  }

  /** The genre map and its key order reflect the artist references seen so far. */
  ghost predicate GenreTable(keys: seq<string>, table: map<string, seq<string>>, refs: seq<Artist>)
  {
    && keys == Dedup(AllGenres(refs))
    && (forall g :: g in table <==> g in keys)
    && (forall g :: g in table ==> table[g] == Dedup(NamesWithGenre(refs, g)))
  }

  lemma HasIdExtend(nodes: seq<Node>, extra: seq<Node>, id: string)
    requires HasId(nodes, id)
    ensures HasId(nodes + extra, id)
  {
    var k :| 0 <= k < |nodes| && nodes[k].id == id;
    assert (nodes + extra)[k] == nodes[k];
  }

  lemma {:induction false} FirstByIdHasId(items: seq<Node>, id: string)
    ensures HasId(FirstById(items), id) <==> HasId(items, id)
    decreases |items|
  {
    if |items| > 0 {
      var prev, x := items[..|items| - 1], items[|items| - 1];
      assert items == prev + [x];
      FirstByIdHasId(prev, id);
      if HasId(prev, id) {
        HasIdExtend(prev, [x], id);
        if !HasId(prev, x.id) { HasIdExtend(FirstById(prev), [x], id); }
      } else if x.id == id {
        assert items[|items| - 1].id == id;
        if HasId(prev, x.id) {
          assert false;
        } else {
          assert FirstById(items)[|FirstById(prev)|] == x;
        }
      } else {
        forall k | 0 <= k < |items| ensures items[k].id != id {
          if k < |prev| { assert items[k] == prev[k]; }
        }
        if !HasId(prev, x.id) {
          var f := FirstById(prev);
          forall k | 0 <= k < |f| + 1 ensures (f + [x])[k].id != id {
            if k < |f| { assert (f + [x])[k] == f[k]; }
          }
        }
      }
    }
  }

  lemma {:induction false} FirstByIdDistinct(items: seq<Node>)
    ensures DistinctIds(FirstById(items))
    decreases |items|
  {
    if |items| > 0 {
      var prev, x := items[..|items| - 1], items[|items| - 1];
      FirstByIdDistinct(prev);
      if !HasId(prev, x.id) {
        FirstByIdHasId(prev, x.id);
        var f := FirstById(prev);
        forall i, j | 0 <= i < j < |f| + 1 ensures (f + [x])[i].id != (f + [x])[j].id {
          if j == |f| {
            assert (f + [x])[i] == f[i];
          } else {
            assert (f + [x])[i] == f[i] && (f + [x])[j] == f[j];
          }
        }
      }
    }
  }

  lemma FirstByIdSnoc(items: seq<Node>, x: Node)
    ensures FirstById(items + [x]) == if HasId(items, x.id) then FirstById(items) else FirstById(items) + [x]
  {
    assert (items + [x])[..|items|] == items;
  }

  lemma PlaylistsOfSnoc(tracks: seq<Track>, t: Track, id: string)
    ensures PlaylistsOf(tracks + [t], id) == PlaylistsOf(tracks, id) + (if t.id == id then [t.playlistId] else [])
  {
    assert (tracks + [t])[..|tracks|] == tracks;
  }

  /** A track id that no record carries has no playlist ids. */
  lemma {:induction false} PlaylistsOfAbsent(tracks: seq<Track>, id: string)
    requires forall k :: 0 <= k < |tracks| ==> tracks[k].id != id
    ensures PlaylistsOf(tracks, id) == []
    decreases |tracks|
  {
    if |tracks| > 0 {
      PlaylistsOfAbsent(tracks[..|tracks| - 1], id);
    }
  }

  /** The ids of the builder's nodes are those of the first items by id. */
  lemma ReflectsHasId(nodes: seq<Node>, items: seq<Node>, tracks: seq<Track>, id: string)
    requires Reflects(nodes, items, tracks)
    ensures HasId(nodes, id) <==> HasId(items, id)
  {
    FirstByIdHasId(items, id);
    var f := FirstById(items);
    if HasId(nodes, id) {
      var k :| 0 <= k < |nodes| && nodes[k].id == id;
      assert f[k].id == id;
    }
    if HasId(f, id) {
      var k :| 0 <= k < |f| && f[k].id == id;
      assert nodes[k].id == id;
    }
  }

  // Steps of the track/artist pass.

  lemma TrackFoundStep(nodes: seq<Node>, items: seq<Node>, done: seq<Track>, t: Track, k: nat)
    requires Reflects(nodes, items, done) && Covers(items, done)
    requires k < |nodes| && nodes[k].id == t.id
    ensures Reflects(nodes[k := nodes[k].(playlistIds := nodes[k].playlistIds + [t.playlistId])],
                     items + [TrackItem(t)], done + [t])
    ensures Covers(items + [TrackItem(t)], done + [t])
  {
    ReflectsHasId(nodes, items, done, t.id);
    CoversExtend(items, done, t);
    FirstByIdSnoc(items, TrackItem(t));
    FirstByIdDistinct(items);
    var f := FirstById(items);
    forall j | 0 <= j < |f| ensures PlaylistsOf(done + [t], f[j].id) == PlaylistsOf(done, f[j].id) + (if j == k then [t.playlistId] else []) {
      PlaylistsOfSnoc(done, t, f[j].id);
    }
  }

  lemma TrackNewStep(nodes: seq<Node>, items: seq<Node>, done: seq<Track>, t: Track)
    requires Reflects(nodes, items, done) && Covers(items, done)
    requires !HasId(nodes, t.id)
    ensures Reflects(nodes + [Node(t.id, t.name, TrackNode, [t.playlistId])], items + [TrackItem(t)], done + [t])
    ensures Covers(items + [TrackItem(t)], done + [t])
  {
    ReflectsHasId(nodes, items, done, t.id);
    FirstByIdSnoc(items, TrackItem(t));
    var f := FirstById(items);
    forall j | 0 <= j < |f| ensures PlaylistsOf(done + [t], f[j].id) == PlaylistsOf(done, f[j].id) {
      PlaylistsOfSnoc(done, t, f[j].id);
      FirstByIdHasId(items, f[j].id);
      assert HasId(f, f[j].id);
    }
    PlaylistsOfSnoc(done, t, t.id);
    PlaylistsOfAbsent(done, t.id);
    CoversExtend(items, done, t);
  }

  /** Considering a record's track keeps every record's track id among the items. */
  lemma CoversExtend(items: seq<Node>, done: seq<Track>, t: Track)
    requires Covers(items, done)
    ensures Covers(items + [TrackItem(t)], done + [t])
  {
    var items' := items + [TrackItem(t)];
    forall k | 0 <= k < |done + [t]| ensures HasId(items', (done + [t])[k].id) {
      if k < |done| {
        assert (done + [t])[k] == done[k];
        HasIdExtend(items, [TrackItem(t)], done[k].id);
      } else {
        assert items'[|items|].id == t.id;
      }
    }
  }

  /** The reference sequences of a record's artists grow one artist at a time. */
  lemma ArtistPrefixSnoc(trackId: string, artists: seq<Artist>, j: nat)
    requires j < |artists|
    ensures ArtistItems(artists[..j + 1]) == ArtistItems(artists[..j]) + [ArtistItem(artists[j])]
    ensures ArtistLinks(trackId, artists[..j + 1]) == ArtistLinks(trackId, artists[..j]) + [Link(trackId, artists[j].name, TrackArtist)]
  {
    PrefixSnoc(artists, j);
  }

  /** The reference sequences of `done + [t]` extend those of `done` by the record `t`. */
  lemma RecordSnoc(done: seq<Track>, t: Track)
    ensures Items(done + [t]) == Items(done) + [TrackItem(t)] + ArtistItems(t.artists)
    ensures Refs(done + [t]) == Refs(done) + t.artists
    ensures TrackArtistLinks(done + [t]) == TrackArtistLinks(done) + ArtistLinks(t.id, t.artists)
  {
    assert (done + [t])[..|done|] == done;
  }

  lemma ArtistFoundStep(nodes: seq<Node>, items: seq<Node>, tracks: seq<Track>, a: Artist)
    requires Reflects(nodes, items, tracks) && Covers(items, tracks)
    requires HasId(nodes, a.name)
    ensures Reflects(nodes, items + [ArtistItem(a)], tracks)
    ensures Covers(items + [ArtistItem(a)], tracks)
  {
    ReflectsHasId(nodes, items, tracks, a.name);
    FirstByIdSnoc(items, ArtistItem(a));
    forall k | 0 <= k < |tracks| ensures HasId(items + [ArtistItem(a)], tracks[k].id) {
      HasIdExtend(items, [ArtistItem(a)], tracks[k].id);
    }
  }

  lemma ArtistNewStep(nodes: seq<Node>, items: seq<Node>, tracks: seq<Track>, a: Artist)
    requires Reflects(nodes, items, tracks) && Covers(items, tracks)
    requires !HasId(nodes, a.name)
    ensures Reflects(nodes + [Node(a.name, a.name, ArtistNode, [])], items + [ArtistItem(a)], tracks)
    ensures Covers(items + [ArtistItem(a)], tracks)
  {
    ReflectsHasId(nodes, items, tracks, a.name);
    FirstByIdSnoc(items, ArtistItem(a));
    PlaylistsOfAbsent(tracks, a.name);
    forall k | 0 <= k < |tracks| ensures HasId(items + [ArtistItem(a)], tracks[k].id) {
      HasIdExtend(items, [ArtistItem(a)], tracks[k].id);
    }
  }

  // Steps of the genre collection.

  lemma LastRef(refs: seq<Artist>, a: Artist)
    ensures AllGenres(refs + [a]) == AllGenres(refs) + GenresOf(a)
    ensures forall g :: NamesWithGenre(refs + [a], g) == NamesWithGenre(refs, g) + (if g in GenresOf(a) then [a.name] else [])
  {
    assert (refs + [a])[..|refs|] == refs;
  }

  /** A genre with a listed artist occurs among the genres. */
  lemma {:induction false} NamesWithGenreListed(refs: seq<Artist>, g: string)
    ensures NamesWithGenre(refs, g) != [] <==> g in AllGenres(refs)
    decreases |refs|
  {
    if |refs| > 0 {
      NamesWithGenreListed(refs[..|refs| - 1], g);
    }
  }

  lemma GenresOfListed(name: string, gs: seq<string>)
    ensures GenresOf(Artist(name, Some(gs))) == gs
  {
  }

  lemma GenreTableStart(keys: seq<string>, table: map<string, seq<string>>, refs: seq<Artist>, name: string)
    requires GenreTable(keys, table, refs)
    ensures GenreTable(keys, table, refs + [Artist(name, Some([]))])
  {
    var a := Artist(name, Some([]));
    LastRef(refs, a);
    GenresOfListed(name, []);
    assert AllGenres(refs + [a]) == AllGenres(refs);
    forall g ensures NamesWithGenre(refs + [a], g) == NamesWithGenre(refs, g) {
      assert NamesWithGenre(refs + [a], g) == NamesWithGenre(refs, g) + [];
    }
  }

  lemma GenreTableSkip(keys: seq<string>, table: map<string, seq<string>>, refs: seq<Artist>, a: Artist)
    requires GenreTable(keys, table, refs) && a.genres == None
    ensures GenreTable(keys, table, refs + [a])
  {
    LastRef(refs, a);
    assert GenresOf(a) == [];
    assert AllGenres(refs + [a]) == AllGenres(refs);
    forall g ensures NamesWithGenre(refs + [a], g) == NamesWithGenre(refs, g) {
      assert NamesWithGenre(refs + [a], g) == NamesWithGenre(refs, g) + [];
    }
  }

  /**
   * One more genre of the artist being processed: the genres seen grow by
   * `gs[k]`, and only the names listed under `gs[k]` can grow.
   */
  lemma GenreStepFacts(refs: seq<Artist>, name: string, gs: seq<string>, k: nat)
    requires k < |gs|
    ensures AllGenres(refs + [Artist(name, Some(gs[..k + 1]))]) == AllGenres(refs + [Artist(name, Some(gs[..k]))]) + [gs[k]]
    ensures forall h :: h != gs[k] ==>
      NamesWithGenre(refs + [Artist(name, Some(gs[..k + 1]))], h) == NamesWithGenre(refs + [Artist(name, Some(gs[..k]))], h)
    ensures NamesWithGenre(refs + [Artist(name, Some(gs[..k + 1]))], gs[k]) == NamesWithGenre(refs, gs[k]) + [name]
    ensures NamesWithGenre(refs + [Artist(name, Some(gs[..k]))], gs[k]) ==
      NamesWithGenre(refs, gs[k]) + (if gs[k] in gs[..k] then [name] else [])
  {
    assert gs[..k + 1] == gs[..k] + [gs[k]];
    LastRef(refs, Artist(name, Some(gs[..k])));
    LastRef(refs, Artist(name, Some(gs[..k + 1])));
    GenresOfListed(name, gs[..k]);
    GenresOfListed(name, gs[..k + 1]);
  }

  /** A genre whose list already holds the artist: nothing changes. */
  lemma GenreKeepStep(keys: seq<string>, table: map<string, seq<string>>, refs: seq<Artist>, name: string, gs: seq<string>, k: nat)
    requires k < |gs|
    requires GenreTable(keys, table, refs + [Artist(name, Some(gs[..k]))])
    requires gs[k] in table && name in table[gs[k]]
    ensures GenreTable(keys, table, refs + [Artist(name, Some(gs[..k + 1]))])
  {
    var g := gs[k];
    var r0, r1 := refs + [Artist(name, Some(gs[..k]))], refs + [Artist(name, Some(gs[..k + 1]))];
    GenreStepFacts(refs, name, gs, k);
    DedupElements(AllGenres(r0));
    DedupSnoc(AllGenres(r0), g);
    assert Dedup(AllGenres(r1)) == keys;
    forall h | h in table ensures table[h] == Dedup(NamesWithGenre(r1, h)) {
      if h == g {
        var names := NamesWithGenre(refs, g);
        assert NamesWithGenre(r1, g) == names + [name];
        if g !in gs[..k] {
          assert NamesWithGenre(r0, g) == names + [] == names;
          assert table[g] == Dedup(NamesWithGenre(r0, g));
          DedupElements(names);
          DedupSnoc(names, name);
        } else {
          assert NamesWithGenre(r0, g) == names + [name];
        }
      } else {
        assert NamesWithGenre(r1, h) == NamesWithGenre(r0, h);
      }
    }
  }

  /** A genre whose list lacks the artist: the name is appended, the genre keyed if new. */
  lemma GenreAddStep(keys: seq<string>, table: map<string, seq<string>>, refs: seq<Artist>, name: string, gs: seq<string>, k: nat)
    requires k < |gs|
    requires GenreTable(keys, table, refs + [Artist(name, Some(gs[..k]))])
    requires name !in (if gs[k] in table then table[gs[k]] else [])
    ensures GenreTable(if gs[k] in table then keys else keys + [gs[k]],
                       table[gs[k] := (if gs[k] in table then table[gs[k]] else []) + [name]],
                       refs + [Artist(name, Some(gs[..k + 1]))])
  {
    var r0, r1 := refs + [Artist(name, Some(gs[..k]))], refs + [Artist(name, Some(gs[..k + 1]))];
    var g := gs[k];
    var cur := if g in table then table[g] else [];
    var keys' := if g in table then keys else keys + [g];
    var table' := table[g := cur + [name]];
    assert keys' == Dedup(AllGenres(r1)) && forall h :: h in table' <==> h in keys' by {
      GenreAddKeys(keys, table, refs, name, gs, k);
    }
    assert forall h :: h in table' ==> table'[h] == Dedup(NamesWithGenre(r1, h)) by {
      assert forall h :: h in table <==> h in AllGenres(r0) by {
        DedupElements(AllGenres(r0));
      }
      GenreAddedName(table, refs, name, gs, k);
      GenreAddOthers(table, refs, name, gs, k);
      TableUpdate(table, g, cur + [name], r1);
    }
  }

  /** Updating one genre's list to its new value keeps every list right. */
  lemma TableUpdate(table: map<string, seq<string>>, g: string, names: seq<string>, refs: seq<Artist>)
    requires forall h :: h in table && h != g ==> table[h] == Dedup(NamesWithGenre(refs, h))
    requires names == Dedup(NamesWithGenre(refs, g))
    ensures forall h :: h in table[g := names] ==> table[g := names][h] == Dedup(NamesWithGenre(refs, h))
  {
  }

  /** Adding to genre `gs[k]`: the key order gains `gs[k]` exactly when it is new. */
  lemma GenreAddKeys(keys: seq<string>, table: map<string, seq<string>>, refs: seq<Artist>, name: string, gs: seq<string>, k: nat)
    requires k < |gs|
    requires keys == Dedup(AllGenres(refs + [Artist(name, Some(gs[..k]))]))
    requires forall h :: h in table <==> h in keys
    ensures var keys' := if gs[k] in table then keys else keys + [gs[k]];
      && keys' == Dedup(AllGenres(refs + [Artist(name, Some(gs[..k + 1]))]))
      && forall h :: h in table || h == gs[k] <==> h in keys'
  {
    var r0 := refs + [Artist(name, Some(gs[..k]))];
    GenreStepFacts(refs, name, gs, k);
    DedupElements(AllGenres(r0));
    DedupSnoc(AllGenres(r0), gs[k]);
  }

  /** Adding to genre `gs[k]`: the lists of the other genres stay right. */
  lemma GenreAddOthers(table: map<string, seq<string>>, refs: seq<Artist>, name: string, gs: seq<string>, k: nat)
    requires k < |gs|
    requires forall h :: h in table ==> table[h] == Dedup(NamesWithGenre(refs + [Artist(name, Some(gs[..k]))], h))
    ensures forall h :: h in table && h != gs[k] ==>
      table[h] == Dedup(NamesWithGenre(refs + [Artist(name, Some(gs[..k + 1]))], h))
  {
    GenreStepFacts(refs, name, gs, k);
  }

  /** The list of the genre being added to: it gains the artist's name at the end. */
  lemma GenreAddedName(table: map<string, seq<string>>, refs: seq<Artist>, name: string, gs: seq<string>, k: nat)
    requires k < |gs|
    requires var r0 := refs + [Artist(name, Some(gs[..k]))];
      && (forall h :: h in table <==> h in AllGenres(r0))
      && (forall h :: h in table ==> table[h] == Dedup(NamesWithGenre(r0, h)))
    requires name !in (if gs[k] in table then table[gs[k]] else [])
    ensures (if gs[k] in table then table[gs[k]] else []) + [name] ==
            Dedup(NamesWithGenre(refs + [Artist(name, Some(gs[..k + 1]))], gs[k]))
  {
    var g := gs[k];
    var r0 := refs + [Artist(name, Some(gs[..k]))];
    GenreStepFacts(refs, name, gs, k);
    var names := NamesWithGenre(refs, g);
    DedupSnoc(names, name);
    DedupElements(names);
    NamesWithGenreListed(r0, g);
    DedupElements(NamesWithGenre(r0, g));
    assert g !in gs[..k];
    assert NamesWithGenre(r0, g) == names + [] == names;
    if g !in table {
      NamesWithGenreListed(r0, g);
    }
  }

  // ---------------------------------------------------------------------
  // The builder
  // ---------------------------------------------------------------------

  /**
   * The genre loop of one artist reference: for each listed genre, the
   * artist's name is appended to that genre's list unless it is there
   * already; a genre seen for the first time becomes the last key.
   */
  method CollectGenres(keys: seq<string>, table: map<string, seq<string>>, artist: Artist, ghost refs: seq<Artist>)
    returns (keys': seq<string>, table': map<string, seq<string>>)
    requires GenreTable(keys, table, refs)
    ensures GenreTable(keys', table', refs + [artist])
  {
    keys', table' := keys, table;
    if artist.genres.Some? {
      var genres := artist.genres.value;
      GenreTableStart(keys', table', refs, artist.name);
      assert genres[..0] == [];
      for k := 0 to |genres|
        invariant GenreTable(keys', table', refs + [Artist(artist.name, Some(genres[..k]))])
      {
        var genre := genres[k];
        var artists := if genre in table' then table'[genre] else [];
        if artist.name !in artists {
          GenreAddStep(keys', table', refs, artist.name, genres, k);
          if genre !in table' {
            keys' := keys' + [genre];
          }
          table' := table'[genre := artists + [artist.name]];
        } else {
          GenreKeepStep(keys', table', refs, artist.name, genres, k);
        }
      }
      assert genres[..|genres|] == genres;
      assert artist == Artist(artist.name, Some(genres));
    } else {
      GenreTableSkip(keys', table', refs, artist);
    }
  }

  /** One artist-genre link per listed artist name, in list order. */
  method AppendGenreLinks(links: seq<Link>, genre: string, artists: seq<string>) returns (links': seq<Link>)
    ensures links' == links + GenreArtistLinks(genre, artists)
  {
    links' := links;
    for m := 0 to |artists|
      invariant links' == links + GenreArtistLinks(genre, artists[..m])
    {
      PrefixSnoc(artists, m);
      links' := links' + [Link(artists[m], genre, ArtistGenre)];
    }
    assert artists[..|artists|] == artists;
  }

  /**
   * One step of the pass over the genre keys: the nodes and links so far,
   * extended by the genre node and links of key `k`, are those of the keys
   * up to and including `k`.
   */
  lemma GenrePrefixSnoc(nodes: seq<Node>, links: seq<Link>, refs: seq<Artist>, keys: seq<string>, k: nat)
    requires k < |keys|
    ensures nodes + GenreNodes(keys[..k]) + [Node(keys[k], keys[k], GenreNode, [])] == nodes + GenreNodes(keys[..k + 1])
    ensures links + GenreLinks(refs, keys[..k]) + GenreArtistLinks(keys[k], Dedup(NamesWithGenre(refs, keys[k])))
      == links + GenreLinks(refs, keys[..k + 1])
  {
    PrefixSnoc(keys, k);
  }

  lemma GenreTableLookup(keys: seq<string>, table: map<string, seq<string>>, refs: seq<Artist>, k: nat)
    requires GenreTable(keys, table, refs) && k < |keys|
    ensures keys[k] in table && table[keys[k]] == Dedup(NamesWithGenre(refs, keys[k]))
  {
  }

  /**
   * The pass over the genre map in key order: one genre node per key,
   * then one artist-genre link per artist name listed under it.
   */
  method AppendGenres(nodes: seq<Node>, links: seq<Link>, keys: seq<string>, table: map<string, seq<string>>, ghost refs: seq<Artist>)
    returns (nodes': seq<Node>, links': seq<Link>)
    requires GenreTable(keys, table, refs)
    ensures nodes' == nodes + GenreNodes(keys)
    ensures links' == links + GenreLinks(refs, keys)
  {
    nodes', links' := nodes, links;
    for k := 0 to |keys|
      invariant nodes' == nodes + GenreNodes(keys[..k])
      invariant links' == links + GenreLinks(refs, keys[..k])
    {
      var genre := keys[k];
      GenreTableLookup(keys, table, refs, k);
      GenrePrefixSnoc(nodes, links, refs, keys, k);
      nodes' := nodes' + [Node(genre, genre, GenreNode, [])];
      links' := AppendGenreLinks(links', genre, table[genre]);
    }
    assert keys[..|keys|] == keys;
  }

  /**
   * The track node of one record: a node with the record's id, of any
   * kind, gains the record's playlist id; otherwise a track node is pushed.
   */
  method AddTrackNode(nodes: seq<Node>, track: Track, ghost items: seq<Node>, ghost done: seq<Track>)
    returns (nodes': seq<Node>)
    requires Reflects(nodes, items, done) && Covers(items, done)
    ensures Reflects(nodes', items + [TrackItem(track)], done + [track])
    ensures Covers(items + [TrackItem(track)], done + [track])
  {
    var existing := FindById(nodes, track.id);
    if existing.Some? {
      var k := existing.value;
      TrackFoundStep(nodes, items, done, track, k);
      nodes' := nodes[k := nodes[k].(playlistIds := nodes[k].playlistIds + [track.playlistId])];
    } else {
      TrackNewStep(nodes, items, done, track);
      nodes' := nodes + [Node(track.id, track.name, TrackNode, [track.playlistId])];
    }
  }

  /** The artist node of one artist reference: pushed unless some node has its name as id. */
  method AddArtistNode(nodes: seq<Node>, artist: Artist, ghost items: seq<Node>, ghost tracks: seq<Track>)
    returns (nodes': seq<Node>)
    requires Reflects(nodes, items, tracks) && Covers(items, tracks)
    ensures Reflects(nodes', items + [ArtistItem(artist)], tracks)
    ensures Covers(items + [ArtistItem(artist)], tracks)
  {
    if FindById(nodes, artist.name).None? {
      ArtistNewStep(nodes, items, tracks, artist);
      nodes' := nodes + [Node(artist.name, artist.name, ArtistNode, [])];
    } else {
      ArtistFoundStep(nodes, items, tracks, artist);
      nodes' := nodes;
    }
  }

  /** The state of the builder after the track/artist pass over `tracks`. */
  ghost predicate PassState(nodes: seq<Node>, links: seq<Link>, keys: seq<string>, table: map<string, seq<string>>, tracks: seq<Track>)
  {
    && Reflects(nodes, Items(tracks), tracks)
    && Covers(Items(tracks), tracks)
    && links == TrackArtistLinks(tracks)
    && GenreTable(keys, table, Refs(tracks))
  }

  lemma ReflectsPass(nodes: seq<Node>, tracks: seq<Track>)
    requires Reflects(nodes, Items(tracks), tracks)
    ensures nodes == PassNodes(tracks)
  {
  }

  /** The state after the track of `track` and its first `j` artists. */
  ghost predicate ArtistsState(nodes: seq<Node>, links: seq<Link>, keys: seq<string>, table: map<string, seq<string>>,
                               done: seq<Track>, track: Track, j: nat)
  {
    && j <= |track.artists|
    && var items := Items(done) + [TrackItem(track)] + ArtistItems(track.artists[..j]);
    && Reflects(nodes, items, done + [track])
    && Covers(items, done + [track])
    && links == TrackArtistLinks(done) + ArtistLinks(track.id, track.artists[..j])
    && GenreTable(keys, table, Refs(done) + track.artists[..j])
  }

  /**
   * One artist of a record: its node if no node has its name, its
   * track-artist link, and its genres.
   */
  method AddArtist(nodes: seq<Node>, links: seq<Link>, keys: seq<string>, table: map<string, seq<string>>,
                   track: Track, j: nat, ghost done: seq<Track>)
    returns (nodes': seq<Node>, links': seq<Link>, keys': seq<string>, table': map<string, seq<string>>)
    requires j < |track.artists| && ArtistsState(nodes, links, keys, table, done, track, j)
    ensures ArtistsState(nodes', links', keys', table', done, track, j + 1)
  {
    var artist := track.artists[j];
    ghost var items := Items(done) + [TrackItem(track)] + ArtistItems(track.artists[..j]);
    ArtistPrefixSnoc(track.id, track.artists, j);
    nodes' := AddArtistNode(nodes, artist, items, done + [track]);
    links' := links + [Link(track.id, artist.name, TrackArtist)];
    keys', table' := CollectGenres(keys, table, artist, Refs(done) + track.artists[..j]);
    AppendPrefixSnoc(Refs(done), track.artists, j);
    assert items + [ArtistItem(artist)] == Items(done) + [TrackItem(track)] + ArtistItems(track.artists[..j + 1]);
  }

  lemma ArtistsStart(nodes: seq<Node>, links: seq<Link>, keys: seq<string>, table: map<string, seq<string>>,
                     done: seq<Track>, track: Track)
    requires Reflects(nodes, Items(done) + [TrackItem(track)], done + [track])
    requires Covers(Items(done) + [TrackItem(track)], done + [track])
    requires links == TrackArtistLinks(done) && GenreTable(keys, table, Refs(done))
    ensures ArtistsState(nodes, links, keys, table, done, track, 0)
  {
    assert track.artists[..0] == [];
    assert Refs(done) + track.artists[..0] == Refs(done);
    assert Items(done) + [TrackItem(track)] + ArtistItems(track.artists[..0]) == Items(done) + [TrackItem(track)];
    assert TrackArtistLinks(done) + ArtistLinks(track.id, track.artists[..0]) == TrackArtistLinks(done);
  }

  lemma ArtistsEnd(nodes: seq<Node>, links: seq<Link>, keys: seq<string>, table: map<string, seq<string>>,
                   done: seq<Track>, track: Track)
    requires ArtistsState(nodes, links, keys, table, done, track, |track.artists|)
    ensures PassState(nodes, links, keys, table, done + [track])
  {
    RecordSnoc(done, track);
    assert track.artists[..|track.artists|] == track.artists;
  }

  /**
   * One record of the track/artist pass: the track node (new, or the
   * existing node of that id gaining the playlist id), then for each artist
   * reference the artist node, the track-artist link and the genres.
   */
  method AddRecord(nodes: seq<Node>, links: seq<Link>, keys: seq<string>, table: map<string, seq<string>>,
                   track: Track, ghost done: seq<Track>)
    returns (nodes': seq<Node>, links': seq<Link>, keys': seq<string>, table': map<string, seq<string>>)
    requires PassState(nodes, links, keys, table, done)
    ensures PassState(nodes', links', keys', table', done + [track])
  {
    nodes' := AddTrackNode(nodes, track, Items(done), done);
    links', keys', table' := links, keys, table;
    ArtistsStart(nodes', links', keys', table', done, track);
    for j := 0 to |track.artists|
      invariant ArtistsState(nodes', links', keys', table', done, track, j)
    {
      nodes', links', keys', table' := AddArtist(nodes', links', keys', table', track, j, done);
    }
    ArtistsEnd(nodes', links', keys', table', done, track);
  }

  /** The node and link construction of the graph component, in input order. */
  method BuildGraph(tracks: seq<Track>) returns (nodes: seq<Node>, links: seq<Link>)
    ensures Graph(nodes, links) == GraphOf(tracks)
  {
    nodes, links := [], [];
    var genreKeys: seq<string> := [];
    var genreMap: map<string, seq<string>> := map[];
    for i := 0 to |tracks|
      invariant PassState(nodes, links, genreKeys, genreMap, tracks[..i])
    {
      assert tracks[..i + 1] == tracks[..i] + [tracks[i]];
      nodes, links, genreKeys, genreMap := AddRecord(nodes, links, genreKeys, genreMap, tracks[i], tracks[..i]);
    }
    assert tracks[..|tracks|] == tracks;
    ReflectsPass(nodes, tracks);
    nodes, links := AppendGenres(nodes, links, genreKeys, genreMap, Refs(tracks));
  }

  /**
   * The effect that draws the graph: nothing is built while the drawing
   * surface is not mounted or there are no records; otherwise the graph of
   * the records is built (and then handed to the layout, which is not
   * modelled).
   */
  method RenderGraph(surfaceMounted: bool, tracks: seq<Track>) returns (g: Option<Graph>)
    ensures g.None? <==> !surfaceMounted || |tracks| == 0
    ensures g.Some? ==> g.value == GraphOf(tracks)
  {
    if !surfaceMounted || |tracks| == 0 {
      return None;
    }
    var nodes, links := BuildGraph(tracks);
    g := Some(Graph(nodes, links));
  }
}
