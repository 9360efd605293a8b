/**
 * What the graph builder promises, stated about the reference definitions
 * that `PlaylistGraph.BuildGraph` is proved to compute.
 */
module GraphProperties {
  import opened Wrappers
  import opened Seqs
  import opened PlaylistGraph

  // ---------------------------------------------------------------------
  // Helpers about ids and items
  // ---------------------------------------------------------------------

  lemma HasIdAppend(a: seq<Node>, b: seq<Node>, id: string)
    ensures HasId(a + b, id) <==> HasId(a, id) || HasId(b, id)
  {
    if HasId(a + b, id) {
      var k :| 0 <= k < |a + b| && (a + b)[k].id == id;
      if k >= |a| { assert b[k - |a|] == (a + b)[k]; }
    }
    if HasId(b, id) {
      var k :| 0 <= k < |b| && b[k].id == id;
      assert (a + b)[|a| + k] == b[k];
    }
    if HasId(a, id) { HasIdExtend(a, b, id); }
  }

  /** A name that some artist reference carries. */
  ghost predicate IsArtistName(tracks: seq<Track>, name: string)
  {
    exists a :: a in Refs(tracks) && a.name == name
  }

  lemma {:induction false} ArtistItemsHasId(artists: seq<Artist>, id: string)
    ensures HasId(ArtistItems(artists), id) <==> exists a :: a in artists && a.name == id
    decreases |artists|
  {
    if |artists| > 0 {
      var p, a := artists[..|artists| - 1], artists[|artists| - 1];
      assert artists == p + [a];
      ArtistItemsHasId(p, id);
      HasIdAppend(ArtistItems(p), [ArtistItem(a)], id);
      assert HasId([ArtistItem(a)], id) <==> a.name == id by {
        if a.name == id { assert [ArtistItem(a)][0].id == id; }
      }
    }
  }

  /** The ids among the items are the records' track ids and the artists' names. */
  lemma {:induction false} ItemsHasId(tracks: seq<Track>, id: string)
    ensures HasId(Items(tracks), id) <==> id in TrackIds(tracks) || IsArtistName(tracks, id)
    decreases |tracks|
  {
    if |tracks| > 0 {
      var d, t := tracks[..|tracks| - 1], tracks[|tracks| - 1];
      assert tracks == d + [t];
      RecordSnoc(d, t);
      ItemsHasId(d, id);
      ArtistItemsHasId(t.artists, id);
      HasIdAppend(Items(d) + [TrackItem(t)], ArtistItems(t.artists), id);
      HasIdAppend(Items(d), [TrackItem(t)], id);
      assert HasId([TrackItem(t)], id) <==> t.id == id by {
        if t.id == id { assert [TrackItem(t)][0].id == id; }
      }
      assert TrackIds(tracks) == TrackIds(d) + [t.id];
      assert IsArtistName(tracks, id) <==> IsArtistName(d, id) || exists a :: a in t.artists && a.name == id;
    }
  }

  /** Every first item by id is one of the items. */
  lemma {:induction false} FirstByIdFromItems(items: seq<Node>)
    ensures forall n :: n in FirstById(items) ==> n in items
    decreases |items|
  {
    if |items| > 0 {
      var prev := items[..|items| - 1];
      FirstByIdFromItems(prev);
      assert items == prev + [items[|items| - 1]];
    }
  }

  lemma {:induction false} ArtistItemsOrigin(artists: seq<Artist>)
    ensures forall n :: n in ArtistItems(artists) ==> exists a :: a in artists && n == ArtistItem(a)
    decreases |artists|
  {
    if |artists| > 0 {
      var p := artists[..|artists| - 1];
      ArtistItemsOrigin(p);
      assert artists == p + [artists[|artists| - 1]];
    }
  }

  /** Each item comes from a record's track or from an artist reference. */
  lemma {:induction false} ItemsOrigin(tracks: seq<Track>)
    ensures forall n :: n in Items(tracks) ==>
      (exists r :: r in tracks && n == TrackItem(r)) || (exists a :: a in Refs(tracks) && n == ArtistItem(a))
    decreases |tracks|
  {
    if |tracks| > 0 {
      var d, t := tracks[..|tracks| - 1], tracks[|tracks| - 1];
      assert tracks == d + [t];
      RecordSnoc(d, t);
      ItemsOrigin(d);
      ArtistItemsOrigin(t.artists);
    }
  }

  // ---------------------------------------------------------------------
  // Nodes of the track/artist pass
  // ---------------------------------------------------------------------

  /**
   * After the track/artist pass node ids are pairwise distinct: every push
   * is guarded by a search for the same id over all nodes.
   */
  lemma PassNodeIdsDistinct(tracks: seq<Track>)
    ensures DistinctIds(PassNodes(tracks))
  {
    FirstByIdDistinct(Items(tracks));
  }

  /** The pass has a node for exactly the track ids and the artist names of the input. */
  lemma PassNodeIds(tracks: seq<Track>, id: string)
    ensures HasId(PassNodes(tracks), id) <==> id in TrackIds(tracks) || IsArtistName(tracks, id)
  {
    var f := FirstById(Items(tracks));
    FirstByIdHasId(Items(tracks), id);
    ItemsHasId(tracks, id);
    if HasId(PassNodes(tracks), id) {
      var k :| 0 <= k < |PassNodes(tracks)| && PassNodes(tracks)[k].id == id;
      assert f[k].id == id;
    }
    if HasId(f, id) {
      var k :| 0 <= k < |f| && f[k].id == id;
      assert PassNodes(tracks)[k].id == id;
    }
  }

  /** Every pass node is a track node from some record or an artist node from some reference. */
  lemma PassNodeOrigin(tracks: seq<Track>, k: nat)
    requires k < |PassNodes(tracks)|
    ensures var n := PassNodes(tracks)[k];
      n.playlistIds == PlaylistsOf(tracks, n.id) &&
      ((n.kind == TrackNode && exists r :: r in tracks && r.id == n.id && r.name == n.name) ||
       (n.kind == ArtistNode && n.name == n.id && IsArtistName(tracks, n.id)))
  {
    var items := Items(tracks);
    var f := FirstById(items);
    FirstByIdFromItems(items);
    ItemsOrigin(tracks);
    assert f[k] in f;
  }

  /** The number of records with a given track id. */
  lemma {:induction false} PlaylistsOfCount(tracks: seq<Track>, id: string)
    ensures |PlaylistsOf(tracks, id)| == multiset(TrackIds(tracks))[id]
    decreases |tracks|
  {
    if |tracks| > 0 {
      PlaylistsOfCount(tracks[..|tracks| - 1], id);
    }
  }

  /**
   * A track id carried by k records, and by no artist, gives exactly one
   * node: a track node whose playlist ids are the k records' playlist ids
   * in input order, repeats kept.
   */
  lemma RepeatedTrackNode(tracks: seq<Track>, id: string)
    requires id in TrackIds(tracks) && !IsArtistName(tracks, id)
    ensures exists k :: 0 <= k < |PassNodes(tracks)| && PassNodes(tracks)[k].id == id
    ensures forall k :: 0 <= k < |PassNodes(tracks)| && PassNodes(tracks)[k].id == id ==>
      && PassNodes(tracks)[k].kind == TrackNode
      && PassNodes(tracks)[k].playlistIds == PlaylistsOf(tracks, id)
      && |PassNodes(tracks)[k].playlistIds| == multiset(TrackIds(tracks))[id]
      && forall j :: 0 <= j < |PassNodes(tracks)| && j != k ==> PassNodes(tracks)[j].id != id
  {
    PassNodeIds(tracks, id);
    PassNodeIdsDistinct(tracks);
    PlaylistsOfCount(tracks, id);
    forall k | 0 <= k < |PassNodes(tracks)| && PassNodes(tracks)[k].id == id
      ensures PassNodes(tracks)[k].kind == TrackNode
    {
      PassNodeOrigin(tracks, k);
    }
  }

  // ---------------------------------------------------------------------
  // Which item owns an id
  // ---------------------------------------------------------------------

  /** Later items never change the first items by id of a prefix. */
  lemma {:induction false} FirstByIdPrefix(p: seq<Node>, q: seq<Node>)
    ensures FirstById(p) <= FirstById(p + q)
    decreases |q|
  {
    if |q| == 0 {
      assert p + q == p;
    } else {
      var q', y := q[..|q| - 1], q[|q| - 1];
      assert p + q == (p + q') + [y];
      FirstByIdPrefix(p, q');
      FirstByIdSnoc(p + q', y);
    }
  }

  /** The items of the first `m` records come first. */
  lemma {:induction false} ItemsPrefix(tracks: seq<Track>, m: nat)
    requires m <= |tracks|
    ensures Items(tracks[..m]) <= Items(tracks)
    decreases |tracks|
  {
    if m < |tracks| {
      var d := tracks[..|tracks| - 1];
      assert d[..m] == tracks[..m];
      ItemsPrefix(d, m);
    } else {
      assert tracks[..m] == tracks;
    }
  }

  lemma {:induction false} ArtistItemsPrefix(artists: seq<Artist>, m: nat)
    requires m <= |artists|
    ensures ArtistItems(artists[..m]) <= ArtistItems(artists)
    decreases |artists|
  {
    if m < |artists| {
      var p := artists[..|artists| - 1];
      assert p[..m] == artists[..m];
      ArtistItemsPrefix(p, m);
    } else {
      assert artists[..m] == artists;
    }
  }

  /**
   * When some item of a prefix has the id of `n`, and every such item is
   * `n`, the one first item by id with that id is `n`.
   */
  lemma FirstByIdOwner(items: seq<Node>, p: seq<Node>, n: Node)
    requires p <= items && HasId(p, n.id)
    requires forall m :: m in p && m.id == n.id ==> m == n
    ensures exists k :: 0 <= k < |FirstById(items)| && FirstById(items)[k] == n
    ensures forall k :: 0 <= k < |FirstById(items)| && FirstById(items)[k].id == n.id ==> FirstById(items)[k] == n
  {
    FirstByIdHasId(p, n.id);
    var fp := FirstById(p);
    var k0 :| 0 <= k0 < |fp| && fp[k0].id == n.id;
    FirstByIdFromItems(p);
    assert fp[k0] in fp;
    assert items == p + items[|p|..];
    FirstByIdPrefix(p, items[|p|..]);
    assert FirstById(items)[k0] == n;
    FirstByIdDistinct(items);
  }

  /** The same, stated for the pass nodes, which carry their playlist ids. */
  lemma PassNodeOwner(tracks: seq<Track>, p: seq<Node>, n: Node)
    requires p <= Items(tracks) && HasId(p, n.id)
    requires forall m :: m in p && m.id == n.id ==> m == n
    ensures exists k :: 0 <= k < |PassNodes(tracks)| && PassNodes(tracks)[k].id == n.id
    ensures forall k :: 0 <= k < |PassNodes(tracks)| && PassNodes(tracks)[k].id == n.id ==>
      PassNodes(tracks)[k] == n.(playlistIds := PlaylistsOf(tracks, n.id))
  {
    var f := FirstById(Items(tracks));
    FirstByIdOwner(Items(tracks), p, n);
    var k0 :| 0 <= k0 < |f| && f[k0] == n;
    assert PassNodes(tracks)[k0].id == n.id;
    forall k | 0 <= k < |PassNodes(tracks)| && PassNodes(tracks)[k].id == n.id
      ensures PassNodes(tracks)[k] == n.(playlistIds := PlaylistsOf(tracks, n.id))
    {
      assert f[k].id == n.id;
    }
  }

  /**
   * The first record with a track id, when no artist reference of an
   * earlier record has that id as its name, owns the id: the one pass node
   * with it is a track node with that record's name, holding the playlist
   * ids of all records with the id, in input order, repeats kept.
   */
  lemma RecordOwnsId(tracks: seq<Track>, i: nat)
    requires i < |tracks|
    requires forall i' :: 0 <= i' < i ==> tracks[i'].id != tracks[i].id
    requires forall a :: a in Refs(tracks[..i]) ==> a.name != tracks[i].id
    ensures exists k :: 0 <= k < |PassNodes(tracks)| && PassNodes(tracks)[k].id == tracks[i].id
    ensures forall k :: 0 <= k < |PassNodes(tracks)| && PassNodes(tracks)[k].id == tracks[i].id ==>
      PassNodes(tracks)[k] == Node(tracks[i].id, tracks[i].name, TrackNode, PlaylistsOf(tracks, tracks[i].id))
  {
    var t, d := tracks[i], tracks[..i];
    var n := TrackItem(t);
    var p := Items(d) + [n];
    assert p <= Items(tracks) by {
      assert tracks[..i + 1] == d + [t];
      RecordSnoc(d, t);
      ItemsPrefix(tracks, i + 1);
    }
    assert HasId(p, t.id) by { assert p[|Items(d)|] == n; }
    assert forall m :: m in Items(d) ==> m.id != t.id by {
      ItemsOrigin(d);
      forall r | r in d ensures r.id != t.id {
        var i' :| 0 <= i' < |d| && d[i'] == r;
        assert tracks[i'] == r;
      }
    }
    PassNodeOwner(tracks, p, n);
  }

  /**
   * An artist reference whose name no record up to and including its own
   * carries as track id owns that id: the one pass node with it is an
   * artist node, and every later record with that track id adds its
   * playlist id to this artist node.
   */
  lemma ArtistOwnsId(tracks: seq<Track>, i: nat, j: nat)
    requires i < |tracks| && j < |tracks[i].artists|
    requires forall i' :: 0 <= i' <= i ==> tracks[i'].id != tracks[i].artists[j].name
    ensures exists k :: 0 <= k < |PassNodes(tracks)| && PassNodes(tracks)[k].id == tracks[i].artists[j].name
    ensures var x := tracks[i].artists[j].name;
      forall k :: 0 <= k < |PassNodes(tracks)| && PassNodes(tracks)[k].id == x ==>
        PassNodes(tracks)[k] == Node(x, x, ArtistNode, PlaylistsOf(tracks, x))
  {
    var t, d := tracks[i], tracks[..i];
    var a := t.artists[j];
    var n := ArtistItem(a);
    var front := Items(d) + [TrackItem(t)];
    var p := front + ArtistItems(t.artists[..j + 1]);
    assert p <= Items(tracks) by {
      assert tracks[..i + 1] == d + [t];
      RecordSnoc(d, t);
      ItemsPrefix(tracks, i + 1);
      ArtistItemsPrefix(t.artists, j + 1);
      PrefixAppend(front, ArtistItems(t.artists[..j + 1]), ArtistItems(t.artists));
    }
    ArtistPrefixSnoc(t.id, t.artists, j);
    assert HasId(p, a.name) by { assert p[|p| - 1] == n; }
    assert forall m :: m in Items(d) && m.id == a.name ==> m == n by {
      ItemsOrigin(d);
      forall r | r in d ensures r.id != a.name {
        var i' :| 0 <= i' < |d| && d[i'] == r;
        assert tracks[i'] == r;
      }
    }
    assert forall m :: m in ArtistItems(t.artists[..j + 1]) && m.id == a.name ==> m == n by {
      ArtistItemsOrigin(t.artists[..j + 1]);
    }
    assert tracks[i].id != a.name;
    PassNodeOwner(tracks, p, n);
  }

  // ---------------------------------------------------------------------
  // Links
  // ---------------------------------------------------------------------

  lemma {:induction false} ArtistLinksShape(trackId: string, artists: seq<Artist>)
    ensures |ArtistLinks(trackId, artists)| == |artists|
    ensures forall k :: 0 <= k < |artists| ==> ArtistLinks(trackId, artists)[k] == Link(trackId, artists[k].name, TrackArtist)
    decreases |artists|
  {
    if |artists| > 0 {
      ArtistLinksShape(trackId, artists[..|artists| - 1]);
    }
  }

  /**
   * One track-artist link per artist reference, in input order, not
   * deduplicated: link k goes from its record's track to reference k.
   */
  lemma {:induction false} TrackArtistLinkCount(tracks: seq<Track>)
    ensures |TrackArtistLinks(tracks)| == |Refs(tracks)|
    ensures forall k :: 0 <= k < |Refs(tracks)| ==>
      && TrackArtistLinks(tracks)[k].kind == TrackArtist
      && TrackArtistLinks(tracks)[k].target == Refs(tracks)[k].name
      && TrackArtistLinks(tracks)[k].source in TrackIds(tracks)
    decreases |tracks|
  {
    if |tracks| > 0 {
      var d, t := tracks[..|tracks| - 1], tracks[|tracks| - 1];
      assert tracks == d + [t];
      RecordSnoc(d, t);
      TrackArtistLinkCount(d);
      ArtistLinksShape(t.id, t.artists);
      assert TrackIds(tracks) == TrackIds(d) + [t.id];
      var links := TrackArtistLinks(tracks);
      forall k | 0 <= k < |Refs(tracks)|
        ensures links[k].kind == TrackArtist && links[k].target == Refs(tracks)[k].name && links[k].source in TrackIds(tracks)
      {
        if k < |Refs(d)| {
          assert links[k] == TrackArtistLinks(d)[k] && Refs(tracks)[k] == Refs(d)[k];
        } else {
          assert links[k] == ArtistLinks(t.id, t.artists)[k - |Refs(d)|];
          assert Refs(tracks)[k] == t.artists[k - |Refs(d)|];
        }
      }
    }
  }

  lemma {:induction false} TrackArtistLinksPrefix(tracks: seq<Track>, m: nat)
    requires m <= |tracks|
    ensures TrackArtistLinks(tracks[..m]) <= TrackArtistLinks(tracks)
    ensures Refs(tracks[..m]) <= Refs(tracks)
    decreases |tracks|
  {
    if m < |tracks| {
      var d := tracks[..|tracks| - 1];
      assert d[..m] == tracks[..m];
      TrackArtistLinksPrefix(d, m);
    } else {
      assert tracks[..m] == tracks;
    }
  }

  /**
   * Artist j of record i is reference |Refs(tracks[..i])| + j, and the
   * link at that position joins record i's track id to that artist's name.
   */
  lemma TrackArtistLinkAt(tracks: seq<Track>, i: nat, j: nat)
    requires i < |tracks| && j < |tracks[i].artists|
    ensures |Refs(tracks[..i])| + j < |Refs(tracks)| == |TrackArtistLinks(tracks)|
    ensures Refs(tracks)[|Refs(tracks[..i])| + j] == tracks[i].artists[j]
    ensures TrackArtistLinks(tracks)[|Refs(tracks[..i])| + j] == Link(tracks[i].id, tracks[i].artists[j].name, TrackArtist)
  {
    var t, d := tracks[i], tracks[..i];
    assert tracks[..i + 1] == d + [t];
    RecordSnoc(d, t);
    TrackArtistLinksPrefix(tracks, i + 1);
    TrackArtistLinkCount(d);
    TrackArtistLinkCount(tracks);
    ArtistLinksShape(t.id, t.artists);
  }

  lemma {:induction false} GenreArtistLinksShape(g: string, names: seq<string>)
    ensures |GenreArtistLinks(g, names)| == |names|
    ensures forall k :: 0 <= k < |names| ==> GenreArtistLinks(g, names)[k] == Link(names[k], g, ArtistGenre)
    decreases |names|
  {
    if |names| > 0 {
      GenreArtistLinksShape(g, names[..|names| - 1]);
    }
  }

  /**
   * The artist-genre links are exactly the pairs of a genre key and an
   * artist name listed under it.
   */
  lemma {:induction false} GenreLinksExact(refs: seq<Artist>, keys: seq<string>, l: Link)
    ensures l in GenreLinks(refs, keys) <==>
      l.kind == ArtistGenre && l.target in keys && l.source in Dedup(NamesWithGenre(refs, l.target))
    decreases |keys|
  {
    if |keys| > 0 {
      var init, g := keys[..|keys| - 1], keys[|keys| - 1];
      assert keys == init + [g];
      GenreLinksExact(refs, init, l);
      var names := Dedup(NamesWithGenre(refs, g));
      GenreArtistLinksShape(g, names);
      if l in GenreArtistLinks(g, names) {
        var k :| 0 <= k < |names| && GenreArtistLinks(g, names)[k] == l;
      }
      if l.kind == ArtistGenre && l.target == g && l.source in names {
        var k :| 0 <= k < |names| && names[k] == l.source;
        assert GenreArtistLinks(g, names)[k] == l;
      }
    }
  }

  /** No artist-genre link occurs twice when the genre keys are distinct. */
  lemma {:induction false} GenreLinksDistinct(refs: seq<Artist>, keys: seq<string>)
    requires Distinct(keys)
    ensures Distinct(GenreLinks(refs, keys))
    decreases |keys|
  {
    if |keys| > 0 {
      var init, g := keys[..|keys| - 1], keys[|keys| - 1];
      assert keys == init + [g];
      assert Distinct(init);
      GenreLinksDistinct(refs, init);
      var names := Dedup(NamesWithGenre(refs, g));
      DedupDistinct(NamesWithGenre(refs, g));
      GenreArtistLinksShape(g, names);
      var a, b := GenreLinks(refs, init), GenreArtistLinks(g, names);
      forall i, j | 0 <= i < j < |a + b| ensures (a + b)[i] != (a + b)[j] {
        if j < |a| {
          assert (a + b)[i] == a[i] && (a + b)[j] == a[j];
        } else if i >= |a| {
          assert (a + b)[i] == b[i - |a|] && (a + b)[j] == b[j - |a|];
        } else {
          assert (a + b)[i] == a[i] && (a + b)[j] == b[j - |a|];
          GenreLinksExact(refs, init, a[i]);
          assert a[i] in a;
        }
      }
    }
  }

  /** The genre strings listed anywhere in the references. */
  lemma {:induction false} AllGenresExact(refs: seq<Artist>, g: string)
    ensures g in AllGenres(refs) <==> exists a :: a in refs && g in GenresOf(a)
    decreases |refs|
  {
    if |refs| > 0 {
      var p := refs[..|refs| - 1];
      assert refs == p + [refs[|refs| - 1]];
      AllGenresExact(p, g);
    }
  }

  lemma {:induction false} NamesWithGenreExact(refs: seq<Artist>, g: string, x: string)
    ensures x in NamesWithGenre(refs, g) <==> exists a :: a in refs && a.name == x && g in GenresOf(a)
    decreases |refs|
  {
    if |refs| > 0 {
      var p := refs[..|refs| - 1];
      assert refs == p + [refs[|refs| - 1]];
      NamesWithGenreExact(p, g, x);
    }
  }

  /**
   * The genre keys are distinct and are exactly the genres that some
   * artist reference lists.
   */
  lemma GenreKeysExact(tracks: seq<Track>)
    ensures Distinct(GenreKeys(tracks))
    ensures forall g :: g in GenreKeys(tracks) <==> IsGenre(tracks, g)
  {
    DedupDistinct(AllGenres(Refs(tracks)));
    DedupElements(AllGenres(Refs(tracks)));
    forall g ensures g in AllGenres(Refs(tracks)) <==> IsGenre(tracks, g) {
      AllGenresExact(Refs(tracks), g);
    }
  }

  /**
   * The artist list of a genre has no repeated name and holds exactly the
   * names of the artist references listing that genre.
   */
  lemma GenreArtistsExact(tracks: seq<Track>, g: string)
    ensures Distinct(GenreArtists(tracks, g))
    ensures forall x :: x in GenreArtists(tracks, g) <==> exists a :: a in Refs(tracks) && a.name == x && g in GenresOf(a)
  {
    DedupDistinct(NamesWithGenre(Refs(tracks), g));
    DedupElements(NamesWithGenre(Refs(tracks), g));
    forall x ensures x in NamesWithGenre(Refs(tracks), g) <==> exists a :: a in Refs(tracks) && a.name == x && g in GenresOf(a) {
      NamesWithGenreExact(Refs(tracks), g, x);
    }
  }

  // ---------------------------------------------------------------------
  // The whole graph
  // ---------------------------------------------------------------------

  lemma {:induction false} GenreNodesShape(genres: seq<string>)
    ensures |GenreNodes(genres)| == |genres|
    ensures forall k :: 0 <= k < |genres| ==> GenreNodes(genres)[k] == Node(genres[k], genres[k], GenreNode, [])
    decreases |genres|
  {
    if |genres| > 0 {
      GenreNodesShape(genres[..|genres| - 1]);
    }
  }

  /**
   * The node list is the pass nodes (track and artist nodes only) followed by
   * exactly one genre node per distinct genre key, in key order.
   */
  lemma GenreNodesLast(tracks: seq<Track>)
    ensures var nodes, pass, keys := GraphOf(tracks).nodes, PassNodes(tracks), GenreKeys(tracks);
      && |nodes| == |pass| + |keys|
      && (forall k :: 0 <= k < |pass| ==> nodes[k].kind != GenreNode)
      && (forall k :: 0 <= k < |keys| ==> nodes[|pass| + k] == Node(keys[k], keys[k], GenreNode, []))
  {
    var pass, keys := PassNodes(tracks), GenreKeys(tracks);
    GenreNodesShape(keys);
    forall k | 0 <= k < |pass| ensures GraphOf(tracks).nodes[k].kind != GenreNode {
      PassNodeOrigin(tracks, k);
    }
  }

  /**
   * The link list is the track-artist links, one per artist reference,
   * followed by the artist-genre links, each (artist, genre) pair once;
   * no track-artist link comes after an artist-genre link.
   */
  lemma LinksOrdered(tracks: seq<Track>)
    ensures var links := GraphOf(tracks).links;
      && |Refs(tracks)| <= |links|
      && (forall k :: 0 <= k < |Refs(tracks)| ==> links[k].kind == TrackArtist)
      && (forall k :: |Refs(tracks)| <= k < |links| ==> links[k].kind == ArtistGenre)
      && Distinct(links[|Refs(tracks)|..])
  {
    var links := GraphOf(tracks).links;
    var ta, ag := TrackArtistLinks(tracks), GenreLinks(Refs(tracks), GenreKeys(tracks));
    TrackArtistLinkCount(tracks);
    GenreKeysExact(tracks);
    GenreLinksDistinct(Refs(tracks), GenreKeys(tracks));
    assert links == ta + ag;
    assert links[|Refs(tracks)|..] == ag;
    forall k | |Refs(tracks)| <= k < |links| ensures links[k].kind == ArtistGenre {
      assert links[k] == ag[k - |ta|];
      GenreLinksExact(Refs(tracks), GenreKeys(tracks), ag[k - |ta|]);
    }
  }

  lemma TrackArtistEndpoints(tracks: seq<Track>, l: Link)
    requires l in TrackArtistLinks(tracks)
    ensures HasId(PassNodes(tracks), l.source) && HasId(PassNodes(tracks), l.target)
  {
    var ta, refs := TrackArtistLinks(tracks), Refs(tracks);
    TrackArtistLinkCount(tracks);
    var k :| 0 <= k < |ta| && ta[k] == l;
    assert refs[k] in refs;
    PassNodeIds(tracks, l.source);
    PassNodeIds(tracks, l.target);
  }

  lemma GenreLinkEndpoints(tracks: seq<Track>, l: Link)
    requires l in GenreLinks(Refs(tracks), GenreKeys(tracks))
    ensures HasId(PassNodes(tracks), l.source) && l.target in GenreKeys(tracks)
  {
    GenreLinksExact(Refs(tracks), GenreKeys(tracks), l);
    GenreArtistsExact(tracks, l.target);
    PassNodeIds(tracks, l.source);
  }

  lemma PassIdInGraph(tracks: seq<Track>, id: string)
    requires HasId(PassNodes(tracks), id)
    ensures HasId(GraphOf(tracks).nodes, id)
  {
    HasIdExtend(PassNodes(tracks), GenreNodes(GenreKeys(tracks)), id);
  }

  lemma GenreIdInGraph(tracks: seq<Track>, g: string)
    requires g in GenreKeys(tracks)
    ensures HasId(GraphOf(tracks).nodes, g)
  {
    var pass, keys := PassNodes(tracks), GenreKeys(tracks);
    GenreNodesShape(keys);
    var k :| 0 <= k < |keys| && keys[k] == g;
    assert (pass + GenreNodes(keys))[|pass| + k] == GenreNodes(keys)[k];
  }

  /** Every link's source and target are ids of nodes of the graph. */
  lemma LinkEndpointsExist(tracks: seq<Track>)
    ensures var g := GraphOf(tracks);
      forall l :: l in g.links ==> HasId(g.nodes, l.source) && HasId(g.nodes, l.target)
  {
    var links := GraphOf(tracks).links;
    forall l | l in links ensures HasId(GraphOf(tracks).nodes, l.source) && HasId(GraphOf(tracks).nodes, l.target) {
      if l in TrackArtistLinks(tracks) {
        TrackArtistEndpoints(tracks, l);
        PassIdInGraph(tracks, l.source);
        PassIdInGraph(tracks, l.target);
      } else {
        GenreLinkEndpoints(tracks, l);
        PassIdInGraph(tracks, l.source);
        GenreIdInGraph(tracks, l.target);
      }
    }
  }

  /** An empty record list builds no node and no link. */
  lemma EmptyGraph(tracks: seq<Track>)
    ensures GraphOf(tracks).nodes == [] <==> tracks == []
    ensures tracks == [] ==> GraphOf(tracks).links == []
  {
    if tracks != [] {
      var d, t := tracks[..|tracks| - 1], tracks[|tracks| - 1];
      assert tracks == d + [t];
      PassNodeIds(tracks, t.id);
      assert TrackIds(tracks) == TrackIds(d) + [t.id];
    }
  }

  // ---------------------------------------------------------------------
  // Node id uniqueness across kinds
  // ---------------------------------------------------------------------

  /** A genre string that some artist reference lists. */
  ghost predicate IsGenre(tracks: seq<Track>, g: string)
  {
    exists a :: a in Refs(tracks) && g in GenresOf(a)
  }

  /** A string that is a pass id and a genre gives two nodes with one id. */
  lemma CollisionBreaksDistinct(tracks: seq<Track>, x: string)
    requires x in TrackIds(tracks) || IsArtistName(tracks, x)
    requires IsGenre(tracks, x)
    ensures !DistinctIds(GraphOf(tracks).nodes)
  {
    var nodes, pass, keys := GraphOf(tracks).nodes, PassNodes(tracks), GenreKeys(tracks);
    GenreNodesLast(tracks);
    GenreKeysExact(tracks);
    PassNodeIds(tracks, x);
    var i :| 0 <= i < |pass| && pass[i].id == x;
    var j :| 0 <= j < |keys| && keys[j] == x;
    assert nodes[i].id == nodes[|pass| + j].id;
  }

  /** In a concatenation of two lists each free of repeated ids, a repeated id straddles the seam. */
  lemma RepeatStraddles(a: seq<Node>, b: seq<Node>, i: nat, j: nat)
    requires DistinctIds(a) && DistinctIds(b)
    requires i < j < |a + b| && (a + b)[i].id == (a + b)[j].id
    ensures i < |a| <= j
  {
  }

  lemma GenreNodeIdsDistinct(keys: seq<string>)
    requires Distinct(keys)
    ensures DistinctIds(GenreNodes(keys))
  {
    GenreNodesShape(keys);
  }

  /** Two nodes with one id are a pass node and a genre node sharing a string. */
  lemma DuplicateIdIsCollision(tracks: seq<Track>) returns (x: string)
    requires !DistinctIds(GraphOf(tracks).nodes)
    ensures x in TrackIds(tracks) || IsArtistName(tracks, x)
    ensures IsGenre(tracks, x)
  {
    var nodes, pass, keys := GraphOf(tracks).nodes, PassNodes(tracks), GenreKeys(tracks);
    var gn := GenreNodes(keys);
    assert nodes == pass + gn;
    var i, j :| 0 <= i < j < |nodes| && nodes[i].id == nodes[j].id;
    assert i < |pass| <= j by {
      PassNodeIdsDistinct(tracks);
      GenreNodeIdsDistinct(keys) by { GenreKeysExact(tracks); }
      RepeatStraddles(pass, gn, i, j);
    }
    x := pass[i].id;
    assert gn[j - |pass|].id == x;
    assert x in TrackIds(tracks) || IsArtistName(tracks, x) by {
      assert HasId(pass, x);
      PassNodeIds(tracks, x);
    }
    assert IsGenre(tracks, x) by {
      GenreNodesShape(keys);
      assert keys[j - |pass|] == x;
      GenreKeysExact(tracks);
    }
  }

  /**
   * Genre nodes are pushed without a search: the node ids of the graph are
   * distinct exactly when no genre string is also a track id or an artist
   * name.
   */
  lemma NodeIdsDistinctIff(tracks: seq<Track>)
    ensures DistinctIds(GraphOf(tracks).nodes) <==>
      forall x :: (x in TrackIds(tracks) || IsArtistName(tracks, x)) ==> !IsGenre(tracks, x)
  {
    if !DistinctIds(GraphOf(tracks).nodes) {
      var x := DuplicateIdIsCollision(tracks);
    }
    forall x | (x in TrackIds(tracks) || IsArtistName(tracks, x)) && IsGenre(tracks, x)
      ensures !DistinctIds(GraphOf(tracks).nodes)
    {
      CollisionBreaksDistinct(tracks, x);
    }
  }

  lemma ArtistItemsOne(a: Artist)
    ensures ArtistItems([a]) == [ArtistItem(a)]
  {
    assert [a][..0] == [];
  }

  lemma ItemsOfPair(t1: Track, t2: Track)
    ensures Items([t1, t2]) == [TrackItem(t1)] + ArtistItems(t1.artists) + [TrackItem(t2)] + ArtistItems(t2.artists)
  {
    RecordSnoc([], t1);
    assert [] + [t1] == [t1];
    RecordSnoc([t1], t2);
    assert [t1] + [t2] == [t1, t2];
  }

  lemma RefsOfPair(t1: Track, t2: Track)
    ensures Refs([t1, t2]) == t1.artists + t2.artists
    ensures TrackArtistLinks([t1, t2]) == ArtistLinks(t1.id, t1.artists) + ArtistLinks(t2.id, t2.artists)
  {
    RecordSnoc([], t1);
    assert [] + [t1] == [t1];
    RecordSnoc([t1], t2);
    assert [t1] + [t2] == [t1, t2];
  }

  lemma PlaylistsOfPair(t1: Track, t2: Track, id: string)
    ensures PlaylistsOf([t1, t2], id) ==
      (if t1.id == id then [t1.playlistId] else []) + (if t2.id == id then [t2.playlistId] else [])
  {
    PlaylistsOfSnoc([], t1, id);
    assert [] + [t1] == [t1];
    PlaylistsOfSnoc([t1], t2, id);
    assert [t1] + [t2] == [t1, t2];
  }

  lemma GenresOfPair(a: Artist, b: Artist, g: string)
    ensures AllGenres([a, b]) == GenresOf(a) + GenresOf(b)
    ensures NamesWithGenre([a, b], g) == (if g in GenresOf(a) then [a.name] else []) + (if g in GenresOf(b) then [b.name] else [])
  {
    assert [a, b][..1] == [a] && [a][..0] == [];
    assert AllGenres([a]) == GenresOf(a) by {
      assert [] + GenresOf(a) == GenresOf(a);
    }
    var na := if g in GenresOf(a) then [a.name] else [];
    assert NamesWithGenre([a], g) == na by {
      assert [] + na == na;
    }
  }

  lemma DedupTwice<T>(x: T)
    ensures Dedup([x, x]) == [x]
  {
    assert [x, x] == [x] + [x];
    DedupSnoc([x], x);
    assert [x] == [] + [x];
    DedupSnoc([], x);
  }

  lemma OneGenre(refs: seq<Artist>, g: string, name: string)
    ensures GenreNodes([g]) == [Node(g, g, GenreNode, [])]
    ensures GenreLinks(refs, [g]) == GenreArtistLinks(g, Dedup(NamesWithGenre(refs, g)))
    ensures GenreArtistLinks(g, [name]) == [Link(name, g, ArtistGenre)]
  {
    assert [g][..0] == [];
    assert [name][..0] == [];
  }

  lemma ArtistLinksOne(id: string, a: Artist)
    ensures ArtistLinks(id, [a]) == [Link(id, a.name, TrackArtist)]
  {
    assert [a][..0] == [];
  }

  /** Two items with different ids are both first by id. */
  lemma FirstByIdPair(ti: Node, ai: Node)
    requires ti.id != ai.id
    ensures FirstById([ti, ai]) == [ti, ai]
  {
    assert FirstById([ti]) == [ti] by {
      FirstByIdSnoc([], ti);
      assert [] + [ti] == [ti];
    }
    FirstByIdSnoc([ti], ai);
    assert !HasId([ti], ai.id);
    assert [ti] + [ai] == [ti, ai];
  }

  /** The first items by id of a track item and an artist item with different ids, each seen twice. */
  lemma FirstByIdTwice(ti: Node, ai: Node)
    requires ti.id != ai.id
    ensures FirstById([ti, ai, ti, ai]) == [ti, ai]
  {
    assert FirstById([ti, ai, ti]) == [ti, ai] by {
      FirstByIdPair(ti, ai);
      FirstByIdSnoc([ti, ai], ti);
      assert HasId([ti, ai], ti.id) by { assert [ti, ai][0].id == ti.id; }
      assert [ti, ai] + [ti] == [ti, ai, ti];
    }
    FirstByIdSnoc([ti, ai, ti], ai);
    assert HasId([ti, ai, ti], ai.id) by { assert [ti, ai, ti][1].id == ai.id; }
    assert [ti, ai, ti] + [ai] == [ti, ai, ti, ai];
  }

  /** A track item, an artist item, then an item with the artist's id. */
  lemma FirstByIdShadowed(ti: Node, ai: Node, tx: Node)
    requires ti.id != ai.id && tx.id == ai.id
    ensures FirstById([ti, ai, tx]) == [ti, ai]
  {
    FirstByIdPair(ti, ai);
    FirstByIdSnoc([ti, ai], tx);
    assert HasId([ti, ai], tx.id) by { assert [ti, ai][1].id == tx.id; }
    assert [ti, ai] + [tx] == [ti, ai, tx];
  }

  lemma AttachPair(a: Node, b: Node, tracks: seq<Track>)
    ensures Attach([a, b], tracks) == [a.(playlistIds := PlaylistsOf(tracks, a.id)), b.(playlistIds := PlaylistsOf(tracks, b.id))]
  {
  }

  /** Two records of one track by one artist: one track node holding both playlist ids, one artist node. */
  lemma SameTrackTwicePass(art: Artist, t1: Track, t2: Track)
    requires t1.id == t2.id && t1.name == t2.name && t1.artists == [art] && t2.artists == [art] && art.name != t1.id
    ensures PassNodes([t1, t2]) == [Node(t1.id, t1.name, TrackNode, [t1.playlistId, t2.playlistId]), Node(art.name, art.name, ArtistNode, [])]
  {
    var ti, ai := TrackItem(t1), ArtistItem(art);
    assert Items([t1, t2]) == [ti, ai, ti, ai] by {
      ItemsOfPair(t1, t2);
      ArtistItemsOne(art);
    }
    FirstByIdTwice(ti, ai);
    assert PassNodes([t1, t2]) == Attach([ti, ai], [t1, t2]);
    assert PlaylistsOf([t1, t2], t1.id) == [t1.playlistId, t2.playlistId] by {
      PlaylistsOfPair(t1, t2, t1.id);
    }
    assert PlaylistsOf([t1, t2], art.name) == [] by {
      PlaylistsOfPair(t1, t2, art.name);
    }
    AttachPair(ti, ai, [t1, t2]);
  }

  /** The genre part of two records by one artist listing one genre. */
  lemma SameTrackTwiceGenres(art: Artist, g: string, t1: Track, t2: Track)
    requires art.genres == Some([g]) && t1.artists == [art] && t2.artists == [art]
    ensures GenreNodes(GenreKeys([t1, t2])) == [Node(g, g, GenreNode, [])]
    ensures GenreLinks(Refs([t1, t2]), GenreKeys([t1, t2])) == [Link(art.name, g, ArtistGenre)]
  {
    RefsOfPair(t1, t2);
    assert Refs([t1, t2]) == [art, art];
    assert GenreKeys([t1, t2]) == [g] by {
      GenresOfPair(art, art, g);
      assert GenresOf(art) == [g];
      assert AllGenres([art, art]) == [g, g];
      DedupTwice(g);
    }
    assert Dedup(NamesWithGenre([art, art], g)) == [art.name] by {
      GenresOfPair(art, art, g);
      assert g in GenresOf(art);
      assert NamesWithGenre([art, art], g) == [art.name, art.name];
      DedupTwice(art.name);
    }
    OneGenre([art, art], g, art.name);
  }

  /**
   * The two-playlist case: two records of one track, in playlists p1 and
   * p2, by one artist listing one genre, give one track node holding
   * [p1, p2], one artist node, one genre node, two track-artist links and
   * one artist-genre link.
   */
  lemma SameTrackTwoPlaylists(art: Artist, g: string, t1: Track, t2: Track)
    requires t1.id == t2.id && t1.name == t2.name && t1.artists == [art] && t2.artists == [art]
    requires art.genres == Some([g]) && art.name != t1.id
    ensures GraphOf([t1, t2]) == Graph(
        [Node(t1.id, t1.name, TrackNode, [t1.playlistId, t2.playlistId]), Node(art.name, art.name, ArtistNode, []), Node(g, g, GenreNode, [])],
        [Link(t1.id, art.name, TrackArtist), Link(t1.id, art.name, TrackArtist), Link(art.name, g, ArtistGenre)])
  {
    SameTrackTwicePass(art, t1, t2);
    SameTrackTwiceGenres(art, g, t1, t2);
    assert TrackArtistLinks([t1, t2]) == [Link(t1.id, art.name, TrackArtist), Link(t1.id, art.name, TrackArtist)] by {
      RefsOfPair(t1, t2);
      ArtistLinksOne(t1.id, art);
    }
  }

  /**
   * The node search ignores kinds: a record whose track id equals the name
   * of an artist met earlier adds its playlist id to that artist node and
   * gets no track node of its own.
   */
  lemma TrackIdMatchesArtistName(x: Artist, t1: Track, t2: Track)
    requires t1.artists == [x] && t2.artists == [] && t2.id == x.name && t1.id != x.name
    ensures PassNodes([t1, t2]) == [Node(t1.id, t1.name, TrackNode, [t1.playlistId]), Node(x.name, x.name, ArtistNode, [t2.playlistId])]
  {
    var ti, ai, tx := TrackItem(t1), ArtistItem(x), TrackItem(t2);
    assert Items([t1, t2]) == [ti, ai, tx] by {
      ItemsOfPair(t1, t2);
      ArtistItemsOne(x);
      assert ArtistItems([]) == [];
    }
    FirstByIdShadowed(ti, ai, tx);
    assert PassNodes([t1, t2]) == Attach([ti, ai], [t1, t2]);
    assert PlaylistsOf([t1, t2], t1.id) == [t1.playlistId] by {
      PlaylistsOfPair(t1, t2, t1.id);
    }
    assert PlaylistsOf([t1, t2], x.name) == [t2.playlistId] by {
      PlaylistsOfPair(t1, t2, x.name);
    }
    AttachPair(ti, ai, [t1, t2]);
  }

  /** A record whose artist lists the record's own track id as a genre gives two nodes with one id. */
  lemma GenreNamedLikeTrack(a: Artist, t: Track)
    requires t.artists == [a] && a.genres.Some? && t.id in a.genres.value
    ensures !DistinctIds(GraphOf([t]).nodes)
  {
    assert [t][..0] == [];
    assert TrackIds([t]) == [t.id];
    assert Refs([t]) == [a];
    assert IsGenre([t], t.id) by { assert a in Refs([t]) && t.id in GenresOf(a); }
    CollisionBreaksDistinct([t], t.id);
  }
}
