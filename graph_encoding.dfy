/**
 * How the graph view encodes nodes and links visually: circle radius and
 * fill per node, stroke colour and width per link.
 */
module GraphEncoding {
  import opened PlaylistGraph
  import GraphProperties

  /** A track node that collected more than one playlist id. */
  predicate Shared(n: Node)
  {
    n.kind == TrackNode && |n.playlistIds| > 1
  }

  /** Circle radius: 8 for a shared track, 5 for any other track, 6 for an artist, 4 for a genre. */
  function NodeRadius(n: Node): (r: nat)
    ensures r == 8 <==> Shared(n)
    ensures r == 5 <==> n.kind == TrackNode && !Shared(n)
    ensures r == 6 <==> n.kind == ArtistNode
    ensures r == 4 <==> n.kind == GenreNode
  {
    match n.kind
    case TrackNode => if |n.playlistIds| > 1 then 8 else 5
    case ArtistNode => 6
    case GenreNode => 4
  }

  /** Circle fill: red for a shared track, green for any other track, blue for an artist, purple for a genre. */
  function NodeFill(n: Node): (c: string)
    ensures c == "#ff4444" <==> Shared(n)
    ensures c == "#4CAF50" <==> n.kind == TrackNode && !Shared(n)
    ensures c == "#2196F3" <==> n.kind == ArtistNode
    ensures c == "#9C27B0" <==> n.kind == GenreNode
  {
    match n.kind
    case TrackNode => if |n.playlistIds| > 1 then "#ff4444" else "#4CAF50"
    case ArtistNode => "#2196F3"
    case GenreNode => "#9C27B0"
  }

  /** Link stroke colour: lighter for track-artist links, darker for artist-genre links. */
  function LinkStroke(l: Link): (c: string)
    ensures c == "#999" <==> l.kind == TrackArtist
    ensures c == "#666" <==> l.kind == ArtistGenre
  {
    match l.kind
    case TrackArtist => "#999"
    case ArtistGenre => assert "#666"[1] != "#999"[1]; "#666"
  }

  /** Link stroke width: 1 for track-artist links, 0.5 for artist-genre links. */
  function LinkStrokeWidth(l: Link): (w: real)
    ensures w > 0.0
    ensures w == 1.0 <==> l.kind == TrackArtist
    ensures w == 0.5 <==> l.kind == ArtistGenre
  {
    match l.kind
    case TrackArtist => 1.0
    case ArtistGenre => 0.5
  }

  /**
   * Radius and fill tell apart exactly the same four classes of node: two
   * nodes get the same radius iff they get the same fill, iff they have the
   * same kind and agree on being shared.
   */
  lemma RadiusAndFillAgree(n: Node, m: Node)
    ensures NodeRadius(n) == NodeRadius(m) <==> NodeFill(n) == NodeFill(m)
    ensures NodeFill(n) == NodeFill(m) <==> n.kind == m.kind && Shared(n) == Shared(m)
  {
  }

  /**
   * A track id carried by no artist is drawn as a large red circle exactly
   * when two or more records carry it, whether from different playlists or
   * repeated in one.
   */
  lemma SharedTrackHighlighted(tracks: seq<Track>, k: nat)
    requires k < |PassNodes(tracks)|
    requires PassNodes(tracks)[k].id in TrackIds(tracks)
    requires !GraphProperties.IsArtistName(tracks, PassNodes(tracks)[k].id)
    ensures var n := GraphOf(tracks).nodes[k];
      n == PassNodes(tracks)[k] &&
      (NodeFill(n) == "#ff4444" <==> multiset(TrackIds(tracks))[n.id] > 1) &&
      (NodeRadius(n) == 8 <==> multiset(TrackIds(tracks))[n.id] > 1)
  {
    GraphProperties.RepeatedTrackNode(tracks, PassNodes(tracks)[k].id);
  }
}
