/**
 * The track record shown in the player, the fixed SoundHelix catalogue the
 * player loads, and the conversion from TheAudioDB's track record.
 */
module TrackData {
  import opened Nullable
  import Decimal

  /** A playable track; `coverUrl` defaults to null. */
  datatype Track = Track(
    id: string,
    title: string,
    artist: string,
    streamUrl: string,
    coverUrl: Nullable<string>)

  const DefaultArtist: string := "SoundHelix"
  const CatalogueSize: nat := 10
  const StreamUrlPrefix: string := "https://www.soundhelix.com/examples/mp3/SoundHelix-Song-"

  /** The catalogue entry numbered `i` (numbering starts at 1). */
  function SoundHelixTrack(i: nat): Track {
    Track(
      id := Decimal.FromNat(i),
      title := "Song " + Decimal.FromNat(i),
      artist := DefaultArtist,
      streamUrl := StreamUrlPrefix + Decimal.FromNat(i) + ".mp3",
      coverUrl := Null)
  }

  /** The repository's list: songs 1 to 10 in order. */
  function GetTracks(): (r: seq<Track>)
    ensures |r| == CatalogueSize
    ensures forall k :: 0 <= k < |r| ==>
      && r[k].id == Decimal.FromNat(k + 1)
      && r[k].title == "Song " + Decimal.FromNat(k + 1)
      && r[k].artist == "SoundHelix"
      && r[k].streamUrl == "https://www.soundhelix.com/examples/mp3/SoundHelix-Song-" + Decimal.FromNat(k + 1) + ".mp3"
      && r[k].coverUrl == Null
  {
    seq(CatalogueSize, k requires 0 <= k => SoundHelixTrack(k + 1))
  }

  /** No two catalogue tracks share an id, so a lookup by id finds one track. */
  lemma GetTracksIdsDistinct(j: nat, k: nat)
    requires j < k < |GetTracks()|
    ensures GetTracks()[j].id != GetTracks()[k].id
  {
    Decimal.FromNatInjective(j + 1, k + 1);
  }

  /** Each catalogue id is the decimal numeral of the track's 1-based position. */
  lemma GetTracksIdDenotesPosition(k: nat)
    requires k < |GetTracks()|
    ensures Decimal.AllDigits(GetTracks()[k].id)
    ensures Decimal.Value(GetTracks()[k].id) == k + 1
  {
    Decimal.ValueOfFromNat(k + 1);
  }

  /** A track record as TheAudioDB returns it. */
  datatype ApiTrack = ApiTrack(
    idTrack: string,
    strTrack: string,
    strArtist: string,
    strAlbum: Nullable<string>,
    intDuration: Nullable<string>,
    strMusicVid: Nullable<string>,
    strTrackThumb: Nullable<string>)

  /** Converts an API record to the app's track; a missing video URL becomes "". */
  function ToAppTrack(a: ApiTrack): (t: Track)
    ensures t.id == a.idTrack && t.title == a.strTrack && t.artist == a.strArtist
    ensures a.strMusicVid.NonNull? ==> t.streamUrl == a.strMusicVid.value
    ensures a.strMusicVid.Null? ==> t.streamUrl == ""
    ensures t.coverUrl == a.strTrackThumb
  {
    Track(
      id := a.idTrack,
      title := a.strTrack,
      artist := a.strArtist,
      streamUrl := a.strMusicVid.OrElse(""),
      coverUrl := a.strTrackThumb)
  }

  /** The album and duration fields play no part in the conversion. */
  lemma ToAppTrackIgnoresAlbumAndDuration(a: ApiTrack, album: Nullable<string>, duration: Nullable<string>)
    ensures ToAppTrack(a.(strAlbum := album, intDuration := duration)) == ToAppTrack(a)
  {
  }

  /**
   * Two records convert to the same track exactly when they agree on the five
   * copied fields, an absent video URL counting as an empty one.
   */
  lemma ToAppTrackDeterminedByCopiedFields(a: ApiTrack, b: ApiTrack)
    ensures ToAppTrack(a) == ToAppTrack(b) <==>
      && a.idTrack == b.idTrack && a.strTrack == b.strTrack && a.strArtist == b.strArtist
      && a.strMusicVid.OrElse("") == b.strMusicVid.OrElse("")
      && a.strTrackThumb == b.strTrackThumb
  {
  }
}
