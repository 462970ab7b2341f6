/**
 * A Bandcamp album or track page and the "digital" ticket the scraper makes
 * of it.
 *
 * Parsing HTML is not modelled: the page is given as the strings the scraper
 * reads off it, `None` standing for an element that is not on the page.
 * Python's salted `hash` is a parameter.
 */
module BandcampRelease {
  import opened Py
  import opened Listing
  import opened ReleaseDates
  import opened Embed

  /** One `tr.track_row_view`: the text of `a.track-title`, the text of `span.time`, the href of the first `<a href>`. */
  datatype TrackRow = TrackRow(title: Option<string>, duration: Option<string>, href: Option<string>)

  /** The fragments of an album or track page. */
  datatype ReleasePage = ReleasePage(
    hasTrackList: bool,                  // a table.track_list is on the page
    title: Option<string>,               // text of h2.trackTitle
    artist: Option<string>,              // text of the first <a> of the artist heading
    coverLink: Option<Option<string>>,   // a.popupImage, with its href attribute when it has one
    tags: seq<string>,                   // texts of the tag anchors, in order
    creditLines: seq<string>,            // stripped strings of the credits block, in order
    about: Option<string>,               // text of the about block
    metaContent: Option<string>,         // content of meta bc-page-properties ("" without the attribute)
    trackRows: seq<TrackRow>)

  /** `type_properties` of a digital ticket; its end date and both times are always `None`. */
  datatype DigitalProperties = DigitalProperties(tagg: string, startDate: Option<string>, digitalType: string)

  /** The ticket dict `parse_bandcamp_html` builds for a release. */
  datatype ReleaseListing = ReleaseListing(
    title: string,
    coverImage: string,
    shortDescription: string,
    longDescription: string,
    creators: string,
    lineup: seq<string>,
    eventDate: Option<string>,
    hasComments: bool,
    ticketType: string,
    typeProperties: DigitalProperties,
    tracks: seq<Track>,
    additionalFields: seq<AdditionalField>,
    vorm: string,
    tagg: string)

  // ---------------------------------------------------------------------------
  // Tracks and additional fields
  // ---------------------------------------------------------------------------

  /** The track of a row, with "" for a missing part. */
  function TrackOf(row: TrackRow): Track
  {
    Track(OrElse(row.title, ""), OrElse(row.duration, ""), OrElse(row.href, ""))
  }

  /** The tracks of an album's track table, one per row. */
  function TracksOf(rows: seq<TrackRow>): seq<Track>
  {
    seq(|rows|, i requires 0 <= i < |rows| => TrackOf(rows[i]))
  }

  /** The scan of the track table. */
  method CollectTracks(rows: seq<TrackRow>) returns (tracks: seq<Track>)
    ensures tracks == TracksOf(rows)
    ensures |tracks| == |rows|
    ensures forall i :: 0 <= i < |rows| ==>
      && tracks[i].title == (if rows[i].title.Some? then rows[i].title.value else "")
      && tracks[i].duration == (if rows[i].duration.Some? then rows[i].duration.value else "")
      && tracks[i].url == (if rows[i].href.Some? then rows[i].href.value else "")
  {
    tracks := [];
    for i := 0 to |rows|
      invariant |tracks| == i
      invariant forall j :: 0 <= j < i ==> tracks[j] == TrackOf(rows[j])
    {
      tracks := tracks + [TrackOf(rows[i])];
    }
  }

  /** The additional field of a genre tag. */
  function TagField(tag: string, hash: string -> int): AdditionalField
  {
    AdditionalField(hash(tag), "tag", "Genre Tag", TagValue(tag))
  }

  /** The additional field of the embedded player; its URL is the stripped markup. */
  function PlayerField(player: string, hash: string -> int): AdditionalField
  {
    AdditionalField(hash(player), "embedded_links", "bandcamp", LinkValue(Strip(player), ""))
  }

  /** `additional_fields`: one entry per tag, in tag order, then the player's entry when there is a player. */
  function FieldsOf(tags: seq<string>, player: Option<string>, hash: string -> int): seq<AdditionalField>
  {
    TagFields(tags, hash) + (if player.Some? then [PlayerField(player.value, hash)] else [])
  }

  /** The fields of the tags, one per tag. */
  function TagFields(tags: seq<string>, hash: string -> int): seq<AdditionalField>
  {
    seq(|tags|, i requires 0 <= i < |tags| => TagField(tags[i], hash))
  }

  /** The loop over the tags, then the player. */
  method CollectAdditionalFields(tags: seq<string>, player: Option<string>, hash: string -> int)
    returns (fields: seq<AdditionalField>)
    ensures fields == FieldsOf(tags, player, hash)
  {
    fields := [];
    for i := 0 to |tags|
      invariant |fields| == i
      invariant forall j :: 0 <= j < i ==> fields[j] == TagField(tags[j], hash)
    {
      fields := fields + [TagField(tags[i], hash)];
    }
    assert fields == TagFields(tags, hash) by {
      var expected := TagFields(tags, hash);
      assert |expected| == |fields|;
      forall j | 0 <= j < |fields| ensures fields[j] == expected[j] {
        assert expected[j] == TagField(tags[j], hash);
      }
    }
    if player.Some? {
      fields := fields + [PlayerField(player.value, hash)];
    }
  }

  /** Every tag gets a "Genre Tag" entry in tag order, equal tags get equal ids, and the player's entry, if any, comes last. */
  lemma FieldsOfTags(tags: seq<string>, player: Option<string>, hash: string -> int)
    ensures var fields := FieldsOf(tags, player, hash);
      && |fields| == |tags| + (if player.Some? then 1 else 0)
      && (forall i :: 0 <= i < |tags| ==>
            fields[i].kind == "tag" && fields[i].labelText == "Genre Tag" && fields[i].value == TagValue(tags[i])
            && fields[i].id == hash(tags[i]))
      && (forall i, j :: 0 <= i < |tags| && 0 <= j < |tags| && tags[i] == tags[j] ==> fields[i].id == fields[j].id)
      && (player.Some? ==> fields[|tags|] == PlayerField(player.value, hash))
  {
  }

  // ---------------------------------------------------------------------------
  // The listing
  // ---------------------------------------------------------------------------

  /** The page's embedded player: made only when the item id is present and non-empty. */
  function PlayerOf(page: ReleasePage): Option<string>
  {
    var id := ItemId(page.metaContent);
    if id.Some? && id.value != "" then
      Some(EmbeddedPlayer(page.hasTrackList, id.value, OrElse(page.title, ""), OrElse(page.artist, "")))
    else None
  }

  /** The ticket of a release page, or the `KeyError` of a cover link without an href. */
  function ListingOf(page: ReleasePage, hash: string -> int): (r: Result<ReleaseListing>)
    ensures r.Err? <==> page.coverLink == Some(None)
    ensures r.Err? ==> r.error == KeyError("href")
  {
    if page.coverLink == Some(None) then Err(KeyError("href"))
    else
      var releaseDate := ReleaseDate(page.creditLines);
      Ok(ReleaseListing(
        OrElse(page.title, ""),
        if page.coverLink.Some? then page.coverLink.value.value else "",
        "",
        OrElse(page.about, ""),
        OrElse(page.artist, ""),
        [],
        EventDate(releaseDate),
        true,
        "digital",
        DigitalProperties("music", releaseDate, ""),
        if page.hasTrackList then TracksOf(page.trackRows) else [],
        FieldsOf(page.tags, PlayerOf(page), hash),
        Kind(page.hasTrackList),
        "music"))
  }

  /** `parse_bandcamp_html`. */
  method ParseReleasePage(page: ReleasePage, hash: string -> int) returns (r: Result<ReleaseListing>)
    ensures r == ListingOf(page, hash)
  {
    if page.coverLink == Some(None) {
      return Err(KeyError("href"));
    }
    var title := OrElse(page.title, "");
    var artist := OrElse(page.artist, "");
    var coverImage := if page.coverLink.Some? then page.coverLink.value.value else "";
    var releaseDate := FindReleaseDate(page.creditLines);
    var description := OrElse(page.about, "");
    var itemId := ItemId(page.metaContent);
    var player: Option<string> := None;
    if itemId.Some? && itemId.value != "" {
      player := Some(EmbeddedPlayer(page.hasTrackList, itemId.value, title, artist));
    }
    var tracks := [];
    if page.hasTrackList {
      tracks := CollectTracks(page.trackRows);
    }
    var fields := CollectAdditionalFields(page.tags, player, hash);
    r := Ok(ReleaseListing(
      title, coverImage, "", description, artist, [], EventDate(releaseDate), true, "digital",
      DigitalProperties("music", releaseDate, ""), tracks, fields, Kind(page.hasTrackList), "music"));
  }

  /**
   * What a release page's ticket holds: the page's title, artist, cover link
   * and about text, the release date and its midnight, the album's tracks one
   * per row (none for a track page), a "Genre Tag" field per tag and then the
   * player's field, "album" or "track" as the form.
   */
  lemma ListingContents(page: ReleasePage, hash: string -> int)
    requires page.coverLink != Some(None)
    ensures var l := ListingOf(page, hash).value;
      && l.title == OrElse(page.title, "")
      && l.creators == OrElse(page.artist, "")
      && l.coverImage == (if page.coverLink.Some? then page.coverLink.value.value else "")
      && l.shortDescription == "" && l.longDescription == OrElse(page.about, "")
      && l.lineup == [] && l.hasComments && l.ticketType == "digital" && l.tagg == "music"
      && l.eventDate == EventDate(ReleaseDate(page.creditLines))
      && l.typeProperties == DigitalProperties("music", ReleaseDate(page.creditLines), "")
      && l.vorm == (if page.hasTrackList then "album" else "track")
      && (page.hasTrackList ==> |l.tracks| == |page.trackRows| && forall i :: 0 <= i < |l.tracks| ==> l.tracks[i] == TrackOf(page.trackRows[i]))
      && (!page.hasTrackList ==> l.tracks == [])
      && l.additionalFields == FieldsOf(page.tags, PlayerOf(page), hash)
  {
  }
}
