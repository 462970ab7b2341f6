/** The item id of a Bandcamp release and the embedded player built from it. */
module Embed {
  import opened Py

  /** The key the item id follows in the page-properties meta content. */
  const ItemIdKey := "\"" + "item_id" + "\":"

  /**
   * `item_id` as read off the page-properties meta content: from just after
   * the first `"item_id":` up to the next comma, stripped and without double
   * quotes. The key is looked for only when "item_id" occurs at all; `find`
   * yields -1 when a part is missing, and Python reads a slice end of -1 as
   * "one before the end".
   */
  function ItemId(metaContent: Option<string>): (id: Option<string>)
    ensures metaContent.None? ==> id.None?
    ensures metaContent.Some? ==> (id.Some? <==> exists i :: OccursAt(metaContent.value, "item_id", i))
    ensures id.Some? ==> '"' !in id.value
  {
    match metaContent
    case None => None
    case Some(content) =>
      ContainsIff(content, "item_id");
      if !Contains(content, "item_id") then None
      else
        var start := Find(content, ItemIdKey, 0) + |ItemIdKey|;
        var end := Find(content, ",", start);
        var text := Strip(Slice(content, start, end));
        RemoveChar(text, '"');
        Some(Replace(text, "\"", ""))
  }

  /** Content holding `"item_id":X,` yields X, stripped and without quotes. */
  lemma {:induction false} ItemIdBeforeComma(content: string, p: nat, q: nat)
    requires OccursAt(content, ItemIdKey, p)
    requires forall j :: 0 <= j < p ==> !OccursAt(content, ItemIdKey, j)
    requires p + |ItemIdKey| <= q < |content| && content[q] == ','
    requires forall j :: p + |ItemIdKey| <= j < q ==> content[j] != ','
    ensures ItemId(Some(content)) == Some(Replace(Strip(content[p + |ItemIdKey|..q]), "\"", ""))
  {
    KeyFound(content, p);
    var start := p + |ItemIdKey|;
    CharAt(content, ',');
    assert Find(content, ",", start) == q;
    assert Slice(content, start, q) == content[start..q];
  }

  /** With no comma after the key, the id runs to the content's second-to-last character: the last one is lost. */
  lemma {:induction false} ItemIdNoComma(content: string, p: nat)
    requires OccursAt(content, ItemIdKey, p)
    requires forall j :: 0 <= j < p ==> !OccursAt(content, ItemIdKey, j)
    requires p + |ItemIdKey| < |content|
    requires forall j :: p + |ItemIdKey| <= j < |content| ==> content[j] != ','
    ensures ItemId(Some(content)) == Some(Replace(Strip(content[p + |ItemIdKey|..|content| - 1]), "\"", ""))
  {
    KeyFound(content, p);
    var start := p + |ItemIdKey|;
    CharAt(content, ',');
    assert Find(content, ",", start) == -1;
    assert Slice(content, start, -1) == content[start..|content| - 1];
  }

  /** Where the key first occurs, "item_id" occurs and `find` locates the key. */
  lemma KeyFound(content: string, p: nat)
    requires OccursAt(content, ItemIdKey, p)
    requires forall j :: 0 <= j < p ==> !OccursAt(content, ItemIdKey, j)
    ensures Contains(content, "item_id")
    ensures Find(content, ItemIdKey, 0) == p
  {
    OccursInside(content, "\"", "item_id", "\":", p);
    ContainsIff(content, "item_id");
  }

  /** `n` spaces of indentation. */
  function Indent(n: nat): (r: string)
    ensures |r| == n && forall i :: 0 <= i < n ==> r[i] == ' '
  {
    seq(n, _ => ' ')
  }

  /** The line break and indentation around the player markup. */
  const Margin := "\n" + Indent(12)

  /** The iframe's style attribute, up to its height. */
  const IframeStyle := " style=\"" + "border: 0; " + "width: " + "100%; " + "height: "

  /** Where the height is written in the iframe. */
  const HeightAt := |"<iframe"| + |IframeStyle|

  /** "album" or "track", as the URLs of a release spell it. */
  function Kind(isAlbum: bool): string
  {
    if isAlbum then "album" else "track"
  }

  /** The player's height: 472px for an album, 120px for a track. */
  function Height(isAlbum: bool): string
  {
    if isAlbum then "472px" else "120px"
  }

  /** The site's root URL, with its trailing slash. */
  const Site := "https://" + "bandcamp.com" + "/"

  /** The `EmbeddedPlayer` URL of a release, up to the slash after the item id. */
  function PlayerUrl(isAlbum: bool, itemId: string): string
  {
    Site + "Embedded" + "Player/" + Kind(isAlbum) + "=" + itemId + "/"
  }

  /** The display options both templates share: size, colours ... */
  const LookOptions := "size=large/" + "bgcol=" + "ffffff/" + "linkcol=" + "0687f5/"

  /** ... and artwork and transparency. */
  const ArtOptions := "artwork=" + "small/" + "transparent=" + "true/"

  /** The player's display options: the track template also hides the track list. */
  function PlayerOptions(isAlbum: bool): string
  {
    if isAlbum then LookOptions + ArtOptions
    else LookOptions + "tracklist=" + "false/" + ArtOptions
  }

  /** The link to the release inside the player. */
  function PlayerAnchor(isAlbum: bool, itemId: string): string
  {
    "<a href=\"" + Site + Kind(isAlbum) + "/" + itemId + "\">"
  }

  /** The end of the iframe's style attribute and the start of its src attribute. */
  const PlayerSrc := ";\"\n" + Indent(20) + "src=\""

  /** The iframe's opening tag up to its `EmbeddedPlayer` URL. */
  function PlayerHead(isAlbum: bool): string
  {
    "<iframe" + IframeStyle + Height(isAlbum) + PlayerSrc
  }

  /** From the player options to the start of the link text. */
  function PlayerMid(isAlbum: bool, itemId: string): string
  {
    PlayerOptions(isAlbum) + "\"\n" + Indent(20) + "seamless>\n" + Indent(16) + PlayerAnchor(isAlbum, itemId)
  }

  /** The end of the link and the closing tag. */
  const PlayerClose := "</a>" + Margin + "</iframe>"

  /** The iframe of the embedded player, from "<iframe" to "</iframe>". */
  function PlayerMarkup(isAlbum: bool, itemId: string, title: string, artist: string): string
  {
    PlayerHead(isAlbum) + PlayerUrl(isAlbum, itemId) + PlayerMid(isAlbum, itemId) + (title + " by " + artist) + PlayerClose
  }

  /** The embedded player as the f-string writes it: the iframe between two line breaks with their indentation. */
  function EmbeddedPlayer(isAlbum: bool, itemId: string, title: string, artist: string): (r: string)
    ensures Strip(r) == PlayerMarkup(isAlbum, itemId, title, artist)
  {
    var m := PlayerMarkup(isAlbum, itemId, title, artist);
    MarginIsSpace();
    PlayerMarkupEnds(isAlbum, itemId, title, artist);
    StripFramed(Margin, m, Margin);
    Margin + m + Margin
  }

  lemma MarginIsSpace()
    ensures forall i :: 0 <= i < |Margin| ==> IsSpace(Margin[i])
  {
    forall i | 0 <= i < |Margin| ensures IsSpace(Margin[i]) {
      if i > 0 {
        assert Margin[i] == Indent(12)[i - 1] == ' ';
      }
    }
  }

  /** The iframe starts with '<' and ends with '>'. */
  lemma PlayerMarkupEnds(isAlbum: bool, itemId: string, title: string, artist: string)
    ensures var m := PlayerMarkup(isAlbum, itemId, title, artist);
      |m| > 0 && m[0] == '<' && m[|m| - 1] == '>'
  {
    var h := PlayerHead(isAlbum);
    assert h[0] == "<iframe"[0] == '<';
    assert PlayerClose[|PlayerClose| - 1] == "</iframe>"[8] == '>';
  }

  /** The iframe is as high as its template says: 472px for an album, 120px for a track, always at the same place. */
  lemma {:induction false} PlayerHeight(isAlbum: bool, itemId: string, title: string, artist: string)
    ensures OccursAt(PlayerMarkup(isAlbum, itemId, title, artist), Height(isAlbum), HeightAt)
  {
    var h := Height(isAlbum);
    OccursBetween("<iframe" + IframeStyle, h, PlayerSrc);
    OccursAppended(PlayerHead(isAlbum), PlayerUrl(isAlbum, itemId), h, HeightAt);
    var s1 := PlayerHead(isAlbum) + PlayerUrl(isAlbum, itemId);
    OccursAppended(s1, PlayerMid(isAlbum, itemId), h, HeightAt);
    var s2 := s1 + PlayerMid(isAlbum, itemId);
    OccursAppended(s2, title + " by " + artist, h, HeightAt);
    OccursAppended(s2 + (title + " by " + artist), PlayerClose, h, HeightAt);
  }

  /** The two heights differ, so the height tells which template a player uses. */
  lemma {:induction false} PlayerHeightTellsTemplate(isAlbum: bool, itemId: string, title: string, artist: string)
    ensures var m := PlayerMarkup(isAlbum, itemId, title, artist);
      && (isAlbum <==> m[HeightAt..HeightAt + 5] == "472px")
      && (!isAlbum <==> m[HeightAt..HeightAt + 5] == "120px")
  {
    PlayerHeight(isAlbum, itemId, title, artist);
    assert "472px"[0] != "120px"[0];
  }

  /** The iframe plays the release its template names: the `EmbeddedPlayer` URL carries the kind and the item id. */
  lemma {:induction false} PlayerPlaysItem(isAlbum: bool, itemId: string, title: string, artist: string)
    ensures exists i :: OccursAt(PlayerMarkup(isAlbum, itemId, title, artist), PlayerUrl(isAlbum, itemId), i)
  {
    var url := PlayerUrl(isAlbum, itemId);
    var k := |PlayerHead(isAlbum)|;
    OccursBetween(PlayerHead(isAlbum), url, PlayerMid(isAlbum, itemId));
    var s2 := PlayerHead(isAlbum) + url + PlayerMid(isAlbum, itemId);
    OccursAppended(s2, title + " by " + artist, url, k);
    OccursAppended(s2 + (title + " by " + artist), PlayerClose, url, k);
    assert PlayerMarkup(isAlbum, itemId, title, artist) == s2 + (title + " by " + artist) + PlayerClose;
    assert OccursAt(PlayerMarkup(isAlbum, itemId, title, artist), url, k);
  }

  /** The iframe credits the release as "<title> by <artist>". */
  lemma {:induction false} PlayerCredits(isAlbum: bool, itemId: string, title: string, artist: string)
    ensures exists i :: OccursAt(PlayerMarkup(isAlbum, itemId, title, artist), title + " by " + artist, i)
  {
    var s2 := PlayerHead(isAlbum) + PlayerUrl(isAlbum, itemId) + PlayerMid(isAlbum, itemId);
    OccursBetween(s2, title + " by " + artist, PlayerClose);
    assert PlayerMarkup(isAlbum, itemId, title, artist) == s2 + (title + " by " + artist) + PlayerClose;
    assert OccursAt(PlayerMarkup(isAlbum, itemId, title, artist), title + " by " + artist, |s2|);
  }
}
