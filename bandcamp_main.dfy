/**
 * An artist's Bandcamp main page, as the scraper reads it: the profile's
 * images, name, location and bio, the band links and the music grid.
 *
 * Parsing HTML is not modelled: the page is given as the strings the scraper
 * reads off it, `None` standing for an element that is not on the page.
 */
module BandcampMain {
  import opened Py

  /** What a release URL says the release is. */
  datatype ReleaseType = TrackRelease | AlbumRelease | UnknownRelease

  /** The type of a grid release, read off its URL; "/track/" is looked for before "/album/". */
  function ReleaseTypeOf(url: string): (t: ReleaseType)
    ensures t == TrackRelease <==> exists i :: OccursAt(url, "/track/", i)
    ensures t == AlbumRelease <==> (forall i :: !OccursAt(url, "/track/", i)) && exists i :: OccursAt(url, "/album/", i)
  {
    ContainsIff(url, "/track/");
    ContainsIff(url, "/album/");
    if Contains(url, "/track/") then TrackRelease
    else if Contains(url, "/album/") then AlbumRelease
    else UnknownRelease
  }

  /** The first `<a href>` of one `li.music-grid-item`: its href, the text of its `p.title` and the src of its artwork. */
  datatype GridLink = GridLink(href: string, title: Option<string>, artworkSrc: Option<string>)

  /** The fragments of an artist's main page. */
  datatype MainPage = MainPage(
    bannerSrc: Option<string>,                 // src of the image in div.desktop-header
    photoSrc: Option<string>,                  // src of img.band-photo
    artistName: Option<string>,                // text of span.title in p#band-name-location
    location: Option<string>,                  // text of span.location in p#band-name-location
    bioText: Option<string>,                   // text of p#bio-text
    bandLinks: Option<seq<Option<string>>>,    // ol#band-links: per item, the href of its first <a href>
    musicGrid: Option<seq<Option<GridLink>>>)  // ol#music-grid: per grid item, its first <a href>

  /** One entry of `music_releases`. */
  datatype MusicRelease = MusicRelease(url: string, title: string, imageUrl: Option<string>, releaseType: ReleaseType)

  /** What `parse_bandcamp_main_page` returns. */
  datatype ArtistProfile = ArtistProfile(
    profileBannerUrl: Option<string>,
    profilePictureUrl: Option<string>,
    artistName: Option<string>,
    location: Option<string>,
    description: string,
    socialLinks: seq<string>,
    musicReleases: seq<MusicRelease>)

  /** The grid items that carry a link, in page order. */
  function GridLinks(grid: Option<seq<Option<GridLink>>>): seq<GridLink>
  {
    if grid.Some? then Present(grid.value) else []
  }

  /** `releases` lists the linked grid items one for one, in order, with "Untitled" for a missing title. */
  predicate ListsGrid(grid: Option<seq<Option<GridLink>>>, releases: seq<MusicRelease>)
  {
    var links := GridLinks(grid);
    && |releases| == |links|
    && forall k :: 0 <= k < |links| ==>
      && releases[k].url == links[k].href
      && releases[k].title == (if links[k].title.Some? then links[k].title.value else "Untitled")
      && releases[k].imageUrl == links[k].artworkSrc
      && releases[k].releaseType == ReleaseTypeOf(links[k].href)
  }

  function ReleaseOf(link: GridLink): MusicRelease
  {
    MusicRelease(link.href, OrElse(link.title, "Untitled"), link.artworkSrc, ReleaseTypeOf(link.href))
  }

  /** The hrefs of the band links, skipping items without a link. */
  method CollectSocialLinks(bandLinks: Option<seq<Option<string>>>) returns (links: seq<string>)
    ensures links == if bandLinks.Some? then Present(bandLinks.value) else []
  {
    links := [];
    if bandLinks.Some? {
      var items := bandLinks.value;
      for i := 0 to |items|
        invariant links == Present(items[..i])
      {
        assert items[..i + 1][..i] == items[..i];
        if items[i].Some? {
          links := links + [items[i].value];
        }
      }
      assert items[..|items|] == items;
    }
  }

  /** The releases of the music grid, skipping items without a link. */
  method CollectMusicReleases(grid: Option<seq<Option<GridLink>>>) returns (releases: seq<MusicRelease>)
    ensures ListsGrid(grid, releases)
  {
    releases := [];
    if grid.Some? {
      var items := grid.value;
      for i := 0 to |items|
        invariant |releases| == |Present(items[..i])|
        invariant forall k :: 0 <= k < |releases| ==> releases[k] == ReleaseOf(Present(items[..i])[k])
      {
        assert items[..i + 1][..i] == items[..i];
        if items[i].Some? {
          releases := releases + [ReleaseOf(items[i].value)];
        }
      }
      assert items[..|items|] == items;
    }
  }

  /** `parse_bandcamp_main_page`. */
  method ParseMainPage(page: MainPage) returns (profile: ArtistProfile)
    ensures profile.profileBannerUrl == page.bannerSrc && profile.profilePictureUrl == page.photoSrc
    ensures profile.artistName == page.artistName && profile.location == page.location
    ensures profile.description == (if page.bioText.Some? then page.bioText.value else "")
    ensures profile.socialLinks == if page.bandLinks.Some? then Present(page.bandLinks.value) else []
    ensures ListsGrid(page.musicGrid, profile.musicReleases)
  {
    var socialLinks := CollectSocialLinks(page.bandLinks);
    var releases := CollectMusicReleases(page.musicGrid);
    profile := ArtistProfile(page.bannerSrc, page.photoSrc, page.artistName, page.location,
                             OrElse(page.bioText, ""), socialLinks, releases);
  }

  /** A page without a music grid lists no releases, and one whose grid items all carry links lists every one of them, in order. */
  lemma {:induction false} GridCompleteness(grid: Option<seq<Option<GridLink>>>, releases: seq<MusicRelease>)
    requires ListsGrid(grid, releases)
    ensures grid.None? ==> releases == []
    ensures grid.Some? && (forall i :: 0 <= i < |grid.value| ==> grid.value[i].Some?) ==>
      |releases| == |grid.value| && forall i :: 0 <= i < |grid.value| ==> releases[i].url == grid.value[i].value.href
  {
    if grid.Some? && (forall i :: 0 <= i < |grid.value| ==> grid.value[i].Some?) {
      PresentAll(grid.value);
    }
  }

  /** Some grid item links to `url`. */
  predicate LinkedFromGrid(items: seq<Option<GridLink>>, url: string)
  {
    exists i :: 0 <= i < |items| && items[i].Some? && items[i].value.href == url
  }

  /** Some release is at `url`. */
  predicate HasRelease(releases: seq<MusicRelease>, url: string)
  {
    exists k :: 0 <= k < |releases| && releases[k].url == url
  }

  /** Every linked grid item has its release, and every release comes from a linked grid item. */
  lemma {:induction false} GridMembership(grid: Option<seq<Option<GridLink>>>, releases: seq<MusicRelease>)
    requires ListsGrid(grid, releases) && grid.Some?
    ensures forall i :: 0 <= i < |grid.value| && grid.value[i].Some? ==> HasRelease(releases, grid.value[i].value.href)
    ensures forall k :: 0 <= k < |releases| ==> LinkedFromGrid(grid.value, releases[k].url)
  {
    var items := grid.value;
    PresentMembers(items);
    var links := GridLinks(grid);
    assert links == Present(items);
    forall i | 0 <= i < |items| && items[i].Some?
      ensures HasRelease(releases, items[i].value.href)
    {
      assert Some(items[i].value) in items;
      var k :| 0 <= k < |links| && links[k] == items[i].value;
      assert releases[k].url == links[k].href;
    }
    forall k | 0 <= k < |releases|
      ensures LinkedFromGrid(items, releases[k].url)
    {
      assert links[k] in links;
      var i :| 0 <= i < |items| && items[i] == Some(links[k]);
      assert items[i].value.href == releases[k].url;
    }
  }
}
