/** The rows the Bandcamp scraper inserts: an artist's user and a release's ticket. */
module BandcampPayloads {
  import opened Py
  import opened Listing
  import opened BandcampMain
  import opened BandcampRelease

  /** The longest `long_description` the tickets table receives. */
  const MaxLongDescription := 500

  /**
   * The row inserted into the tickets table for a release: the keys of the
   * upload payload, and no others. The listing's tracks are not among them.
   */
  datatype ReleaseTicket = ReleaseTicket(
    eventDate: Option<string>,
    title: string,
    coverImage: string,
    shortDescription: string,
    longDescription: string,
    creators: string,
    lineup: seq<string>,
    hasComments: bool,
    ticketType: string,
    typeProperties: DigitalProperties,
    vorm: string,
    tagg: string,
    additionalFields: seq<AdditionalField>,
    previewUrl: Option<string>,
    mainCreatorId: string,
    coCreatorName: Option<string>,
    mainCreatorName: Option<string>)

  /**
   * `upload_bandcamp_release_to_supabase`'s payload: the listing's keys with a
   * truncated long description, credited to `userId`. Every key it reads with a
   * default is in the parsed dict, so no default applies; `preview_url` and
   * `co_creator_name` are `None` there.
   */
  function ReleaseTicketOf(l: ReleaseListing, userId: string): (t: ReleaseTicket)
    ensures |t.longDescription| <= MaxLongDescription
    ensures t.longDescription <= l.longDescription
    ensures |l.longDescription| <= MaxLongDescription ==> t.longDescription == l.longDescription
    ensures |l.longDescription| > MaxLongDescription ==> |t.longDescription| == MaxLongDescription
    ensures t.shortDescription == ""
    ensures && t.eventDate == l.eventDate && t.title == l.title && t.coverImage == l.coverImage
            && t.creators == l.creators && t.lineup == l.lineup && t.hasComments == l.hasComments
            && t.ticketType == l.ticketType && t.typeProperties == l.typeProperties
            && t.vorm == l.vorm && t.tagg == l.tagg && t.additionalFields == l.additionalFields
    ensures t.previewUrl.None? && t.coCreatorName.None?
    ensures t.mainCreatorId == userId
    ensures t.mainCreatorName.None? <==> l.creators == ""
    ensures t.mainCreatorName.Some? ==> t.mainCreatorName.value == l.creators
  {
    var description := if |l.longDescription| > MaxLongDescription then l.longDescription[..MaxLongDescription] else l.longDescription;
    ReleaseTicket(
      l.eventDate, l.title, l.coverImage, "", description, l.creators, l.lineup, l.hasComments,
      l.ticketType, l.typeProperties, l.vorm, l.tagg, l.additionalFields, None, userId, None,
      if l.creators != "" then Some(l.creators) else None)
  }

  /** The tracks of an album are not uploaded: listings that differ only in their tracks give the same row. */
  lemma TracksNotUploaded(l: ReleaseListing, tracks: seq<Track>, userId: string)
    ensures ReleaseTicketOf(l.(tracks := tracks), userId) == ReleaseTicketOf(l, userId)
  {
  }

  /** The row inserted into the users table for an artist. */
  datatype ArtistUser = ArtistUser(
    username: string,
    displayName: string,
    email: string,
    passwordHash: string,
    profilePictureUrl: Option<string>,
    profileBannerUrl: Option<string>,
    description: string,
    socialLinks: seq<string>,
    isVenue: bool)

  /** The name of an artist whose page gives none. */
  const UnknownArtistName := "Unknown_" + "Artist"

  /** The artist's name, or "Unknown_Artist" when it is missing or empty. */
  function ArtistNameOf(profile: ArtistProfile): (name: string)
    ensures name != ""
  {
    if profile.artistName.Some? && profile.artistName.value != "" then profile.artistName.value else UnknownArtistName
  }

  const EmailDomain := "@dummy-" + "bandcamp.com"

  /** The user name of an artist: the name with its spaces taken out, when it has any. */
  function UsernameOf(name: string): (u: string)
    ensures ' ' !in u
    ensures forall c :: c != ' ' ==> (c in u <==> c in name)
    ensures ' ' !in name ==> u == name
    ensures u == Without(name, ' ')
  {
    RemoveChar(name, ' ');
    RemoveCharInOrder(name, ' ');
    ContainsIff(name, " ");
    CharAt(name, ' ');
    if Contains(name, " ") then Replace(name, " ", "") else name
  }

  /** The spaces of a name are dropped wherever they stand: the parts around a space are joined. */
  lemma UsernameJoins(a: string, b: string)
    ensures UsernameOf(a + " " + b) == UsernameOf(a) + UsernameOf(b)
  {
    WithoutJoins(a, b, ' ');
  }

  /** The local part of the placeholder address: the name with every space turned into '_', lower-cased. */
  function EmailSlugOf(name: string): (slug: string)
    ensures |slug| == |name|
    ensures forall i :: 0 <= i < |name| ==> slug[i] == LowerChar(if name[i] == ' ' then '_' else name[i])
  {
    ReplaceChar(name, ' ', '_');
    Lower(Replace(name, " ", "_"))
  }

  /** `create_bandcamp_user_in_supabase_from_main`'s payload. */
  function ArtistUserOf(profile: ArtistProfile): (u: ArtistUser)
    ensures var name := ArtistNameOf(profile);
      && ' ' !in u.username && u.displayName == u.username
      && (forall c :: c != ' ' ==> (c in u.username <==> c in name))
      && (' ' !in name ==> u.username == name)
      && u.username == Without(name, ' ')
      && |u.email| == |name| + |EmailDomain| && u.email[|name|..] == EmailDomain
      && (forall i :: 0 <= i < |name| ==> u.email[i] == LowerChar(if name[i] == ' ' then '_' else name[i]))
    ensures u.passwordHash == DummyPasswordHash && !u.isVenue
    ensures u.profilePictureUrl == profile.profilePictureUrl && u.profileBannerUrl == profile.profileBannerUrl
    ensures u.description == profile.description && u.socialLinks == profile.socialLinks
  {
    var name := ArtistNameOf(profile);
    var slug := EmailSlugOf(name);
    var username := UsernameOf(name);
    var email := slug + EmailDomain;
    assert email[|name|..] == EmailDomain;
    ArtistUser(username, username, email, DummyPasswordHash,
               profile.profilePictureUrl, profile.profileBannerUrl, profile.description, profile.socialLinks, false)
  }

  /** A profile without an artist name becomes the user "Unknown_Artist" with the address "unknown_artist@dummy-bandcamp.com". */
  lemma UnknownArtist(profile: ArtistProfile)
    requires profile.artistName.None?
    ensures ArtistUserOf(profile).username == UnknownArtistName
    ensures ArtistUserOf(profile).email == Lower(UnknownArtistName) + EmailDomain
  {
    var name := UnknownArtistName;
    assert ArtistNameOf(profile) == name;
    assert ' ' !in name;
    NoSpaceToReplace(name);
  }

  /** A name without spaces is its own slug before lower-casing. */
  lemma NoSpaceToReplace(name: string)
    requires ' ' !in name
    ensures Replace(name, " ", "_") == name
  {
  }
}
