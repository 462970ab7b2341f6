/**
 * The Resident Advisor (ra.co) side of the importer: the check on the GraphQL
 * response for a venue, the venue's user row, and the mapping of each of the
 * venue's events to a "physical" ticket row.
 *
 * The GraphQL request itself is not modelled. An event and a venue are given
 * key by key: a key the response leaves out is `Absent`, a key that is there
 * with `null` is `Null`, so that `dict.get` defaults apply exactly when the
 * key is missing.
 */
module ResidentAdvisor {
  import opened Py
  import opened Listing

  // ===========================================================================
  // The response check
  // ===========================================================================

  /** A decoded JSON value, as `response.json()` returns it. */
  datatype Json =
    | JNull
    | JBool(b: bool)
    | JNum(n: int)
    | JStr(s: string)
    | JArr(items: seq<Json>)
    | JObj(fields: map<string, Json>)

  /** The name Python gives the type of a decoded JSON value in its error messages. */
  function TypeName(value: Json): string
  {
    match value
    case JNull => "NoneType"
    case JBool(_) => "bool"
    case JNum(_) => "int"
    case JStr(_) => "str"
    case JArr(_) => "list"
    case JObj(_) => "dict"
  }

  /** The message of `key in value` when the type of `value` supports no membership test. */
  function NotIterable(typeName: string): string
  {
    "argument " + "of type '" + typeName + "' is not " + "iterable"
  }

  /** The message of `value[key]` when the type of `value` supports no subscript. */
  function NotSubscriptable(typeName: string): string
  {
    "'" + typeName + "' object " + "is not " + "subscriptable"
  }

  /** The message of iterating over `None`. */
  const NoneNotIterable := "'NoneType' " + "object is " + "not " + "iterable"
  /** The messages of subscripting a list or a string with a string key (the latter as Python 3.10 words it). */
  const ListIndexNotInteger := "list " + "indices " + "must be " + "integers or " + "slices, not " + "str"
  const StrIndexNotInteger := "string " + "indices " + "must be " + "integers"
  const VenueFetchFailed := "Failed to " + "fetch venue " + "details"

  /** Python's `key in value` for a string key: a key of a dict, an element of a list, a substring of a string; `None`, numbers and booleans raise `TypeError`. */
  function PyIn(key: string, value: Json): (r: Result<bool>)
    ensures value.JObj? ==> r == Ok(key in value.fields)
    ensures value.JNull? || value.JBool? || value.JNum? ==> r == Err(TypeError(NotIterable(TypeName(value))))
  {
    match value
    case JObj(m) => Ok(key in m)
    case JArr(xs) => Ok(JStr(key) in xs)
    case JStr(s) => Ok(Contains(s, key))
    case _ => Err(TypeError(NotIterable(TypeName(value))))
  }

  /** Python's `value[key]` for a string key: only a dict holding the key yields a value. */
  function PyIndex(value: Json, key: string): (r: Result<Json>)
    ensures r.Ok? <==> value.JObj? && key in value.fields
    ensures r.Ok? ==> r.value == value.fields[key]
    ensures value.JObj? && key !in value.fields ==> r == Err(KeyError(key))
  {
    match value
    case JObj(m) => if key in m then Ok(m[key]) else Err(KeyError(key))
    case JArr(_) => Err(TypeError(ListIndexNotInteger))
    case JStr(_) => Err(TypeError(StrIndexNotInteger))
    case _ => Err(TypeError(NotSubscriptable(TypeName(value))))
  }

  /**
   * `get_venue_details` after the request: `data["data"]["venue"]`, or the
   * `ValueError` raised when either key is missing. The test is Python's
   * `"data" not in data or "venue" not in data["data"]`, so a value that is not
   * a dict fails in whatever way `in` and `[]` fail on it. The second reading
   * of `data["data"]` yields the value the first one did.
   */
  function VenueFromResponse(data: Json): (r: Result<Json>)
    ensures r.Ok? <==>
      && data.JObj? && "data" in data.fields
      && data.fields["data"].JObj? && "venue" in data.fields["data"].fields
    ensures r.Ok? ==> r.value == data.fields["data"].fields["venue"]
    ensures data.JObj? && "data" !in data.fields ==> r == Err(ValueError(VenueFetchFailed))
    ensures data.JObj? && "data" in data.fields && data.fields["data"].JObj? && "venue" !in data.fields["data"].fields
      ==> r == Err(ValueError(VenueFetchFailed))
    ensures data.JObj? && "data" in data.fields && data.fields["data"] == JNull ==> r == Err(TypeError(NotIterable("NoneType")))
  {
    var hasData :- PyIn("data", data);
    if !hasData then Err(ValueError(VenueFetchFailed))
    else
      var inner :- PyIndex(data, "data");
      var hasVenue :- PyIn("venue", inner);
      if !hasVenue then Err(ValueError(VenueFetchFailed))
      else
        PyIndex(inner, "venue")
  }

  // ===========================================================================
  // The venue's user
  // ===========================================================================

  /** The keys of a venue that the importer reads. */
  datatype Venue = Venue(
    id: Field<string>,
    name: Field<string>,
    address: Field<string>,
    blurb: Field<string>,
    contentUrl: Field<string>,
    logoUrl: Field<string>)

  /** The row inserted into the users table for a venue. */
  datatype VenueUser = VenueUser(
    username: Option<string>,
    email: string,
    passwordHash: string,
    displayName: Option<string>,
    isVenue: bool,
    description: Option<string>,
    websiteUrl: string,
    profilePictureUrl: Option<string>)

  const RaSite := "https://" + "ra.co"
  const VenueEmailPrefix := "venue_"
  const VenueEmailDomain := "@dummy.com"

  /** The placeholder address of a venue: its id between "venue_" and "@dummy.com". */
  function VenueEmail(id: Option<string>): string
  {
    VenueEmailPrefix + Str(id) + VenueEmailDomain
  }

  /** `create_venue_user_in_supabase`'s payload; `venue["name"]` is read before `venue['id']`. */
  function VenueUserOf(venue: Venue): (r: Result<VenueUser>)
    ensures r.Ok? <==> !venue.name.Absent? && !venue.id.Absent?
    ensures venue.name.Absent? ==> r == Err(KeyError("name"))
    ensures !venue.name.Absent? && venue.id.Absent? ==> r == Err(KeyError("id"))
    ensures r.Ok? ==>
      var u := r.value;
      && u.username == u.displayName == (if venue.name.Val? then Some(venue.name.value) else None)
      && u.email == VenueEmail(if venue.id.Val? then Some(venue.id.value) else None)
      && u.passwordHash == DummyPasswordHash && u.isVenue
      && (venue.blurb.Absent? ==> u.description == Some(""))
      && (venue.blurb.Val? ==> u.description == Some(venue.blurb.value))
      && (venue.blurb.Null? ==> u.description == None)
      && (venue.contentUrl.Absent? ==> u.websiteUrl == RaSite)
      && (venue.contentUrl.Val? ==> u.websiteUrl == RaSite + venue.contentUrl.value)
      && (venue.contentUrl.Null? ==> u.websiteUrl == RaSite + "None")
      && (venue.logoUrl.Absent? ==> u.profilePictureUrl == Some(""))
      && (venue.logoUrl.Val? ==> u.profilePictureUrl == Some(venue.logoUrl.value))
      && (venue.logoUrl.Null? ==> u.profilePictureUrl == None)
  {
    var name :- Index(venue.name, "name");
    var id :- Index(venue.id, "id");
    var website := RaSite + Str(Get(venue.contentUrl, Some("")));
    assert venue.contentUrl.Absent? ==> website == RaSite;
    Ok(VenueUser(name, VenueEmail(id), DummyPasswordHash, name, true,
                 Get(venue.blurb, Some("")), website, Get(venue.logoUrl, Some(""))))
  }

  /** Venues with different ids get different addresses. */
  lemma {:induction false} VenueEmailsDiffer(id1: string, id2: string)
    requires id1 != id2
    ensures VenueEmail(Some(id1)) != VenueEmail(Some(id2))
  {
    var e1, e2 := VenueEmail(Some(id1)), VenueEmail(Some(id2));
    var n := |VenueEmailPrefix|;
    if |id1| == |id2| {
      var k :| 0 <= k < |id1| && id1[k] != id2[k];
      assert e1[n + k] == id1[k] && e2[n + k] == id2[k];
    } else {
      assert |e1| != |e2|;
    }
  }

  /** The address of a venue starts with "venue_", ends with "@dummy.com", and holds the id in between. */
  lemma {:induction false} VenueEmailShape(id: string)
    ensures var e := VenueEmail(Some(id));
      && StartsWith(e, VenueEmailPrefix)
      && e[|VenueEmailPrefix|..|e| - |VenueEmailDomain|] == id
      && e[|e| - |VenueEmailDomain|..] == VenueEmailDomain
  {
    var e := VenueEmail(Some(id));
    assert e == VenueEmailPrefix + id + VenueEmailDomain;
    assert e[..|VenueEmailPrefix|] == VenueEmailPrefix;
    assert e[|VenueEmailPrefix|..|e| - |VenueEmailDomain|] == id;
  }

  // ===========================================================================
  // Events
  // ===========================================================================

  /** One entry of an event's `images`. */
  datatype Image = Image(filename: Field<string>)

  /** One entry of an event's `artists`. */
  datatype Artist = Artist(name: Field<string>)

  /** The keys of an event that the importer reads; a `None` entry of a list is a JSON `null`. */
  datatype Event = Event(
    date: Field<string>,
    title: Field<string>,
    images: Field<seq<Option<Image>>>,
    artists: Field<seq<Option<Artist>>>)

  /** `type_properties` of a physical ticket. */
  datatype PhysicalProperties = PhysicalProperties(host: Option<string>, location: Option<string>)

  /** The ticket dict `parse_ra_event_to_ticket` builds for an event. */
  datatype EventTicket = EventTicket(
    eventDate: Option<string>,
    title: Option<string>,
    coverImage: Option<string>,
    shortDescription: Option<string>,
    longDescription: string,
    creators: seq<string>,
    lineup: seq<Option<string>>,
    hasComments: bool,
    ticketType: string,
    typeProperties: PhysicalProperties,
    vorm: Option<string>,
    tagg: Option<string>,
    additionalFields: Option<seq<AdditionalField>>,
    previewUrl: Option<string>,
    coCreatorName: Option<string>,
    host: Option<string>)

  const UntitledEvent := "Untitled " + "Event"
  const UnknownHost := "Unknown " + "Host"
  const UnknownLocation := "Unknown " + "Location"

  /** `event.get("images", None)[0]['filename']`: nothing guards the subscripts. */
  function CoverImage(images: Field<seq<Option<Image>>>): (r: Result<Option<string>>)
    ensures r.Ok? <==> images.Val? && |images.value| > 0 && images.value[0].Some? && !images.value[0].value.filename.Absent?
    ensures r.Ok? ==> r.value == Get(images.value[0].value.filename, None)
    ensures images.Absent? || images.Null? ==> r == Err(TypeError(NotSubscriptable("NoneType")))
    ensures images.Val? && |images.value| == 0 ==> r == Err(IndexError)
    ensures images.Val? && |images.value| > 0 && images.value[0].Some? && images.value[0].value.filename.Absent?
      ==> r == Err(KeyError("filename"))
  {
    match Get(images, None)
    case None => Err(TypeError(NotSubscriptable("NoneType")))
    case Some(list) =>
      if |list| == 0 then Err(IndexError)
      else
        match list[0]
        case None => Err(TypeError(NotSubscriptable("NoneType")))
        case Some(image) => Index(image.filename, "filename")
  }

  /** `artist["name"]` for one entry of `artists`. */
  function ArtistName(artist: Option<Artist>): Result<Option<string>>
  {
    match artist
    case None => Err(TypeError(NotSubscriptable("NoneType")))
    case Some(a) => Index(a.name, "name")
  }

  /** `[artist["name"] for artist in artists]`: the names in order, or the error of the first entry that has none. */
  function Names(artists: seq<Option<Artist>>): (r: Result<seq<Option<string>>>)
    ensures r.Ok? <==> forall i :: 0 <= i < |artists| ==> ArtistName(artists[i]).Ok?
    ensures r.Ok? ==> |r.value| == |artists| && forall i :: 0 <= i < |artists| ==> r.value[i] == ArtistName(artists[i]).value
    ensures r.Err? ==> exists k :: FirstError(artists, k) && r.error == ArtistName(artists[k]).error
    decreases |artists|
  {
    if artists == [] then Ok([])
    else
      match ArtistName(artists[0])
      case Err(e) =>
        assert FirstError(artists, 0);
        Err(e)
      case Ok(name) =>
        var rest := Names(artists[1..]);
        assert forall i :: 1 <= i < |artists| ==> artists[1..][i - 1] == artists[i];
        match rest
        case Err(e) =>
          var k :| FirstError(artists[1..], k) && e == ArtistName(artists[1..][k]).error;
          assert FirstError(artists, k + 1);
          Err(e)
        case Ok(names) =>
          Ok([name] + names)
  }

  /** The entry at `k` is the first one without a name. */
  predicate FirstError(artists: seq<Option<Artist>>, k: int)
  {
    0 <= k < |artists| && ArtistName(artists[k]).Err? && forall j :: 0 <= j < k ==> ArtistName(artists[j]).Ok?
  }

  /** `lineup`: an event without an `artists` key has an empty lineup; a `null` one cannot be iterated. */
  function Lineup(artists: Field<seq<Option<Artist>>>): (r: Result<seq<Option<string>>>)
    ensures artists.Absent? ==> r == Ok([])
    ensures artists.Null? ==> r == Err(TypeError(NoneNotIterable))
    ensures artists.Val? ==> r == Names(artists.value)
  {
    match Get(artists, Some([]))
    case None => Err(TypeError(NoneNotIterable))
    case Some(list) => Names(list)
  }

  /** `parse_ra_event_to_ticket`: the dict's entries are evaluated in order, so the cover image fails before the lineup. */
  function TicketOf(event: Event, venue: Venue): (r: Result<EventTicket>)
    ensures r.Ok? <==> CoverImage(event.images).Ok? && Lineup(event.artists).Ok?
    ensures CoverImage(event.images).Err? ==> r == Err(CoverImage(event.images).error)
    ensures CoverImage(event.images).Ok? && Lineup(event.artists).Err? ==> r == Err(Lineup(event.artists).error)
    ensures r.Ok? ==>
      var t := r.value;
      && t.coverImage == CoverImage(event.images).value
      && t.lineup == Lineup(event.artists).value
  {
    var cover :- CoverImage(event.images);
    var lineup :- Lineup(event.artists);
    Ok(EventTicket(
      Get(event.date, None),
      Get(event.title, Some(UntitledEvent)),
      cover,
      Get(venue.address, Some("")),
      "",
      [],
      lineup,
      true,
      "physical",
      PhysicalProperties(Get(venue.name, Some(UnknownHost)), Get(venue.address, Some(UnknownLocation))),
      None, None, None, None, None,
      Get(venue.name, None)))
  }

  /**
   * The fields of an event's ticket: the date verbatim, the defaults of
   * `dict.get` only for keys the response leaves out (a `null` stays `None`),
   * and the fields the mapping fixes.
   */
  lemma TicketFields(event: Event, venue: Venue)
    requires TicketOf(event, venue).Ok?
    ensures var t := TicketOf(event, venue).value;
      && t.eventDate == (if event.date.Val? then Some(event.date.value) else None)
      && (event.title.Absent? ==> t.title == Some(UntitledEvent))
      && (event.title.Null? ==> t.title == None)
      && (event.title.Val? ==> t.title == Some(event.title.value))
      && (venue.address.Absent? ==> t.shortDescription == Some("") && t.typeProperties.location == Some(UnknownLocation))
      && (venue.address.Val? ==> t.shortDescription == t.typeProperties.location == Some(venue.address.value))
      && (venue.address.Null? ==> t.shortDescription == None && t.typeProperties.location == None)
      && (venue.name.Absent? ==> t.typeProperties.host == Some(UnknownHost) && t.host == None)
      && (venue.name.Val? ==> t.typeProperties.host == t.host == Some(venue.name.value))
      && (venue.name.Null? ==> t.typeProperties.host == None && t.host == None)
      && t.longDescription == "" && t.creators == [] && t.hasComments && t.ticketType == "physical"
      && t.vorm == None && t.tagg == None && t.additionalFields == None && t.previewUrl == None && t.coCreatorName == None
  {
  }

  /** The lineup lists the artists' names one for one, in order, and is empty without an `artists` key. */
  lemma LineupOrder(event: Event, venue: Venue)
    requires TicketOf(event, venue).Ok?
    ensures var t := TicketOf(event, venue).value;
      && (event.artists.Absent? ==> t.lineup == [])
      && (event.artists.Val? ==>
            |t.lineup| == |event.artists.value|
            && forall i :: 0 <= i < |t.lineup| ==>
                 event.artists.value[i].Some? && !event.artists.value[i].value.name.Absent?
                 && t.lineup[i] == Get(event.artists.value[i].value.name, None))
  {
    var t := TicketOf(event, venue).value;
    if event.artists.Val? {
      var artists := event.artists.value;
      forall i | 0 <= i < |t.lineup|
        ensures artists[i].Some? && !artists[i].value.name.Absent?
        ensures t.lineup[i] == Get(artists[i].value.name, None)
      {
        assert ArtistName(artists[i]).Ok?;
      }
    }
  }

  /** Without images, or with an empty list of images, the event cannot be mapped. */
  lemma CoverRequired(event: Event, venue: Venue)
    requires !event.images.Val? || |event.images.value| == 0
    ensures TicketOf(event, venue).Err?
    ensures TicketOf(event, venue).error == (if event.images.Val? then IndexError else TypeError(NotSubscriptable("NoneType")))
  {
  }

  // ===========================================================================
  // The uploaded ticket
  // ===========================================================================

  /** The row inserted into the tickets table for an event: the keys of the upload payload, which has no `host`. */
  datatype EventTicketRow = EventTicketRow(
    eventDate: Option<string>,
    title: Option<string>,
    coverImage: Option<string>,
    shortDescription: Option<string>,
    longDescription: string,
    creators: seq<string>,
    lineup: seq<Option<string>>,
    hasComments: bool,
    ticketType: string,
    typeProperties: PhysicalProperties,
    vorm: Option<string>,
    tagg: Option<string>,
    additionalFields: Option<seq<AdditionalField>>,
    previewUrl: Option<string>,
    mainCreatorId: string,
    coCreatorName: Option<string>,
    mainCreatorName: Option<string>)

  /**
   * `upload_event_ticket_to_supabase`'s payload. Every key it reads is in the
   * parsed dict, so none of its `.get` defaults applies: the ticket's fields are
   * copied, the venue user becomes the main creator, and the parsed `host`
   * goes out only as the main creator's name.
   */
  function EventRowOf(t: EventTicket, userId: string): (row: EventTicketRow)
    ensures && row.eventDate == t.eventDate && row.title == t.title && row.coverImage == t.coverImage
            && row.shortDescription == t.shortDescription && row.longDescription == t.longDescription
            && row.creators == t.creators && row.lineup == t.lineup && row.hasComments == t.hasComments
            && row.ticketType == t.ticketType && row.typeProperties == t.typeProperties
            && row.vorm == t.vorm && row.tagg == t.tagg && row.additionalFields == t.additionalFields
            && row.previewUrl == t.previewUrl && row.coCreatorName == t.coCreatorName
    ensures row.mainCreatorId == userId
    ensures row.mainCreatorName == t.host
  {
    var properties := PhysicalProperties(t.typeProperties.host, t.typeProperties.location);
    EventTicketRow(
      t.eventDate, t.title, t.coverImage, t.shortDescription, t.longDescription, t.creators, t.lineup,
      t.hasComments, t.ticketType, properties, t.vorm, t.tagg, t.additionalFields, t.previewUrl,
      userId, t.coCreatorName, t.host)
  }

  /**
   * The uploaded row is credited to the venue's name. When the venue has no
   * `name` key, the host shown in `type_properties` is "Unknown Host" while
   * the main creator's name is `None`.
   */
  lemma RowCreditsVenue(event: Event, venue: Venue, userId: string)
    requires TicketOf(event, venue).Ok?
    ensures var row := EventRowOf(TicketOf(event, venue).value, userId);
      && row.mainCreatorId == userId
      && row.mainCreatorName == (if venue.name.Val? then Some(venue.name.value) else None)
      && (venue.name.Absent? ==> row.typeProperties.host == Some(UnknownHost) && row.mainCreatorName.None?)
  {
  }
}
