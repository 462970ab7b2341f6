# Ticket importer: Bandcamp and Resident Advisor normalisation

The importer turns two kinds of foreign listings into rows for its own `users`
and `tickets` tables:

- **Bandcamp.** An artist's main page becomes an artist profile (banner, photo, name,
  location, bio, social links and the music grid) and then a user row. Each
  album or track page becomes a "digital" ticket. That ticket carries the title,
  artist, cover, about text, a release date normalised from the credits line
  "released June 5, 2021" to `2021-06-05`, the album's tracks, one "Genre Tag"
  field per tag, and an embedded Bandcamp player built from the page's
  `item_id`. Uploading it truncates the long description to 500 characters,
  leaves the tracks out of the row, and credits the artist.
- **Resident Advisor (ra.co).** The GraphQL response for a venue is checked for
  `data.venue`. The venue becomes a user row with a placeholder address
  `venue_<id>@dummy.com`. Each event becomes a "physical" ticket whose cover is
  the first image, whose lineup is the artists' names, and whose host and
  location come from the venue.

This project models these mappings in Dafny and proves what they promise. The
modules are:

- `Py`: the Python semantics the code relies on. This covers `dict.get` against
  `d[key]`, f-string printing of `None`, `str.find`, slicing with negative
  indices, `replace`, `strip` and `lower`, and exceptions as a `Result`.
- `Calendar`: `strptime` with `"%B %d, %Y"` and `strftime` with `"%Y-%m-%d"`.
- `Listing`: the shared ticket parts.
- `BandcampMain`, `ReleaseDates`, `Embed`, `BandcampRelease` and
  `BandcampPayloads`: `bandcampuser.py`.
- `ResidentAdvisor`: `event_fetcher.py`.

The scraper's loops are methods proved against specification functions. The
lemmas are stated about those functions.

Two behaviours of the code are easy to miss, and the model keeps both:

- **Unparseable release date.** When the text after "released" does not parse
  as a date, the code keeps that stripped text as the release date (the
  `except ValueError: pass` at `bandcampuser.py:194-195`). It does not discard
  it. See `ReleaseDates.ReleaseDateKept`.
- **Cover link without an href.** A cover link (`a.popupImage`) without an
  `href` raises `KeyError` at `bandcampuser.py:179`. Parsing does not degrade
  to a default. See `BandcampRelease.ListingOf`.

## Model

| member | source | states |
|---|---|---|
| BandcampMain.ReleaseTypeOf | bandcampuser.py:110-115 | a release is a track exactly when its URL contains "/track/", and an album exactly when it contains "/album/" but not "/track/"; otherwise it is unknown |
| BandcampMain.CollectSocialLinks | bandcampuser.py:76-83 | the social links are the hrefs of the band-link items that have a link, in page order; there are none without the band-links list |
| BandcampMain.CollectMusicReleases | bandcampuser.py:85-122 | the releases correspond one for one, in order, to the grid items that have a link; each keeps its URL, takes the title or "Untitled" and the image, and is typed by its URL |
| BandcampMain.ParseMainPage | bandcampuser.py:29-132 | the profile carries the banner, photo, name and location as found, the bio or "", the social links and the music releases as above |
| BandcampMain.GridCompleteness | bandcampuser.py:86-93 | without a grid there are no releases; when every grid item has a link, there is one release per item |
| BandcampMain.GridMembership | bandcampuser.py:90-122 | every linked grid item's URL is a release's URL, and every release's URL is a linked grid item's |
| ReleaseDates.FirstReleasedLine | bandcampuser.py:189-190 | finds the first credits line that starts with "released": none before it does |
| ReleaseDates.FindReleaseDate | bandcampuser.py:186-196 | the scan stops at the first "released" line and yields its normalised date; there is no date when no line qualifies |
| ReleaseDates.FirstReleasedLineIs | bandcampuser.py:189-196 | a "released" line with none before it is the one the scan stops at |
| ReleaseDates.ReleaseDateFromEnglish | bandcampuser.py:191-193 | "released <Month> <d>, <yyyy>" gives the ISO date of a real date, and the raw text of a date the calendar lacks; the event date is that value followed by " 00:00:00" |
| ReleaseDates.ReleaseDateKept | bandcampuser.py:191-195 | a text that does not parse is kept as the release date, and the event date is None only when that text is empty |
| ReleaseDates.AbbreviatedDateKept | bandcampuser.py:190-195 | the credits line "released Jun 5 2021" gives the release date "Jun 5 2021", unconverted |
| ReleaseDates.NoReleasedLine | bandcampuser.py:186-196 | without a "released" line, the release date and the event date are None |
| ReleaseDates.ReleasedLineText | bandcampuser.py:190-191 | from "released " + text, removing the word and stripping gives back the text |
| Calendar.ParseDate | bandcampuser.py:193 | strptime succeeds only on real calendar dates |
| Calendar.ParseDateComplete | bandcampuser.py:193 | every text "<month><spaces><d>,<spaces><yyyy>", with any whitespace runs, any letter case of the month and a day of one or two digits, parses to the date it spells when that date is real, and is refused otherwise |
| Calendar.ParseDateShape | bandcampuser.py:193 | a text that parses is "<month><spaces><d>,<spaces><yyyy>", with the month name in any letter case, a day of one or two digits and a four-digit year, and the parsed date is the one these spell |
| Calendar.AbbreviatedDateRefused | bandcampuser.py:193 | "Jun 5 2021" does not parse |
| Calendar.IsoDate | bandcampuser.py:193 | the formatted date has the form yyyy-mm-dd |
| Calendar.IsoDateDecodes | bandcampuser.py:193 | the three digit groups of the ISO text read back as year, month and day |
| Calendar.IsoDateInjective | bandcampuser.py:193 | distinct dates format to distinct texts |
| Calendar.EnglishDateParses | bandcampuser.py:193 | "<Month> <d>, <yyyy>", with the month in any letter case, parses to exactly that date when it is real, and fails otherwise |
| Calendar.June5th2021 | bandcampuser.py:193 | "June 5, 2021" parses to June 5 of 2021 |
| Calendar.June5th2021Upper | bandcampuser.py:193 | "JUNE 5, 2021" parses to the same date |
| Calendar.June5th2021Iso | bandcampuser.py:193 | June 5 of 2021 formats to "2021-06-05" |
| Calendar.LeapDay2021 | bandcampuser.py:193 | "February 29, 2021" is refused |
| Calendar.LeapDay2020 | bandcampuser.py:193 | "February 29, 2020" is accepted |
| Embed.ItemId | bandcampuser.py:202-210 | there is an item id exactly when the meta content contains "item_id", and the id holds no double quote |
| Embed.ItemIdBeforeComma | bandcampuser.py:208-210 | the id is the stripped, unquoted text between the first `"item_id":` and the next comma |
| Embed.ItemIdNoComma | bandcampuser.py:208-210 | without a comma after the key, `find` yields -1 and the slice drops the content's last character |
| Embed.KeyFound | bandcampuser.py:207-208 | a first occurrence of `"item_id":` makes the membership test true, and `find` returns its index |
| Embed.EmbeddedPlayer | bandcampuser.py:212-230 | the stripped player markup is the iframe from `<iframe` to `</iframe>` |
| Embed.PlayerMarkupEnds | bandcampuser.py:216-230 | the stripped markup is non-empty, starts with '<' and ends with '>' |
| Embed.PlayerHeight | bandcampuser.py:217-225 | the iframe's height, 472px for an album and 120px for a track, stands at the same place in both templates |
| Embed.PlayerHeightTellsTemplate | bandcampuser.py:215-230 | the height in the markup determines whether the album or the track template was used |
| Embed.PlayerPlaysItem | bandcampuser.py:218-226 | the markup embeds the player URL for the item, of the album or track kind |
| Embed.PlayerCredits | bandcampuser.py:220-228 | the markup credits "<title> by <artist>" |
| BandcampRelease.CollectTracks | bandcampuser.py:232-250 | one track per row, in order, with "" for a missing title, duration or URL |
| BandcampRelease.CollectAdditionalFields | bandcampuser.py:252-271 | the fields are the tag entries followed by the player entry |
| BandcampRelease.FieldsOfTags | bandcampuser.py:253-271 | one "Genre Tag" entry per tag, in order, with the tag's hash as id, so equal tags get equal ids; the player's entry comes last, and only when there is a player |
| BandcampRelease.ListingOf | bandcampuser.py:177-179 | parsing fails, with KeyError("href"), exactly when the cover link has no href |
| BandcampRelease.ParseReleasePage | bandcampuser.py:155-305 | the imperative parse yields the listing described by ListingOf |
| BandcampRelease.ListingContents | bandcampuser.py:163-303 | every ticket field: title, artist, cover, about text, release date and its midnight, "album" or "track", the tracks of an album only, and the tag and player fields |
| BandcampPayloads.ReleaseTicketOf | bandcampuser.py:369-393 | the long description is the original when it has at most 500 characters and its first 500 otherwise; the short description is ""; the payload's other listing keys are copied, and `preview_url` and `co_creator_name` are None; the uploader is the main creator; the main creator's name is None exactly when the artist is ""; the row has no tracks key |
| BandcampPayloads.TracksNotUploaded | bandcampuser.py:375-393 | the album's tracks are not uploaded: listings that differ only in their tracks give the same row |
| BandcampPayloads.ArtistNameOf | bandcampuser.py:331 | the artist's name is never empty; "Unknown_Artist" stands in for a missing one |
| BandcampPayloads.UsernameOf | bandcampuser.py:333-334 | the username is the name's non-space characters, in order and with their repetitions, so it has no space; a name without spaces is unchanged |
| BandcampPayloads.UsernameJoins | bandcampuser.py:333-334 | the username of "<a> <b>" is the username of a followed by the username of b |
| BandcampPayloads.EmailSlugOf | bandcampuser.py:332 | the slug has the name's length, with each space turned into "_" and each letter lower-cased |
| BandcampPayloads.ArtistUserOf | bandcampuser.py:331-347 | the user row: the username and display name are the name's non-space characters in order, the email is the slug at the dummy Bandcamp domain, a non-venue with the placeholder hash, and the profile's pictures, description and links |
| BandcampPayloads.UnknownArtist | bandcampuser.py:331-338 | an artist without a name becomes "Unknown_Artist" with the address "unknown_artist@dummy-bandcamp.com" |
| BandcampPayloads.NoSpaceToReplace | bandcampuser.py:332-334 | replacing spaces changes nothing in a name without them |
| ResidentAdvisor.PyIn | event_fetcher.py:105 | the `in` test checks dict keys, and raises TypeError, naming the value's type, on null, numbers and booleans |
| ResidentAdvisor.PyIndex | event_fetcher.py:105-108 | subscripting succeeds exactly on a dict holding the key; a missing key raises KeyError |
| ResidentAdvisor.VenueFromResponse | event_fetcher.py:105-108 | the venue is returned exactly when the response is an object whose "data" is an object holding "venue"; a missing key raises ValueError("Failed to fetch venue details"), and "data": null raises TypeError |
| ResidentAdvisor.VenueUserOf | event_fetcher.py:112-121 | the row exists exactly when the venue has "name" and "id"; a missing "name" is reported before a missing "id"; the defaults "" and "https://ra.co" apply only to missing keys, while a null blurb or logo gives None and a null content URL gives "https://ra.coNone"; the row is a venue with the placeholder hash |
| ResidentAdvisor.VenueEmailsDiffer | event_fetcher.py:114 | venues with different ids get different placeholder addresses |
| ResidentAdvisor.VenueEmailShape | event_fetcher.py:114 | the address is "venue_", then the id, then "@dummy.com" |
| ResidentAdvisor.CoverImage | event_fetcher.py:140 | the cover is the first image's filename; missing or null images raise TypeError, an empty list raises IndexError, and a missing filename raises KeyError |
| ResidentAdvisor.Names | event_fetcher.py:144 | the lineup exists exactly when every artist has a name; it then lists the names in order; otherwise the first nameless artist's error is raised |
| ResidentAdvisor.Lineup | event_fetcher.py:144 | without "artists" the lineup is empty; a null list raises TypeError("'NoneType' object is not iterable") |
| ResidentAdvisor.TicketOf | event_fetcher.py:133-159 | an event maps exactly when its cover and lineup do; the cover's error wins over the lineup's |
| ResidentAdvisor.TicketFields | event_fetcher.py:135-157 | the date is taken verbatim; "Untitled Event", "", "Unknown Host" and "Unknown Location" stand in only for missing keys, a null address gives None for the description and the location, and a null name None for both host fields; the other ticket fields are fixed to "", [], True, "physical" and None |
| ResidentAdvisor.LineupOrder | event_fetcher.py:144 | the lineup has one entry per artist, in order, and is empty when the event lists no artists |
| ResidentAdvisor.CoverRequired | event_fetcher.py:140 | an event without images cannot be mapped |
| ResidentAdvisor.EventRowOf | event_fetcher.py:163-184 | the uploaded row has the payload's keys: it copies every ticket field but `host`, names the venue user as the main creator, and sends the ticket's host only as the main creator's name |
| ResidentAdvisor.RowCreditsVenue | event_fetcher.py:148-183 | the main creator's name is the venue's name; a venue without a name shows "Unknown Host" as host but None as the creator's name |
| Py.Find | bandcampuser.py:208-209 | `str.find` gives the first occurrence at or after the start, or -1 |
| Py.SliceIndex | bandcampuser.py:210 | a slice bound in range is kept, a negative one counts from the end, and the result lies within the text |
| Py.Replace | bandcampuser.py:191 | a text in which the pattern does not occur is left unchanged |
| Py.Lower | bandcampuser.py:332 | lower-casing keeps the length and lower-cases each character |

## Left out

- HTTP requests, the Supabase inserts and the ids they return, the orchestration functions, the command line and `config.py` are not part of this model. A user id appears only as a parameter.
- HTML parsing (BeautifulSoup) is not modelled. A page is given as the strings the scraper reads off it, with `None` for an element that is absent.
- The GraphQL request is not modelled. An event and a venue are given key by key; `null` and a missing key are kept apart.
- Python's `hash` is salted per process, so it is a parameter. The model proves only what holds for every hash function.
- The `VenueFetcher` class only stores the venue id for the request, so it is not modelled.
- `parse_bandcamp_html` wraps its ticket in a one-element list. The model returns the ticket itself.
- Some keys of a release's parsed dict are always `None` and are not represented in the listing: `created_at`, `updated_at`, `preview_url`, `main_creator_id` and `co_creator_name`, and the empty end date and times of `eventTime`. The uploaded row does represent `preview_url` and `co_creator_name`, as None.
- Calendar.ParseDate: month names are matched in the English locale with ASCII lower-casing. Unicode case folding and other locales are not modelled. Days and years are ASCII digits, although CPython's `\d` also accepts other Unicode decimal digits. Whitespace is the full `str.isspace` set that `\s` matches.
- Calendar.IsoDate: pads the year to four digits. The C library's `strftime` prints years below 1000 without padding.
- Py.Lower: ASCII lower-casing only.
- ResidentAdvisor.VenueUserOf: takes the venue as a record, so a `null` venue is not modelled; on one, `venue["name"]` would raise TypeError. The id is a string, so a numeric id is not modelled.
- ResidentAdvisor.TicketOf: an `images` or `artists` value that is neither a list nor `null` is not modelled.
