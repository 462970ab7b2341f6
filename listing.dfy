/**
 * The parts of the backend's "tickets" row that both scrapers fill with
 * structured values: the tracks of an album and the extra fields a release
 * carries (genre tags and the embedded player), and the placeholder
 * password of the users they create.
 */
module Listing {

  /** One entry of `tracks`: title, duration text ("mm:ss") and relative URL. */
  datatype Track = Track(title: string, duration: string, url: string)

  /** The `value` of an additional field: a plain string, or the `{url, caption}` pair of an embed. */
  datatype FieldValue = TagValue(text: string) | LinkValue(url: string, caption: string)

  /** One entry of `additional_fields`; `kind` and `labelText` are its `type` and `label` keys. */
  datatype AdditionalField = AdditionalField(id: int, kind: string, labelText: string, value: FieldValue)

  /** The placeholder password hash of every user a scraper creates. */
  const DummyPasswordHash := "hashed_" + "dummy_" + "password"
}
