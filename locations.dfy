/**
 * The records the dashboard receives from its API, as plain values.
 * Temperatures and other readings are carried as opaque display values.
 */
module Locations {
  import opened Basics

  /**
   * A location identifier as it arrives in JSON. Lookups compare ids with
   * `===`, so a number never equals a string, even `1` and `"1"`.
   */
  datatype Id = NumId(n: int) | TextId(s: string)

  datatype Current = Current(temp: real, feelsLike: real, humidity: real, wind: real)

  /** One entry of the location list. `image` is `None` when the field is absent. */
  datatype Location = Location(
    id: Id,
    city: string,
    state: string,
    zip: int,
    image: Option<string>,
    condition: string,
    current: Current)

  datatype Hour = Hour(time: string, temp: real, condition: string)

  datatype Day = Day(date: string, high: real, low: real, condition: string)

  /** The detail record: a location plus its forecasts, either of which may be absent. */
  datatype LocationDetail = LocationDetail(
    loc: Location,
    hourly: Option<seq<Hour>>,
    daily: Option<seq<Day>>)

  /** JavaScript truthiness of an image field: present and not the empty string. */
  predicate HasImage(l: Location) {
    l.image.Some? && l.image.value != ""
  }

  /** The text a template literal produces for the image field (`undefined` when absent). */
  function ImageText(image: Option<string>): string {
    image.GetOr("undefined")
  }
}
