/** The item the kiosk displays (exhibit-kiosk/src/types/event.ts). */
module Event {
  import opened Wrappers
  import opened Format

  /** `meta` is a string, an object of display values, or absent (`Undefined`). */
  datatype EventItem = EventItem(
    id: string,
    imageUrl: string,
    title: Option<string>,
    subtitle: Option<string>,
    meta: JsValue,
    alt: Option<string>)

  /** A truthy optional string: present and, as a JSON string, truthy. */
  predicate Filled(s: Option<string>) {
    s.Some? && Truthy(Str(s.value))
  }
}
