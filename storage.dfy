/**
 * The browser's `localStorage` as the pages use it: every value is written with `JSON.stringify`
 * and read back with `JSON.parse`, so an entry is described by what parsing its text gives.
 */
module Storage {
  /**
   * The text stored under one key: `Blank` is the empty string (falsy, so the pages treat it like a
   * missing key), `Malformed` is text on which `JSON.parse` throws, `Json(v)` is the text of `v`.
   */
  datatype Entry<T> = Blank | Malformed | Json(value: T)

  /** A store mapping keys to entries; a key outside the map is one `getItem` returns `null` for. */
  type Store<T> = map<string, Entry<T>>
}
