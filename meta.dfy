/** The two metadata documents (`iconforge-icons.json`,
    `iconforge-styles.json`) map a base class to an entry that is either a
    raw CSS text or an object. An object's `class`, `keyframes` and `value`
    fields are strings; an absent field is the empty string, because every
    use of such a field only tests it for truthiness or reads it as text. */
module Meta {

  datatype Entry = Text(text: string) | Record(cls: string, keyframes: string, value: string)

  type Metadata = map<string, Entry>

  /** JavaScript truthiness of an entry: an empty string is falsy, an object never is. */
  predicate Truthy(e: Entry) {
    e.Text? ==> e.text != ""
  }

  /** `m[k]` is truthy; a missing key reads as `undefined`. */
  predicate Has(m: Metadata, k: string) {
    k in m && Truthy(m[k])
  }

  /** The text of `entry + ''`: an object becomes "[object Object]". */
  function Coerce(e: Entry): string {
    match e
    case Text(s) => s
    case Record(_, _, _) => "[object Object]"
  }

  /** The rule source of a style entry: `style.class || ''` for an object,
      the text itself otherwise. */
  function StyleSource(e: Entry): string {
    match e
    case Text(t) => t
    case Record(c, _, _) => c
  }

  /** The rule text of an icon entry: the `value` of an object, the text of a string. */
  function IconText(e: Entry): string {
    match e
    case Text(t) => t
    case Record(_, _, v) => v
  }
}
