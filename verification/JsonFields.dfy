/** How the report readers see a field of untyped JSON. */
module JsonFields {

  /** A field that is absent or null, of the wrong shape, or a usable value. */
  datatype Raw<+T> = Missing | Wrong | Is(value: T)
}
