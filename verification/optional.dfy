/** Optional values: the `?:` fields of the profile schema and lookups that can miss. */
module Optional {

  datatype Option<+T> = None | Some(value: T)

  /** JavaScript truthiness of an optional string: present and not the empty string. */
  predicate Present(o: Option<string>) {
    o.Some? && o.value != ""
  }
}
