/** The optional value used throughout the model. For values read from JavaScript, `None` stands for
    `undefined` (an absent field, an index past the end of an array), or for the `null` of an unset
    storage key. */
module Options {
  datatype Option<+T> = None | Some(value: T)
}
