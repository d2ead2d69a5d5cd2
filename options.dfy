/** The optional value used wherever a JavaScript field may be absent
    (undefined, null) in the modelled code. */
module Options {

  datatype Option<+T> = None | Some(value: T)
}
