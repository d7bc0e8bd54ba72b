/** The optional value the session uses for "no active profile", a
    rejected clipboard read and a cancelled name prompt. */
module Options {

  datatype Option<+T> = None | Some(value: T)
}
