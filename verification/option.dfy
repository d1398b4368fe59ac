/** The optional value used wherever a step of the updater may produce
    nothing (a manifest that cannot be read, a library call that throws). */
module Optional {

  datatype Option<+T> = None | Some(value: T)
}
