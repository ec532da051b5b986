/** The optional value the analyser returns where Python returns `None`
    (a failed decode, a failed extraction, an `(None, None)` analysis). */
module Optional {

  datatype Option<+T> = None | Some(value: T)
}
