/** A part of a parsed document, or of a server reply, that may be missing. */
module Optional {

  datatype Option<+T> = None | Some(value: T) {

    /** The `x || fallback` of `loadChanges`: the part when it is there, the empty
        fallback otherwise. */
    function Or(fallback: T): T {
      if Some? then value else fallback
    }
  }
}
