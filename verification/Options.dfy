/** A value that may be absent: null, undefined or a failed reading in the modelled code. */
module Options {

  datatype Option<T> = None | Some(value: T) {
    function GetOr(default: T): T {
      match this case Some(v) => v case None => default
    }
  }
}
