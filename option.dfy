/** A value that may be absent: PHP's null, a missing array key, JavaScript's null or undefined. */
module Optional {

  datatype Option<+T> = None | Some(value: T) {

    /** The PHP `??` operator: the value, or `default` when absent. */
    function GetOr(default: T): T {
      match this
      case Some(v) => v
      case None => default
    }
  }
}
