/** Optional values, the ways a backend request can fail, and results. */
module Base {

  datatype Option<+T> = None | Some(value: T)

  /** Each failure names the Python exception (or early return) the backend hits. */
  datatype Fault =
    | EmptyPath       // IndexError: gshortest_path[0] on an empty path
    | InvalidHostId   // ValueError: int("0x" + name[-2:], 16) rejects the text
    | NoTopology      // TypeError: gswitch_num is still None (no network was ever created)
    | DivisionByZero  // ZeroDivisionError: 1 // 0 or 1 % 0 in the linear locator
    | NoNetwork       // AttributeError: global_net is None when a host is looked up
    | UnboundName     // UnboundLocalError: the linear destination lookup names h_dest_suffix
    | MissingMarker   // IndexError: the probe report has no "ping statistics"
    | TooFewFields    // IndexError: fewer than five '/'-separated fields after the marker

  datatype Result<+T> = Ok(value: T) | Err(fault: Fault)
}
