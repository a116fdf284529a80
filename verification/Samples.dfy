/** Complex samples of a receiver, whose parts are next to each other in a buffer. */
module Samples {
  datatype Point = Point(re: int, im: int)

  function Points(buf: seq<int>): (x: seq<Point>)
    ensures |x| == |buf| / 2 && forall k :: 0 <= k < |x| ==> x[k] == Point(buf[2 * k], buf[2 * k + 1])
  {
    seq(|buf| / 2, k requires 0 <= k < |buf| / 2 => Point(buf[2 * k], buf[2 * k + 1]))
  }
}
