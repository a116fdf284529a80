/** An input that comes in blocks. */
module Blocks {
  function Joined<T>(blocks: seq<seq<T>>): seq<T> {
    if blocks == [] then [] else blocks[0] + Joined(blocks[1..])
  }
}
