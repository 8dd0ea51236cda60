/**
  Key codes shared by the batch editor and the progress view, and the
  stream of values that curses' key reads return.

  A key read yields an `int`: a character code, a curses function-key code,
  or `NoKey` when a non-blocking read finds nothing pending.
 */
module Keys {

  /** The value a non-blocking read returns when no key is pending (curses ERR). */
  const NoKey: int := -1

  const KeyQuit: int := 'q' as int
  const KeyAdd: int := 'a' as int
  const KeyDelete: int := 'd' as int
  const KeyStart: int := 's' as int
  const KeyPause: int := 'p' as int

  /** The value the next non-blocking read returns: the first pending key, or NoKey. */
  function Poll(keys: seq<int>): (k: int)
    // with nothing pending the read reports ERR ...
    ensures |keys| == 0 ==> k == NoKey
    // ... otherwise it returns a key, and that key followed by what stays pending is the whole stream
    ensures |keys| > 0 ==> [k] + Consume(keys) == keys
  {
    if |keys| == 0 then NoKey else keys[0]
  }

  /** The keys still pending after one read. */
  function Consume(keys: seq<int>): (rest: seq<int>)
    // exactly one key is consumed when one is pending, none otherwise ...
    ensures |rest| == if |keys| == 0 then 0 else |keys| - 1
    // ... and the keys left are the later ones, in order
    ensures rest == keys[|keys| - |rest|..]
  {
    if |keys| == 0 then [] else keys[1..]
  }
}
