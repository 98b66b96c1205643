/** A byte source consumed from the front, as a file or a socket is. */
module Streams {
  import opened Bytes

  class Reader {
    var rest: seq<u8>

    constructor (bytes: seq<u8>)
      ensures rest == bytes
    {
      rest := bytes;
    }

    /** Exactly `n` bytes, or an error at the end of the stream. */
    method ReadExact(n: nat) returns (r: Result<seq<u8>>)
      modifies this
      ensures r == if n <= |old(rest)| then Ok(old(rest)[..n]) else Err
      ensures rest == if n <= |old(rest)| then old(rest)[n..] else []
    {
      if n <= |rest| {
        r, rest := Ok(rest[..n]), rest[n..];
      } else {
        r, rest := Err, [];
      }
    }
  }
}
