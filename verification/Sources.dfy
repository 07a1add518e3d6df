// An input that is read in pieces.
module Sources {
  import opened Common

  // What is left of an input whose reads do not fail, in pieces of any size.
  class Source {
    var rest: seq<byte>

    constructor (bytes: seq<byte>)
      ensures rest == bytes
    {
      rest := bytes;
    }

    // At least one byte, and at most `max`, unless there is none left.
    method Take(max: nat) returns (s: seq<byte>)
      modifies this
      ensures |s| <= max && |s| <= |old(rest)| && s == old(rest)[..|s|] && rest == old(rest)[|s|..]
      ensures s == [] <==> max == 0 || old(rest) == []
    {
      if max == 0 || rest == [] {
        return [];
      }
      var n :| 1 <= n <= max && n <= |rest|;
      s := rest[..n];
      rest := rest[n..];
    }
  }

  // Pieces put together again.
  function Joined(pieces: seq<seq<byte>>): seq<byte> {
    if pieces == [] then [] else Joined(pieces[..|pieces| - 1]) + pieces[|pieces| - 1]
  }
}
