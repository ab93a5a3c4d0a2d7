/** The libraries the transport calls, as parameters: SHA-256, CRC-32, Reed-Solomon, the name check. */
module Library {
  import opened Bytes

  datatype Lib = Lib(
    sha: Data -> Data,
    crc: Data -> u32,
    encode: (nat, nat, seq<Data>) -> seq<Data>,
    rebuild: (nat, nat, seq<Option<Data>>) -> Option<seq<Data>>,
    validName: Data -> bool)

  /** d shards of n bytes each. */
  predicate Shaped(shards: seq<Data>, d: nat, n: nat)
  {
    |shards| == d && forall i | 0 <= i < d :: |shards[i]| == n
  }

  ghost function Present(shards: seq<Option<Data>>): set<nat>
  {
    set i: nat | i < |shards| && shards[i].Some?
  }

  /** Every present shard is the corresponding shard of code. */
  ghost predicate Subset(shards: seq<Option<Data>>, code: seq<Data>)
  {
    |shards| == |code| && forall i | 0 <= i < |code| :: shards[i].Some? ==> shards[i].value == code[i]
  }

  /** The codeword of d data shards: the code is systematic, so they come first. */
  function Codeword(lib: Lib, p: nat, shards: seq<Data>): seq<Data>
  {
    shards + lib.encode(|shards|, p, shards)
  }

  predicate Geometry(d: nat, p: nat) { d >= 1 && p >= 1 && d + p <= 256 }

  /** What the Reed-Solomon library promises: p parity shards of the data's size, and any d shards of
      a codeword rebuild its data shards. */
  ghost predicate Lawful(lib: Lib)
  {
    && (forall d: nat, p: nat, n: nat, shards: seq<Data> ::
          Geometry(d, p) && n >= 1 && Shaped(shards, d, n) ==> Shaped(lib.encode(d, p, shards), p, n))
    && (forall d: nat, p: nat, n: nat, shards: seq<Data>, got: seq<Option<Data>> ::
          Geometry(d, p) && n >= 1 && Shaped(shards, d, n) && Subset(got, Codeword(lib, p, shards))
          && |Present(got)| >= d
          ==> lib.rebuild(d, p, got) == Some(shards))
  }
}
