/** Value types shared by the whole model. */
module Base {

  datatype Option<+T> = None | Some(value: T)

  type Bytes = seq<bv8>

  /** SHA-256 taken as an injective function: a digest remembers what it digests. */
  datatype Digest = Sha256(of: Bytes)

  /** A path cut at its separators, without empty, "." or ".." segments. */
  type Segment = string
  type Path = seq<Segment>

  function Parent(p: Path): Path
    requires p != []
  {
    p[..|p| - 1]
  }

  /** p and every path above it. */
  function Prefixes(p: Path): set<Path> {
    set i | 0 <= i <= |p| :: p[..i]
  }

  /** Moves p from under a to under b; paths outside a stay put. */
  function Rebase(a: Path, b: Path, p: Path): Path {
    if a <= p then b + p[|a|..] else p
  }
}
