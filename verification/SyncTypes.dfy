/** The data of the team vault sync: a vault maps relative paths to bytes, a manifest maps
    relative paths to content hashes, and a bucket holds objects and at most one manifest. */
module SyncTypes {
  import opened Collections

  /** A path relative to the vault directory. */
  datatype Path = Rel(text: string)

  newtype Byte = x: int | 0 <= x < 256

  type Bytes = seq<Byte>

  /** A manifest hash is a string. `Sha256(body)` stands for the digest of `body` and is injective;
      `Text(text)` is any other string, and `Text("")` is the one string JavaScript counts as false. */
  datatype Hash = Sha256(body: Bytes) | Text(text: string)

  type Files = map<Path, Hash>

  type Tree = map<Path, Bytes>

  function Hashes(tree: Tree): Files {
    map p | p in tree :: Sha256(tree[p])
  }

  function Restrict(tree: Tree, scope: Path -> bool): Tree {
    map p | p in tree && scope(p) :: tree[p]
  }

  function OrEmpty(manifest: Option<Files>): Files {
    if manifest.Some? then manifest.value else map[]
  }

  datatype Bucket = Bucket(objects: Tree, manifest: Option<Files>) {
    function Index(): Files { OrEmpty(manifest) }

    /** The object stored for `p` is what the manifest says it is. */
    predicate Matches(p: Path)
      requires p in Index()
    {
      p in objects && Index()[p] == Sha256(objects[p])
    }

    /** Manifest paths whose object is missing or has other contents. */
    function Incoherent(): set<Path> {
      set p | p in Index() && !Matches(p)
    }

    predicate Coherent() { Incoherent() == {} }
  }

  // Paths of two indexes compared: in one only, in both with equal hashes, in both with different ones.

  function OnlyIn(a: Files, b: Files): set<Path> { set p | p in a && p !in b }

  function Same(a: Files, b: Files): set<Path> { set p | p in a && p in b && a[p] == b[p] }

  function Differing(a: Files, b: Files): set<Path> { set p | p in a && p in b && a[p] != b[p] }

  /** Comparing an index with another one splits its paths three ways. */
  lemma CompareSplits(a: Files, b: Files)
    ensures |Same(a, b)| + |OnlyIn(a, b)| + |Differing(a, b)| == |a|
  {
    PartitionSize(Same(a, b), OnlyIn(a, b), Differing(a, b), a.Keys);
  }

  lemma CompareSymmetric(a: Files, b: Files)
    ensures Same(a, b) == Same(b, a) && Differing(a, b) == Differing(b, a)
  {
  }
}
