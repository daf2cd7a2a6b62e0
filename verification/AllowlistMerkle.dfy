/** Sorted-pair Merkle proofs over allowlist leaves. SHA-256 is any function from byte strings to 32 bytes. */
module AllowlistMerkle {
  import opened Common
  import opened LittleEndian
  import opened AllowlistLeaf
  import TypeScriptCodec

  const HASH_BYTE_LENGTH := 32

  type Hash = bytes -> bytes

  ghost predicate IsHash(h: Hash) {
    forall b: bytes :: |h(b)| == HASH_BYTE_LENGTH
  }

  datatype MerkleError = InvalidSibling | InvalidMaximumDepth | InvalidDepth

  // ----- The order of byte strings -----

  /** Lexicographic comparison: negative, zero or positive. */
  function Compare(left: bytes, right: bytes): int {
    if left == [] || right == [] then |left| - |right|
    else if left[0] != right[0] then left[0] - right[0]
    else Compare(left[1..], right[1..])
  }

  method CompareBytes(left: bytes, right: bytes) returns (order: int)
    ensures order == Compare(left, right)
  {
    var sharedLength := if |left| <= |right| then |left| else |right|;
    for index := 0 to sharedLength
      invariant Compare(left, right) == Compare(left[index..], right[index..])
    {
      assert left[index..][1..] == left[index + 1..] && right[index..][1..] == right[index + 1..];
      var difference := left[index] as int - right[index] as int;
      if difference != 0 {
        return difference;
      }
    }
    return |left| - |right|;
  }

  /** Comparison is antisymmetric, and ties only equal strings. */
  lemma {:induction false} CompareIsAntisymmetric(left: bytes, right: bytes)
    ensures Compare(left, right) == -Compare(right, left)
    ensures Compare(left, right) == 0 <==> left == right
  {
    if left != [] && right != [] && left[0] == right[0] {
      CompareIsAntisymmetric(left[1..], right[1..]);
      assert left == [left[0]] + left[1..] && right == [right[0]] + right[1..];
    }
  }

  /** `left <= right` on Rust slices. */
  predicate RustAtMost(left: bytes, right: bytes) {
    || left == []
    || (right != [] && (left[0] < right[0] || (left[0] == right[0] && RustAtMost(left[1..], right[1..]))))
  }

  // ----- Nodes -----

  function NodePreimage(left: bytes, right: bytes): bytes {
    if Compare(left, right) <= 0 then left + right else right + left
  }

  function RustNodePreimage(left: bytes, right: bytes): bytes {
    if RustAtMost(left, right) then left + right else right + left
  }

  lemma {:induction false} OrdersAgree(left: bytes, right: bytes)
    ensures RustAtMost(left, right) <==> Compare(left, right) <= 0
  {
    if left != [] && right != [] && left[0] == right[0] {
      OrdersAgree(left[1..], right[1..]);
    }
  }

  /** Both implementations hash the same node bytes. */
  lemma NodePreimagesAgree(left: bytes, right: bytes)
    ensures RustNodePreimage(left, right) == NodePreimage(left, right)
  {
    OrdersAgree(left, right);
  }

  /** A node's bytes depend on its two hashes as an unordered pair, and determine that pair. */
  lemma NodePreimageIsUnorderedPair(a: bytes, b: bytes, c: bytes, d: bytes)
    requires |a| == |b| == |c| == |d|
    ensures NodePreimage(a, b) == NodePreimage(c, d) <==> (a == c && b == d) || (a == d && b == c)
  {
    CompareIsAntisymmetric(a, b);
    CompareIsAntisymmetric(c, d);
    var n := |a|;
    var (a1, b1) := if Compare(a, b) <= 0 then (a, b) else (b, a);
    var (c1, d1) := if Compare(c, d) <= 0 then (c, d) else (d, c);
    assert (a1 + b1)[..n] == a1 && (a1 + b1)[n..] == b1;
    assert (c1 + d1)[..n] == c1 && (c1 + d1)[n..] == d1;
  }

  function HashLeaf(h: Hash, content: bytes): bytes {
    h(content)
  }

  function HashNode(h: Hash, left: bytes, right: bytes): Result<bytes, MerkleError> {
    if |left| != HASH_BYTE_LENGTH || |right| != HASH_BYTE_LENGTH then Err(InvalidSibling)
    else Ok(h(NodePreimage(left, right)))
  }

  method Join(left: bytes, right: bytes) returns (joined: bytes)
    ensures joined == left + right
  {
    var buffer := new byte[|left| + |right|];
    forall i | 0 <= i < |left| {
      buffer[i] := left[i];
    }
    forall i | 0 <= i < |right| {
      buffer[|left| + i] := right[i];
    }
    return buffer[..];
  }

  method HashAllowlistNode(h: Hash, left: bytes, right: bytes) returns (r: Result<bytes, MerkleError>)
    ensures r == HashNode(h, left, right)
  {
    if |left| != HASH_BYTE_LENGTH || |right| != HASH_BYTE_LENGTH {
      return Err(InvalidSibling);
    }
    var order := CompareBytes(left, right);
    var first, second := left, right;
    if order > 0 {
      first, second := right, left;
    }
    var joined := Join(first, second);
    return Ok(h(joined));
  }

  // ----- Proofs -----

  /** `siblings.reduce(hashAllowlistNode, start)` */
  function Fold(h: Hash, start: bytes, siblings: seq<bytes>): Result<bytes, MerkleError>
    decreases |siblings|
  {
    if siblings == [] then Ok(start)
    else
      var next :- HashNode(h, start, siblings[0]);
      Fold(h, next, siblings[1..])
  }

  function AllowlistRoot(h: Hash, content: bytes, siblings: seq<bytes>, maximumDepth: int): Result<bytes, MerkleError> {
    if !(1 <= maximumDepth <= MAX_SAFE_INTEGER) then Err(InvalidMaximumDepth)
    else if siblings == [] || |siblings| > maximumDepth then Err(InvalidDepth)
    else Fold(h, HashLeaf(h, content), siblings)
  }

  ghost predicate AllHashes(siblings: seq<bytes>) {
    forall s | s in siblings :: |s| == HASH_BYTE_LENGTH
  }

  /** A proof folds to a value exactly when every sibling is a hash. */
  lemma {:induction false} FoldOkIff(h: Hash, start: bytes, siblings: seq<bytes>)
    requires IsHash(h) && |start| == HASH_BYTE_LENGTH
    ensures Fold(h, start, siblings).Ok? <==> AllHashes(siblings)
    ensures Fold(h, start, siblings).Ok? ==> |Fold(h, start, siblings).value| == HASH_BYTE_LENGTH
    ensures Fold(h, start, siblings).Err? ==> Fold(h, start, siblings).error == InvalidSibling
    decreases |siblings|
  {
    if siblings != [] {
      assert siblings == [siblings[0]] + siblings[1..];
      assert siblings[0] in siblings;
      if |siblings[0]| == HASH_BYTE_LENGTH {
        FoldOkIff(h, HashNode(h, start, siblings[0]).value, siblings[1..]);
      }
    }
  }

  lemma {:induction false} FoldLast(h: Hash, start: bytes, siblings: seq<bytes>, last: bytes)
    requires Fold(h, start, siblings).Ok?
    ensures Fold(h, start, siblings + [last]) == HashNode(h, Fold(h, start, siblings).value, last)
    decreases |siblings|
  {
    if siblings == [] {
      assert Fold(h, start, [last]) == HashNode(h, start, last);
    } else {
      assert (siblings + [last])[1..] == siblings[1..] + [last];
      FoldLast(h, HashNode(h, start, siblings[0]).value, siblings[1..], last);
    }
  }

  // ----- Trees -----

  datatype Tree = Content(content: bytes) | Branch(left: Tree, right: Tree)

  function TreeRoot(h: Hash, t: Tree): bytes {
    match t
    case Content(content) => h(content)
    case Branch(left, right) => h(NodePreimage(TreeRoot(h, left), TreeRoot(h, right)))
  }

  /** The content at the end of a path of left (false) and right (true) turns. */
  function At(t: Tree, path: seq<bool>): Option<bytes> {
    match t
    case Content(content) => if path == [] then Some(content) else None
    case Branch(left, right) =>
      if path == [] then None else At(if path[0] then right else left, path[1..])
  }

  /** The siblings met on the way up from the end of a path. */
  function ProofFor(h: Hash, t: Tree, path: seq<bool>): seq<bytes> {
    match t
    case Content(_) => []
    case Branch(left, right) =>
      if path == [] then []
      else if path[0] then ProofFor(h, right, path[1..]) + [TreeRoot(h, left)]
      else ProofFor(h, left, path[1..]) + [TreeRoot(h, right)]
  }

  ghost predicate EveryContent(t: Tree, p: bytes -> bool) {
    match t
    case Content(content) => p(content)
    case Branch(left, right) => EveryContent(left, p) && EveryContent(right, p)
  }

  /** Longer than the 64 bytes of a node. */
  predicate LongerThanNode(content: bytes) {
    |content| > 2 * HASH_BYTE_LENGTH
  }

  // ----- Every honest proof is accepted -----

  lemma {:induction false} HonestProofFolds(h: Hash, t: Tree, path: seq<bool>)
    requires IsHash(h) && At(t, path).Some?
    ensures |ProofFor(h, t, path)| == |path|
    ensures Fold(h, h(At(t, path).value), ProofFor(h, t, path)) == Ok(TreeRoot(h, t))
  {
    if t.Branch? {
      var (child, other) := if path[0] then (t.right, t.left) else (t.left, t.right);
      HonestProofFolds(h, child, path[1..]);
      FoldLast(h, h(At(t, path).value), ProofFor(h, child, path[1..]), TreeRoot(h, other));
      RootIsHash(h, child);
      RootIsHash(h, other);
      NodePreimageIsUnorderedPair(TreeRoot(h, child), TreeRoot(h, other), TreeRoot(h, t.left), TreeRoot(h, t.right));
    }
  }

  lemma RootIsHash(h: Hash, t: Tree)
    requires IsHash(h)
    ensures |TreeRoot(h, t)| == HASH_BYTE_LENGTH
  {
  }

  /** A leaf's own proof gives the tree's root exactly when the leaf lies between one level and the maximum depth below it. */
  lemma HonestProofAcceptedIff(h: Hash, t: Tree, path: seq<bool>, maximumDepth: int)
    requires IsHash(h) && At(t, path).Some? && 1 <= maximumDepth <= MAX_SAFE_INTEGER
    ensures AllowlistRoot(h, At(t, path).value, ProofFor(h, t, path), maximumDepth) == Ok(TreeRoot(h, t)) <==>
            1 <= |path| <= maximumDepth
  {
    HonestProofFolds(h, t, path);
  }

  // ----- Every accepted proof is honest, or exhibits a collision -----

  datatype Verdict = Member(path: seq<bool>) | Collision(one: bytes, other: bytes)

  function Deeper(turn: bool, v: Verdict): Verdict {
    match v
    case Member(path) => Member([turn] + path)
    case Collision(_, _) => v
  }

  /** Walks down the tree against the proof, and returns where the content is or where two preimages collide. */
  ghost function Extract(h: Hash, t: Tree, content: bytes, siblings: seq<bytes>): Verdict
    requires IsHash(h) && AllHashes(siblings)
    decreases |siblings|
  {
    if siblings == [] then
      match t
      case Content(c) => if c == content then Member([]) else Collision(c, content)
      case Branch(left, right) => Collision(content, NodePreimage(TreeRoot(h, left), TreeRoot(h, right)))
    else
      var front, last := siblings[..|siblings| - 1], siblings[|siblings| - 1];
      FoldOkIff(h, h(content), front);
      var below := Fold(h, h(content), front).value;
      match t
      case Content(c) => Collision(c, NodePreimage(below, last))
      case Branch(left, right) =>
        if NodePreimage(TreeRoot(h, left), TreeRoot(h, right)) != NodePreimage(below, last) then
          Collision(NodePreimage(TreeRoot(h, left), TreeRoot(h, right)), NodePreimage(below, last))
        else if below == TreeRoot(h, left) then Deeper(false, Extract(h, left, content, front))
        else Deeper(true, Extract(h, right, content, front))
  }

  ghost predicate Proves(h: Hash, t: Tree, content: bytes, siblings: seq<bytes>, v: Verdict) {
    match v
    case Member(path) => At(t, path) == Some(content) && ProofFor(h, t, path) == siblings
    case Collision(one, other) => one != other && h(one) == h(other)
  }

  lemma {:induction false} FoldedProofIsHonestOrCollides(h: Hash, t: Tree, content: bytes, siblings: seq<bytes>)
    requires IsHash(h) && LongerThanNode(content) && EveryContent(t, LongerThanNode)
    requires Fold(h, h(content), siblings) == Ok(TreeRoot(h, t))
    ensures AllHashes(siblings)
    ensures Proves(h, t, content, siblings, Extract(h, t, content, siblings))
    decreases |siblings|
  {
    FoldOkIff(h, h(content), siblings);
    if siblings == [] {
      if t.Branch? {
        RootIsHash(h, t.left);
        RootIsHash(h, t.right);
      }
    } else {
      var front, last := siblings[..|siblings| - 1], siblings[|siblings| - 1];
      assert siblings == front + [last];
      FoldOkIff(h, h(content), front);
      FoldLast(h, h(content), front, last);
      var below := Fold(h, h(content), front).value;
      if t.Branch? {
        var left, right := TreeRoot(h, t.left), TreeRoot(h, t.right);
        RootIsHash(h, t.left);
        RootIsHash(h, t.right);
        NodePreimageIsUnorderedPair(left, right, below, last);
        if NodePreimage(left, right) == NodePreimage(below, last) {
          var child := if below == left then t.left else t.right;
          FoldedProofIsHonestOrCollides(h, child, content, front);
          var v := Extract(h, child, content, front);
          if v.Member? {
            assert Deeper(below != left, v).path[1..] == v.path;
          }
        }
      }
    }
  }

  // ----- The allowlist -----

  ghost predicate IsEncodedLeaf(content: bytes) {
    exists leaf :: TypeScriptCodec.Encoded(leaf) == Ok(content)
  }

  lemma {:induction false} EncodedTreesAreLong(t: Tree)
    requires EveryContent(t, IsEncodedLeaf)
    ensures EveryContent(t, LongerThanNode)
  {
    match t {
      case Content(content) =>
        var leaf :| TypeScriptCodec.Encoded(leaf) == Ok(content);
        MinimumEncodingLength(leaf);
      case Branch(left, right) =>
        EncodedTreesAreLong(left);
        EncodedTreesAreLong(right);
    }
  }

  /**
   The theorem of the allowlist: when the proof of a leaf's encoding gives the root of a tree of encoded leaves, the
   walk down the tree finds that very encoding, with that very proof, or finds two byte strings with one hash.
   */
  lemma AcceptedProofIsHonestOrCollides(h: Hash, t: Tree, leaf: Leaf, siblings: seq<bytes>, maximumDepth: int)
    requires IsHash(h) && EveryContent(t, IsEncodedLeaf) && TypeScriptCodec.Encoded(leaf).Ok?
    requires AllowlistRoot(h, TypeScriptCodec.Encoded(leaf).value, siblings, maximumDepth) == Ok(TreeRoot(h, t))
    ensures AllHashes(siblings)
    ensures var content := TypeScriptCodec.Encoded(leaf).value;
            var v := Extract(h, t, content, siblings);
            && Proves(h, t, content, siblings, v)
            && (v.Member? ==> forall l | TypeScriptCodec.Encoded(l) == Ok(At(t, v.path).value) :: l == leaf)
  {
    MinimumEncodingLength(leaf);
    EncodedTreesAreLong(t);
    var content := TypeScriptCodec.Encoded(leaf).value;
    FoldedProofIsHonestOrCollides(h, t, content, siblings);
    forall l | TypeScriptCodec.Encoded(l) == Ok(content)
      ensures l == leaf
    {
      TypeScriptCodec.EncodingIsInjective(l, leaf);
    }
  }

  /**
   The length floor is needed: the 64 bytes of an inner node are accepted as content, with the rest of the path as
   proof.
   */
  lemma NodeBytesWouldBeAccepted(h: Hash, a: Tree, b: Tree, c: Tree)
    requires IsHash(h)
    ensures var content := NodePreimage(TreeRoot(h, a), TreeRoot(h, b));
            && AllowlistRoot(h, content, [TreeRoot(h, c)], 1) == Ok(TreeRoot(h, Branch(Branch(a, b), c)))
            && |content| == 2 * HASH_BYTE_LENGTH
  {
    RootIsHash(h, a);
    RootIsHash(h, b);
    RootIsHash(h, c);
    var content := NodePreimage(TreeRoot(h, a), TreeRoot(h, b));
    FoldLast(h, h(content), [], TreeRoot(h, c));
    assert [] + [TreeRoot(h, c)] == [TreeRoot(h, c)];
  }
}
