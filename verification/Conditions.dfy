/** Access conditions as the contract stores them: the bounds a condition must keep to be stored. */
module Conditions {
  import opened Options

  datatype Operator = And | Or

  datatype Comparison = Gte | Lte | Gt | Lt | Eq | Ne

  datatype Condition =
    | Logic(operator: Operator, conditions: seq<Condition>)
    | Not(condition: Condition)
    | AllowAll
    | Whitelist(accounts: seq<string>)
    | AccountPattern(pattern: string)
    | NearBalance(comparison: Comparison, amount: nat)
    | FtBalance(token: string, comparison: Comparison, amount: nat)
    | NftOwned(collection: string, tokenId: Option<string>)
    | DaoMember(dao: string, role: string)
    | ValidUntil(untilNs: nat)
    | WasmHash(hash: string)
    | Predecessor(condition: Condition)

  const MAX_ACCOUNT_PATTERNS: nat := 16
  const MAX_ACCOUNT_PATTERN_BYTES: nat := 4096
  const MAX_CHAIN_READ_LEAVES: nat := 5

  datatype Leaves = Leaves(patterns: nat, patternBytes: nat, chainReads: nat)

  function Plus(a: Leaves, b: Leaves): Leaves {
    Leaves(a.patterns + b.patterns, a.patternBytes + b.patternBytes, a.chainReads + b.chainReads)
  }

  predicate AsksChain(c: Condition) {
    c.NearBalance? || c.FtBalance? || c.NftOwned? || c.DaoMember?
  }

  /** `condition_leaf_count`. */
  function LeafCount(c: Condition): Leaves {
    match c
    case AccountPattern(pattern) => Leaves(1, |pattern|, 0)
    case Logic(_, conditions) => LeafCounts(conditions)
    case Not(inner) => LeafCount(inner)
    case Predecessor(inner) => LeafCount(inner)
    case _ => if AsksChain(c) then Leaves(0, 0, 1) else Leaves(0, 0, 0)
  }

  function LeafCounts(cs: seq<Condition>): Leaves {
    if cs == [] then Leaves(0, 0, 0) else Plus(LeafCount(cs[0]), LeafCounts(cs[1..]))
  }

  /** The text of a SHA-256 hash, and the name of an implicit account. */
  predicate IsLowerHex64(s: string) {
    |s| == 64 && forall i :: 0 <= i < 64 ==> '0' <= s[i] <= '9' || 'a' <= s[i] <= 'f'
  }

  /** `assert_wasm_hash_leaves` and `assert_logic_is_not_empty`. */
  predicate WellFormed(c: Condition) {
    match c
    case WasmHash(hash) => IsLowerHex64(hash)
    case Logic(_, conditions) => conditions != [] && forall i :: 0 <= i < |conditions| ==> WellFormed(conditions[i])
    case Not(inner) => WellFormed(inner)
    case Predecessor(inner) => WellFormed(inner)
    case _ => true
  }

  /** `assert_condition_bounds`. */
  predicate WithinBounds(c: Condition) {
    var l := LeafCount(c);
    && l.patterns <= MAX_ACCOUNT_PATTERNS && l.patternBytes <= MAX_ACCOUNT_PATTERN_BYTES
    && l.chainReads <= MAX_CHAIN_READ_LEAVES
    && WellFormed(c)
  }

  // ---- what the counts count ----

  /** The leaves of a condition, left to right. */
  function LeavesOf(c: Condition): seq<Condition> {
    match c
    case Logic(_, conditions) => LeavesOfAll(conditions)
    case Not(inner) => LeavesOf(inner)
    case Predecessor(inner) => LeavesOf(inner)
    case _ => [c]
  }

  function LeavesOfAll(cs: seq<Condition>): seq<Condition> {
    if cs == [] then [] else LeavesOf(cs[0]) + LeavesOfAll(cs[1..])
  }

  function SumOver(leaves: seq<Condition>, weight: Condition -> nat): nat
    decreases |leaves|
  {
    if leaves == [] then 0 else weight(leaves[0]) + SumOver(leaves[1..], weight)
  }

  lemma {:induction false} SumOverConcat(a: seq<Condition>, b: seq<Condition>, weight: Condition -> nat)
    ensures SumOver(a + b, weight) == SumOver(a, weight) + SumOver(b, weight)
    decreases |a|
  {
    if a == [] {
      assert a + b == b;
    } else {
      SumOverConcat(a[1..], b, weight);
      assert (a + b)[0] == a[0] && (a + b)[1..] == a[1..] + b;
    }
  }

  function PatternWeight(c: Condition): nat {
    if c.AccountPattern? then 1 else 0
  }

  function PatternBytesWeight(c: Condition): nat {
    if c.AccountPattern? then |c.pattern| else 0
  }

  function ChainWeight(c: Condition): nat {
    if AsksChain(c) then 1 else 0
  }

  /** The counts are those of the flattened leaves. */
  predicate CountsLeaves(l: Leaves, leaves: seq<Condition>) {
    && l.patterns == SumOver(leaves, PatternWeight)
    && l.patternBytes == SumOver(leaves, PatternBytesWeight)
    && l.chainReads == SumOver(leaves, ChainWeight)
  }

  lemma OneLeaf(c: Condition)
    requires !c.Logic? && !c.Not? && !c.Predecessor?
    ensures CountsLeaves(LeafCount(c), [c])
  {
    assert [c][1..] == [];
  }

  lemma PlusCounts(l: Leaves, a: seq<Condition>, m: Leaves, b: seq<Condition>)
    requires CountsLeaves(l, a) && CountsLeaves(m, b)
    ensures CountsLeaves(Plus(l, m), a + b)
  {
    SumOverConcat(a, b, PatternWeight);
    SumOverConcat(a, b, PatternBytesWeight);
    SumOverConcat(a, b, ChainWeight);
  }

  /** `condition_leaf_count` counts the patterns, their bytes and the chain reads among the leaves. */
  lemma {:induction false} LeafCountIsExact(c: Condition)
    ensures CountsLeaves(LeafCount(c), LeavesOf(c))
    decreases c, 1
  {
    match c
    case Logic(_, conditions) => LeafCountsAreExact(conditions);
    case Not(inner) => LeafCountIsExact(inner);
    case Predecessor(inner) => LeafCountIsExact(inner);
    case _ => OneLeaf(c);
  }

  lemma {:induction false} LeafCountsAreExact(cs: seq<Condition>)
    ensures CountsLeaves(LeafCounts(cs), LeavesOfAll(cs))
    decreases cs, 0
  {
    if cs != [] {
      LeafCountIsExact(cs[0]);
      LeafCountsAreExact(cs[1..]);
      PlusCounts(LeafCount(cs[0]), LeavesOf(cs[0]), LeafCounts(cs[1..]), LeavesOfAll(cs[1..]));
    }
  }

  /** A stored condition always has a leaf to judge, and every WASM-hash leaf of it can match a build. */
  lemma {:induction false} WellFormedHasLeaves(c: Condition)
    requires WellFormed(c)
    ensures LeavesOf(c) != []
    ensures forall leaf :: leaf in LeavesOf(c) && leaf.WasmHash? ==> IsLowerHex64(leaf.hash)
    decreases c, 1
  {
    match c
    case Logic(_, conditions) =>
      WellFormedHasLeaves(conditions[0]);
      AllWellFormed(conditions);
    case Not(inner) => WellFormedHasLeaves(inner);
    case Predecessor(inner) => WellFormedHasLeaves(inner);
    case _ =>
  }

  lemma {:induction false} AllWellFormed(cs: seq<Condition>)
    requires forall i :: 0 <= i < |cs| ==> WellFormed(cs[i])
    ensures forall leaf :: leaf in LeavesOfAll(cs) && leaf.WasmHash? ==> IsLowerHex64(leaf.hash)
    decreases cs, 0
  {
    if cs != [] {
      WellFormedHasLeaves(cs[0]);
      AllWellFormed(cs[1..]);
    }
  }
}
