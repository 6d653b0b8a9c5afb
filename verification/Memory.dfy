/** The memory that swansong's threads share: node words, shard words and child registries.

    A word is written as the record that its `u64` packs; `PackedWords` proves that the two
    agree. Counters are integers, so that a subtraction by a thread that owns no unit would show
    as a negative count; `Ledger` proves that there is none. */
module Memory {

  datatype Option<+T> = None | Some(value: T)

  /** A shard's `state`: whether it has arrived at its node, whether its node has stopped or been
      collected, the child nodes that arrived at it, and the guards homed on it. */
  datatype ShardWord = ShardWord(arrived: bool, stopped: bool, kids: int, local: int)

  /** A node's `state`: whether it has arrived at a parent shard, whether it has stopped, the
      index of that parent shard, and the number of its own shards that have arrived. */
  datatype NodeWord = NodeWord(arrived: bool, stopped: bool, home: nat, count: int)

  /** What a shard counts: a guard homed on it, or a child node that arrived at it. */
  datatype Unit = Local | Kid

  /** `children` is the registry of child nodes, which the shard's lock protects. */
  datatype Shard = Shard(word: ShardWord, children: map<nat, nat>)

  /** A child's link to its parent: the parent, the parent shard it registers on, and its key
      there once it is registered. */
  datatype Link = Root | Child(parent: nat, shard: nat, key: Option<nat>)

  /** Whether a node's strong count is positive, its destructor is in progress, or its destructor
      is over and its reference to its parent is gone. */
  datatype Life = Live | Dropping | Freed

  /** `handles` is the number of `Swansong` handles that users hold. */
  datatype Node = Node(word: NodeWord, shards: seq<Shard>, link: Link, life: Life, handles: nat)

  const EMPTY_SHARD := ShardWord(false, false, 0, 0)
  const EMPTY_NODE := NodeWord(false, false, 0, 0)
  /** The word of a stopped shard that must be flushed. */
  const FLUSHABLE := ShardWord(true, true, 0, 0)

  function Plus(w: ShardWord, unit: Unit): ShardWord {
    if unit == Local then w.(local := w.local + 1) else w.(kids := w.kids + 1)
  }

  function Minus(w: ShardWord, unit: Unit): ShardWord {
    if unit == Local then w.(local := w.local - 1) else w.(kids := w.kids - 1)
  }

  predicate ValidNode(nodes: seq<Node>, n: nat) {
    n < |nodes|
  }

  predicate ValidShard(nodes: seq<Node>, n: nat, s: nat) {
    n < |nodes| && s < |nodes[n].shards|
  }

  predicate IsChild(nodes: seq<Node>, n: nat) {
    n < |nodes| && nodes[n].link.Child?
  }

  /** Parents precede their children, so the nodes form a forest. */
  predicate Forest(nodes: seq<Node>) {
    forall n :: 0 <= n < |nodes| ==>
      |nodes[n].shards| > 0 &&
      (nodes[n].link.Child? ==> nodes[n].link.parent < n && nodes[n].link.shard < |nodes[nodes[n].link.parent].shards|)
  }

  function SetShard(nodes: seq<Node>, n: nat, s: nat, w: ShardWord): (nodes': seq<Node>)
    requires ValidShard(nodes, n, s)
  {
    nodes[n := nodes[n].(shards := nodes[n].shards[s := nodes[n].shards[s].(word := w)])]
  }

  function SetChildren(nodes: seq<Node>, n: nat, s: nat, children: map<nat, nat>): (nodes': seq<Node>)
    requires ValidShard(nodes, n, s)
  {
    nodes[n := nodes[n].(shards := nodes[n].shards[s := nodes[n].shards[s].(children := children)])]
  }

  function SetNode(nodes: seq<Node>, n: nat, w: NodeWord): (nodes': seq<Node>)
    requires ValidNode(nodes, n)
  {
    nodes[n := nodes[n].(word := w)]
  }

  function SetLife(nodes: seq<Node>, n: nat, life: Life): (nodes': seq<Node>)
    requires ValidNode(nodes, n)
  {
    nodes[n := nodes[n].(life := life)]
  }

  function SetHandles(nodes: seq<Node>, n: nat, handles: nat): (nodes': seq<Node>)
    requires ValidNode(nodes, n)
  {
    nodes[n := nodes[n].(handles := handles)]
  }

  /** The children registered on a shard that a stop can still upgrade. */
  function LiveChildren(nodes: seq<Node>, n: nat, s: nat): set<nat>
    requires ValidShard(nodes, n, s)
  {
    set c | c in nodes[n].shards[s].children.Values && c < |nodes| && nodes[c].life.Live?
  }

  /** `a` is `n` or one of its ancestors. */
  predicate Within(nodes: seq<Node>, a: nat, n: nat)
    decreases n
  {
    n < |nodes| && (a == n || (nodes[n].link.Child? && nodes[n].link.parent < n && Within(nodes, a, nodes[n].link.parent)))
  }
}
