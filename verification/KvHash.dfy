/** `src/kv_hash.c`: a table of chained nodes that doubles by relinking its nodes, and the key
    comparison of `src/kv_command.c`. */
module KvHash {
  import opened Table
  import opened Utils

  // ---------- key comparison ----------

  function Compare(a: Key, b: Key): int {
    if a == "" && b == "" then 0
    else if a == "" then 1
    else if b == "" then -1
    else if a[0] < b[0] then -1
    else if a[0] > b[0] then 1
    else Compare(a[1..], b[1..])
  }

  lemma {:induction false} CompareIsEquality(a: Key, b: Key)
    ensures Compare(a, b) == 0 <==> a == b
    decreases |a|
  {
    if a != "" && b != "" && a[0] == b[0] {
      CompareIsEquality(a[1..], b[1..]);
      assert a == [a[0]] + a[1..] && b == [b[0]] + b[1..];
    }
  }

  method StrCmp(a: Key, b: Key) returns (r: int)
    ensures r == Compare(a, b)
    ensures r == 0 <==> a == b
  {
    CompareIsEquality(a, b);
    var min := if |a| < |b| then |a| else |b|;
    for i := 0 to min
      invariant Compare(a, b) == Compare(a[i..], b[i..])
    {
      if a[i] < b[i] {
        return -1;
      }
      if a[i] > b[i] {
        return 1;
      }
    }
    return if |a| == |b| then 0 else if |a| < |b| then 1 else -1;
  }

  // ---------- nodes and chains ----------

  class Node {
    const key: Key
    var value: Value
    var next: Node?

    constructor (key: Key, value: Value)
      ensures this.key == key && this.value == value && next == null
    {
      this.key, this.value, this.next := key, value, null;
    }
  }

  function Bucket(k: Key, size: nat): (b: nat)
    requires size > 0
    ensures b < size
  {
    Djb2(k) % size
  }

  /** The `next` fields of some nodes, as a value. */
  type Links = map<Node, Node?>

  ghost function LinksOf(nodes: set<Node>): Links
    reads nodes
  {
    map n | n in nodes :: n.next
  }

  ghost function NodeAt(chain: seq<Node>, x: nat): Node? {
    if x < |chain| then chain[x] else null
  }

  /** The links from `head` visit the nodes of `chain`, in order, and then end. */
  ghost predicate Linked(head: Node?, chain: seq<Node>, links: Links)
  {
    && head == NodeAt(chain, 0)
    && forall x | 0 <= x < |chain| :: chain[x] in links && links[chain[x]] == NodeAt(chain, x + 1)
  }

  ghost predicate AllLinked(heads: seq<Node?>, chains: seq<seq<Node>>, links: Links)
  {
    |heads| == |chains| && forall b | 0 <= b < |heads| :: Linked(heads[b], chains[b], links)
  }

  /** `dir` files each of the nodes under its key, and nothing else. */
  ghost predicate Keyed(dir: map<Key, Node>, nodes: set<Node>)
  {
    && (forall k <- dir :: dir[k] in nodes && dir[k].key == k)
    && (forall n <- nodes :: n.key in dir && dir[n.key] == n)
  }

  /** Every chained node is the one that `dir` files under its key, in its key's bucket, and is
      chained once. */
  ghost predicate Filed(chains: seq<seq<Node>>, dir: map<Key, Node>)
  {
    && |chains| > 0
    && (forall b, x | 0 <= b < |chains| && 0 <= x < |chains[b]| ::
          && chains[b][x].key in dir && dir[chains[b][x].key] == chains[b][x]
          && Bucket(chains[b][x].key, |chains|) == b)
    && (forall b, x, y | 0 <= b < |chains| && 0 <= x < y < |chains[b]| :: chains[b][x] != chains[b][y])
  }

  /** Every filed node is chained. */
  ghost predicate Complete(chains: seq<seq<Node>>, dir: map<Key, Node>)
  {
    && |chains| > 0
    && (forall k <- dir :: dir[k].key == k && dir[k] in chains[Bucket(k, |chains|)])
  }

  /** Links that stay the same along the chain keep it linked. */
  lemma LinkedKept(head: Node?, chain: seq<Node>, links: Links, links': Links)
    requires Linked(head, chain, links)
    requires forall n <- chain :: n in links' && links'[n] == links[n]
    ensures Linked(head, chain, links')
  {
  }

  /** The links after `node` has been hung behind the last node of `chain`. */
  ghost function Hung(links: Links, chain: seq<Node>, node: Node): Links {
    (if chain == [] then links else links[chain[|chain| - 1] := node])[node := null]
  }

  lemma HungIsLinked(head: Node?, chain: seq<Node>, links: Links, node: Node)
    requires Linked(head, chain, links) && node !in chain
    requires forall x, y | 0 <= x < y < |chain| :: chain[x] != chain[y]
    ensures Linked(if chain == [] then node else head, chain + [node], Hung(links, chain, node))
  {
  }

  method LastNode(head: Node, ghost chain: seq<Node>, ghost links: Links) returns (last: Node)
    requires Linked(head, chain, links) && forall n <- chain :: n.next == links[n]
    ensures chain != [] && last == chain[|chain| - 1]
  {
    last := head;
    ghost var j := 0;
    assert chain[0] in chain;
    while last.next != null
      invariant 0 <= j < |chain| && last == chain[j]
      invariant last.next == NodeAt(chain, j + 1)
      decreases |chain| - j
    {
      last := last.next;
      j := j + 1;
      assert chain[j] in chain;
    }
  }

  /** The first node of a bucket that has the key. */
  method FindInBucket(head: Node?, key: Key, ghost chain: seq<Node>, ghost links: Links) returns (elem: Node?)
    requires Linked(head, chain, links) && forall n <- chain :: n.next == links[n]
    ensures if elem == null then forall n <- chain :: n.key != key else elem in chain && elem.key == key
  {
    HeadIsFirst(head, chain, links);
    hide Compare, Linked;
    elem := head;
    ghost var j := 0;
    while elem != null
      invariant 0 <= j <= |chain| && elem == NodeAt(chain, j)
      invariant forall i | 0 <= i < j :: chain[i].key != key
      decreases |chain| - j
    {
      assert chain[j] in chain;
      var c := StrCmp(elem.key, key);
      if c == 0 {
        break;
      }
      elem := elem.next;
      j := j + 1;
    }
  }

  // ---------- resizing ----------

  /** Where the resize loop is: the nodes of the old buckets below `i` and the first `j` nodes of old
      bucket `i` are filed in `moved`. */
  ghost predicate Halfway(moved: seq<seq<Node>>, was: seq<seq<Node>>, dir: map<Key, Node>, i: nat, j: nat) {
    && |was| > 0 && Filed(moved, dir) && i <= |was| && (i < |was| ==> j <= |was[i]|)
    && (forall b, x | 0 <= b < |moved| && 0 <= x < |moved[b]| :: Passed(moved[b][x], was, i, j))
    && (forall k <- dir :: Passed(dir[k], was, i, j) ==> dir[k] in moved[Bucket(k, |moved|)])
  }

  ghost predicate Passed(n: Node, was: seq<seq<Node>>, i: nat, j: nat)
    requires |was| > 0 && i <= |was| && (i < |was| ==> j <= |was[i]|)
  {
    var p := Bucket(n.key, |was|);
    p < i || (p == i && n in was[i][..j])
  }

  lemma MoveOne(moved: seq<seq<Node>>, was: seq<seq<Node>>, dir: map<Key, Node>, i: nat, j: nat)
    requires Filed(was, dir) && Complete(was, dir) && i < |was| && j < |was[i]|
    requires Halfway(moved, was, dir, i, j)
    ensures var n := was[i][j];
            var h := Bucket(n.key, |moved|);
            Halfway(moved[h := moved[h] + [n]], was, dir, i, j + 1)
  {
    var n := was[i][j];
    var h := Bucket(n.key, |moved|);
    assert was[i][..j + 1] == was[i][..j] + [n];
    assert !Passed(n, was, i, j);
    assert forall x | 0 <= x < |moved[h]| :: moved[h][x] != n;
  }

  lemma NextBucket(moved: seq<seq<Node>>, was: seq<seq<Node>>, dir: map<Key, Node>, i: nat)
    requires Filed(was, dir) && Complete(was, dir) && i < |was|
    requires Halfway(moved, was, dir, i, |was[i]|)
    ensures Halfway(moved, was, dir, i + 1, 0)
  {
    assert was[i][..|was[i]|] == was[i];
  }

  /** What the next node to move shares with no other chain. */
  lemma Apart(moved: seq<seq<Node>>, was: seq<seq<Node>>, dir: map<Key, Node>, i: nat, j: nat, h: nat)
    requires Filed(was, dir) && Complete(was, dir) && i < |was| && j < |was[i]|
    requires Halfway(moved, was, dir, i, j) && h < |moved|
    ensures forall b, m | 0 <= b < |moved| && m in moved[b] :: m != was[i][j] && (b != h ==> m !in moved[h])
    ensures forall b, m | i < b < |was| && m in was[b] :: m != was[i][j] && m !in moved[h]
    ensures forall m <- was[i][j + 1..] :: m != was[i][j] && m !in moved[h]
  {
    forall m | m in moved[h] ensures Bucket(m.key, |moved|) == h && Passed(m, was, i, j) {
    }
    forall b, m | 0 <= b < |moved| && m in moved[b] ensures m != was[i][j] && (b != h ==> m !in moved[h]) {
      assert Bucket(m.key, |moved|) == b && Passed(m, was, i, j);
      assert was[i][j] !in was[i][..j];
    }
    forall m | m in was[i][j + 1..] ensures m != was[i][j] && m !in moved[h] {
      assert m !in was[i][..j];
    }
  }

  /** The old buckets still hold, linked, what has not been moved yet. */
  ghost predicate Left(heads: seq<Node?>, was: seq<seq<Node>>, links: Links, i: nat, j: nat) {
    && |heads| == |was|
    && (forall b | i < b < |was| :: Linked(heads[b], was[b], links))
    && (i < |was| ==> j <= |was[i]| && Linked(heads[i], was[i][j..], links))
  }

  /** The state of a resize between two turns of the inner loop. */
  ghost predicate Relinking(heads: seq<Node?>, newHeads: seq<Node?>, was: seq<seq<Node>>, moved: seq<seq<Node>>,
                            dir: map<Key, Node>, links: Links, i: nat, j: nat)
  {
    && Filed(was, dir) && Complete(was, dir) && Halfway(moved, was, dir, i, j)
    && AllLinked(newHeads, moved, links) && Left(heads, was, links, i, j)
  }

  lemma TurnIsReady(heads: seq<Node?>, newHeads: seq<Node?>, was: seq<seq<Node>>, moved: seq<seq<Node>>,
                    dir: map<Key, Node>, links: Links, i: nat, j: nat, h: nat)
    requires Relinking(heads, newHeads, was, moved, dir, links, i, j)
    requires i < |was| && heads[i] != null && h < |moved|
    ensures j < |was[i]| && heads[i] == was[i][j] && was[i][j] in links && was[i][j] !in moved[h]
    ensures Linked(newHeads[h], moved[h], links)
  {
    assert Linked(heads[i], was[i][j..], links);
    assert was[i][j..][0] in links;
    Apart(moved, was, dir, i, j, h);
  }

  /** One turn: the first node left in old bucket `i` goes to the end of its new bucket `h`. */
  lemma TurnRelinks(heads: seq<Node?>, newHeads: seq<Node?>, was: seq<seq<Node>>, moved: seq<seq<Node>>,
                    dir: map<Key, Node>, links: Links, i: nat, j: nat, n: Node, h: nat)
    requires Relinking(heads, newHeads, was, moved, dir, links, i, j)
    requires i < |was| && j < |was[i]| && n == was[i][j] && h == Bucket(n.key, |moved|)
    ensures Relinking(heads[i := links[n]], if moved[h] == [] then newHeads[h := n] else newHeads,
                      was, moved[h := moved[h] + [n]], dir, Hung(links, moved[h], n), i, j + 1)
  {
    MoveOne(moved, was, dir, i, j);
    NewAfterTurn(newHeads, was, moved, dir, links, i, j, n, h);
    LeftAfterTurn(heads, was, moved, dir, links, i, j, n, h);
  }

  lemma NewAfterTurn(newHeads: seq<Node?>, was: seq<seq<Node>>, moved: seq<seq<Node>>,
                     dir: map<Key, Node>, links: Links, i: nat, j: nat, n: Node, h: nat)
    requires Filed(was, dir) && Complete(was, dir) && Halfway(moved, was, dir, i, j)
    requires AllLinked(newHeads, moved, links)
    requires i < |was| && j < |was[i]| && n == was[i][j] && h == Bucket(n.key, |moved|)
    ensures AllLinked(if moved[h] == [] then newHeads[h := n] else newHeads,
                      moved[h := moved[h] + [n]], Hung(links, moved[h], n))
  {
    hide Complete;
    Apart(moved, was, dir, i, j, h);
    var links' := Hung(links, moved[h], n);
    forall b | 0 <= b < |moved| && b != h ensures Linked(newHeads[b], moved[b], links') {
      LinkedKept(newHeads[b], moved[b], links, links');
    }
    assert Linked(newHeads[h], moved[h], links);
    HungIsLinked(newHeads[h], moved[h], links, n);
  }

  lemma LeftAfterTurn(heads: seq<Node?>, was: seq<seq<Node>>, moved: seq<seq<Node>>,
                      dir: map<Key, Node>, links: Links, i: nat, j: nat, n: Node, h: nat)
    requires Filed(was, dir) && Complete(was, dir) && Halfway(moved, was, dir, i, j) && Left(heads, was, links, i, j)
    requires i < |was| && j < |was[i]| && n == was[i][j] && h == Bucket(n.key, |moved|)
    requires n in links
    ensures Left(heads[i := links[n]], was, Hung(links, moved[h], n), i, j + 1)
  {
    var links' := Hung(links, moved[h], n);
    var rest := was[i][j + 1..];
    TailIsLinked(heads[i], was[i][j..], links);
    assert was[i][j..][1..] == rest && was[i][j..][0] == n;
    Apart(moved, was, dir, i, j, h);
    LinkedKept(links[n], rest, links, links');
    forall b | i < b < |was| ensures Linked(heads[b], was[b], links') {
      LinkedKept(heads[b], was[b], links, links');
    }
  }

  lemma TailIsLinked(head: Node?, chain: seq<Node>, links: Links)
    requires Linked(head, chain, links) && chain != []
    ensures chain[0] in links && Linked(links[chain[0]], chain[1..], links)
  {
    var rest := chain[1..];
    forall x | 0 <= x < |rest| ensures rest[x] in links && links[rest[x]] == NodeAt(rest, x + 1) {
      assert rest[x] == chain[x + 1];
    }
  }

  /** Hangs `node` behind the last node of bucket `hash`, ends the chain there, and returns what
      followed `node` before. */
  method HangLast(buckets: array<Node?>, hash: nat, node: Node,
                  ghost nodes: set<Node>, ghost chain: seq<Node>, ghost links: Links) returns (rest: Node?)
    requires hash < buckets.Length && Linked(buckets[hash], chain, links)
    requires LinksOf(nodes) == links && node in nodes && node !in chain
    modifies buckets, nodes`next
    ensures buckets[..] == if chain == [] then old(buckets[..])[hash := node] else old(buckets[..])
    ensures LinksOf(nodes) == Hung(links, chain, node) && rest == links[node]
  {
    if buckets[hash] == null {
      buckets[hash] := node;
    } else {
      var last := LastNode(buckets[hash], chain, links);
      last.next := node;
    }
    rest := node.next;
    node.next := null;
    ghost var hung := Hung(links, chain, node);
    forall n | n in nodes ensures n in hung && n.next == hung[n] {
      assert n in links;
    }
    assert hung.Keys == links.Keys;
  }

  lemma ChainsPerBucket(heads: seq<Node?>, chains: seq<seq<Node>>, links: Links)
    requires AllLinked(heads, chains, links)
    ensures |chains| == |heads|
  {
  }

  lemma ResizeStarts(heads: seq<Node?>, newHeads: seq<Node?>, was: seq<seq<Node>>, moved: seq<seq<Node>>,
                     dir: map<Key, Node>, links: Links)
    requires Filed(was, dir) && Complete(was, dir) && AllLinked(heads, was, links)
    requires |newHeads| == |moved| > 0
    requires forall b | 0 <= b < |moved| :: newHeads[b] == null && moved[b] == []
    ensures Relinking(heads, newHeads, was, moved, dir, links, 0, 0)
  {
    assert was[0][0..] == was[0];
  }

  lemma ResizeEnds(heads: seq<Node?>, newHeads: seq<Node?>, was: seq<seq<Node>>, moved: seq<seq<Node>>,
                   dir: map<Key, Node>, links: Links)
    requires Relinking(heads, newHeads, was, moved, dir, links, |was|, 0)
    ensures Filed(moved, dir) && Complete(moved, dir) && AllLinked(newHeads, moved, links)
  {
    forall k | k in dir ensures dir[k] in moved[Bucket(k, |moved|)] {
      assert Passed(dir[k], was, |was|, 0);
    }
  }

  lemma BucketIsEmpty(heads: seq<Node?>, newHeads: seq<Node?>, was: seq<seq<Node>>, moved: seq<seq<Node>>,
                      dir: map<Key, Node>, links: Links, i: nat, j: nat)
    requires Relinking(heads, newHeads, was, moved, dir, links, i, j) && i < |was| && heads[i] == null
    ensures Relinking(heads, newHeads, was, moved, dir, links, i + 1, 0)
  {
    assert Linked(heads[i], was[i][j..], links);
    assert j == |was[i]|;
    NextBucket(moved, was, dir, i);
    assert i + 1 < |was| ==> was[i + 1][0..] == was[i + 1];
  }

  // ---------- visiting ----------

  /** All nodes of the buckets, in the order in which `kv_ht_foreach` visits them. */
  function Flat<T>(chains: seq<seq<T>>): seq<T> {
    if chains == [] then [] else Flat(chains[..|chains| - 1]) + chains[|chains| - 1]
  }

  lemma {:induction false} FlatHas<T>(chains: seq<seq<T>>, n: T)
    ensures n in Flat(chains) <==> exists b :: 0 <= b < |chains| && n in chains[b]
    decreases |chains|
  {
    if chains != [] {
      var init := chains[..|chains| - 1];
      FlatHas(init, n);
      if b :| 0 <= b < |chains| && n in chains[b] {
        assert b < |init| ==> n in init[b];
      }
      if b :| 0 <= b < |init| && n in init[b] {
        assert n in chains[b];
      }
    }
  }

  predicate Distinct<T(==)>(s: seq<T>) {
    forall i, j | 0 <= i < j < |s| :: s[i] != s[j]
  }

  lemma DistinctConcat<T>(a: seq<T>, b: seq<T>)
    requires Distinct(a) && Distinct(b) && forall x <- b :: x !in a
    ensures Distinct(a + b)
  {
    forall i, j | 0 <= i < j < |a + b| ensures (a + b)[i] != (a + b)[j] {
      if i < |a| <= j {
        assert b[j - |a|] in b;
      }
    }
  }

  lemma {:induction false} FlatDistinct(chains: seq<seq<Node>>, dir: map<Key, Node>, n: nat)
    requires Filed(chains, dir) && n <= |chains|
    ensures Distinct(Flat(chains[..n]))
    decreases n
  {
    if n > 0 {
      FlatDistinct(chains, dir, n - 1);
      assert chains[..n][..n - 1] == chains[..n - 1];
      var before, last := Flat(chains[..n - 1]), chains[n - 1];
      forall m | m in last ensures m !in before {
        FlatHas(chains[..n - 1], m);
      }
      DistinctConcat(before, last);
    }
  }

  /** Visiting reaches every filed node once and nothing else. */
  lemma FlatIsAll(chains: seq<seq<Node>>, dir: map<Key, Node>)
    requires Filed(chains, dir) && Complete(chains, dir)
    ensures Distinct(Flat(chains))
    ensures forall n <- Flat(chains) :: n.key in dir && dir[n.key] == n
    ensures forall k <- dir :: dir[k] in Flat(chains) && dir[k].key == k
  {
    FlatDistinct(chains, dir, |chains|);
    assert chains[..|chains|] == chains;
    forall n | n in Flat(chains) ensures n.key in dir && dir[n.key] == n {
      FlatHas(chains, n);
    }
    forall k | k in dir ensures dir[k] in Flat(chains) {
      FlatHas(chains, dir[k]);
    }
  }

  /** The `value` fields of some nodes, as a value. */
  ghost function ValuesOf(nodes: set<Node>): map<Node, Value>
    reads nodes
  {
    map n | n in nodes :: n.value
  }

  /** The pairs are what the nodes hold, in order. */
  ghost predicate Holds(pairs: seq<(Key, Value)>, all: seq<Node>, values: map<Node, Value>) {
    && |pairs| == |all|
    && forall i | 0 <= i < |pairs| :: all[i] in values && pairs[i] == (all[i].key, values[all[i]])
  }

  lemma NothingHeld(values: map<Node, Value>)
    ensures Holds([], [], values)
  {
  }

  lemma HoldsMore(pairs: seq<(Key, Value)>, all: seq<Node>, pairs': seq<(Key, Value)>, all': seq<Node>,
                  values: map<Node, Value>)
    requires Holds(pairs, all, values) && Holds(pairs', all', values)
    ensures Holds(pairs + pairs', all + all', values)
  {
  }

  // ---------- one node more, one node less ----------

  lemma AddFiled(chains: seq<seq<Node>>, dir: map<Key, Node>, node: Node, h: nat)
    requires Filed(chains, dir) && Complete(chains, dir)
    requires node.key !in dir && h == Bucket(node.key, |chains|)
    ensures node !in chains[h]
    ensures Filed(chains[h := chains[h] + [node]], dir[node.key := node])
    ensures Complete(chains[h := chains[h] + [node]], dir[node.key := node])
  {
  }

  lemma InsertIsReady(heads: seq<Node?>, chains: seq<seq<Node>>, dir: map<Key, Node>, links: Links, node: Node, h: nat)
    requires Filed(chains, dir) && AllLinked(heads, chains, links) && h < |heads|
    ensures |heads| == |chains| && Linked(heads[h], chains[h], links)
  {
  }

  /** A link of a node outside the chain makes no difference. */
  lemma LinkedWithMore(head: Node?, chain: seq<Node>, links: Links, node: Node)
    requires Linked(head, chain, links) && node !in chain
    ensures Linked(head, chain, links[node := null])
  {
  }

  lemma HungIgnores(links: Links, chain: seq<Node>, node: Node)
    requires node !in chain
    ensures Hung(links[node := null], chain, node) == Hung(links, chain, node)
  {
  }

  lemma AddLinked(heads: seq<Node?>, chains: seq<seq<Node>>, dir: map<Key, Node>, links: Links, node: Node, h: nat)
    requires Filed(chains, dir) && AllLinked(heads, chains, links) && h < |chains| && node !in links
    ensures AllLinked(if chains[h] == [] then heads[h := node] else heads,
                      chains[h := chains[h] + [node]], Hung(links, chains[h], node))
  {
    var links' := Hung(links, chains[h], node);
    forall b | 0 <= b < |chains| && b != h ensures Linked(heads[b], chains[b], links') {
      assert Linked(heads[b], chains[b], links);
      forall n | n in chains[b] ensures n !in chains[h] {
      }
      LinkedKept(heads[b], chains[b], links, links');
    }
    assert Linked(heads[h], chains[h], links);
    HungIsLinked(heads[h], chains[h], links, node);
  }

  /** All that the insertion of a node rests on. */
  lemma InsertWorks(heads: seq<Node?>, chains: seq<seq<Node>>, dir: map<Key, Node>, nodes: set<Node>,
                    links: Links, node: Node, h: nat)
    requires Keyed(dir, nodes) && Filed(chains, dir) && Complete(chains, dir) && AllLinked(heads, chains, links)
    requires links.Keys == nodes && node.key !in dir && 0 < |heads| && h == Bucket(node.key, |heads|)
    ensures |heads| == |chains| && node !in chains[h] && Linked(heads[h], chains[h], links[node := null])
    ensures Keyed(dir[node.key := node], nodes + {node})
    ensures Filed(chains[h := chains[h] + [node]], dir[node.key := node])
    ensures Complete(chains[h := chains[h] + [node]], dir[node.key := node])
    ensures AllLinked(if chains[h] == [] then heads[h := node] else heads,
                      chains[h := chains[h] + [node]], Hung(links[node := null], chains[h], node))
  {
    hide Filed, Complete, AllLinked, Linked, Hung;
    InsertIsReady(heads, chains, dir, links, node, h);
    AddFiled(chains, dir, node, h);
    AddLinked(heads, chains, dir, links, node, h);
    LinkedWithMore(heads[h], chains[h], links, node);
    HungIgnores(links, chains[h], node);
  }

  function DropAt<T>(c: seq<T>, x: nat): seq<T>
    requires x < |c|
  {
    c[..x] + c[x + 1..]
  }

  lemma DropFiled(chains: seq<seq<Node>>, dir: map<Key, Node>, h: nat, x: nat)
    requires Filed(chains, dir) && Complete(chains, dir) && h < |chains| && x < |chains[h]|
    ensures Filed(chains[h := DropAt(chains[h], x)], dir - {chains[h][x].key})
    ensures Complete(chains[h := DropAt(chains[h], x)], dir - {chains[h][x].key})
    ensures |dir - {chains[h][x].key}| == |dir| - 1
  {
    hide Bucket;
    var n, chain := chains[h][x], chains[h];
    var dir' := dir - {n.key};
    assert chain == chain[..x] + [n] + chain[x + 1..];
    assert dir.Keys == dir'.Keys + {n.key};
  }

  ghost function Unhung(links: Links, chain: seq<Node>, x: nat): Links
    requires x < |chain| && chain[x] in links
  {
    (if x == 0 then links else links[chain[x - 1] := links[chain[x]]]) - {chain[x]}
  }

  lemma UnhungIsLinked(head: Node?, chain: seq<Node>, links: Links, x: nat)
    requires Linked(head, chain, links) && x < |chain|
    requires forall y, z | 0 <= y < z < |chain| :: chain[y] != chain[z]
    ensures chain[x] in links
    ensures Linked(if x == 0 then links[chain[0]] else head, DropAt(chain, x), Unhung(links, chain, x))
  {
    var rest := DropAt(chain, x);
    var links' := Unhung(links, chain, x);
    forall y | 0 <= y < |rest| ensures rest[y] in links' && links'[rest[y]] == NodeAt(rest, y + 1) {
      var z := if y < x then y else y + 1;
      assert rest[y] == chain[z] && chain[z] in links;
    }
  }

  lemma DropLinked(heads: seq<Node?>, chains: seq<seq<Node>>, dir: map<Key, Node>, links: Links, h: nat, x: nat)
    requires Filed(chains, dir) && AllLinked(heads, chains, links) && h < |chains| && x < |chains[h]|
    ensures chains[h][x] in links
    ensures AllLinked(if x == 0 then heads[h := links[chains[h][0]]] else heads,
                      chains[h := DropAt(chains[h], x)], Unhung(links, chains[h], x))
  {
    assert Linked(heads[h], chains[h], links);
    UnhungIsLinked(heads[h], chains[h], links, x);
    var links' := Unhung(links, chains[h], x);
    forall b | 0 <= b < |chains| && b != h ensures Linked(heads[b], chains[b], links') {
      assert Linked(heads[b], chains[b], links);
      forall n | n in chains[b] ensures n !in chains[h] {
      }
      LinkedKept(heads[b], chains[b], links, links');
    }
  }

  /** All that the removal of a node rests on: the chains, the directory and the nodes without it. */
  lemma RemoveWorks(heads: seq<Node?>, chains: seq<seq<Node>>, dir: map<Key, Node>, nodes: set<Node>,
                    links: Links, h: nat, x: nat)
    returns (chains': seq<seq<Node>>, dir': map<Key, Node>, heads': seq<Node?>, links': Links)
    requires Keyed(dir, nodes) && Filed(chains, dir) && Complete(chains, dir) && AllLinked(heads, chains, links)
    requires h < |chains| && x < |chains[h]| && links.Keys == nodes
    ensures chains[h][x] in nodes && chains[h][x] in links && chains[h][x].key in dir
    ensures x > 0 ==> chains[h][x - 1] in nodes && chains[h][x - 1] != chains[h][x]
    ensures dir' == dir - {chains[h][x].key} && |dir'| == |dir| - 1
    ensures heads' == if x == 0 then heads[h := links[chains[h][x]]] else heads
    ensures links' == Unhung(links, chains[h], x)
    ensures Keyed(dir', nodes - {chains[h][x]}) && Filed(chains', dir') && Complete(chains', dir')
    ensures AllLinked(heads', chains', links')
  {
    hide Bucket, Complete, Unhung;
    assert Linked(heads[h], chains[h], links);
    DropFiled(chains, dir, h, x);
    DropLinked(heads, chains, dir, links, h, x);
    assert x > 0 ==> chains[h][x - 1] in chains[h];
    chains', dir' := chains[h := DropAt(chains[h], x)], dir - {chains[h][x].key};
    heads' := if x == 0 then heads[h := links[chains[h][x]]] else heads;
    links' := Unhung(links, chains[h], x);
  }

  lemma DelIsReady(heads: seq<Node?>, chains: seq<seq<Node>>, dir: map<Key, Node>, links: Links, h: nat)
    requires Filed(chains, dir) && Complete(chains, dir) && AllLinked(heads, chains, links) && h < |heads|
    ensures |heads| == |chains| && Linked(heads[h], chains[h], links)
    ensures forall n <- chains[h] :: n in links && n.key in dir && dir[n.key] == n
    ensures forall k <- dir :: Bucket(k, |heads|) == h ==> dir[k] in chains[h] && dir[k].key == k
  {
    assert Linked(heads[h], chains[h], links);
  }

  /** The node before the one with the key; `None` when the bucket's head has it or nobody does. */
  method FindBefore(head: Node, key: Key, ghost chain: seq<Node>, ghost links: Links)
    returns (elem: Node, found: bool, ghost x: nat)
    requires Linked(head, chain, links) && head.key != key && forall n <- chain :: n.next == links[n]
    ensures if found then 0 < x < |chain| && elem == chain[x - 1] && chain[x].key == key
            else forall n <- chain :: n.key != key
  {
    HeadIsFirst(head, chain, links);
    hide Compare, Linked;
    elem, found := head, false;
    x := 1;
    assert chain[0] in chain;
    while elem.next != null
      invariant 0 < x <= |chain| && elem == chain[x - 1] && elem.next == NodeAt(chain, x)
      invariant forall n <- chain[..x] :: n.key != key
      decreases |chain| - x
    {
      var c := StrCmp(elem.next.key, key);
      if c == 0 {
        found := true;
        return;
      }
      elem := elem.next;
      x := x + 1;
      assert elem in chain && chain[..x] == chain[..x - 1] + [elem];
    }
    assert chain[..x] == chain;
  }

  /** The node with the key and the one before it, if the bucket's head has not got it. */
  method LocateInChain(head: Node?, key: Key, ghost chain: seq<Node>, ghost links: Links)
    returns (elem: Node?, before: Node?, ghost x: nat)
    requires Linked(head, chain, links) && forall n <- chain :: n.next == links[n]
    ensures if elem == null then forall n <- chain :: n.key != key
            else x < |chain| && elem == chain[x] && elem.key == key
                 && if x == 0 then before == null else before == chain[x - 1]
  {
    HeadIsFirst(head, chain, links);
    hide Linked, Compare;
    elem, before, x := head, null, 0;
    if elem != null {
      var c := StrCmp(elem.key, key);
      if c != 0 {
        var found: bool;
        before, found, x := FindBefore(elem, key, chain, links);
        elem := if found then before.next else null;
      }
    }
  }

  /** Makes the chain skip node `x`: through the bucket's head, or through the node before it. */
  method SkipNode(buckets: array<Node?>, hash: nat, before: Node?, elem: Node,
                  ghost nodes: set<Node>, ghost chain: seq<Node>, ghost links: Links, ghost x: nat)
    requires hash < buckets.Length && LinksOf(nodes) == links
    requires x < |chain| && elem == chain[x] && elem in nodes
    requires if x == 0 then before == null
             else before == chain[x - 1] && before in nodes && before != elem
    modifies buckets, nodes`next
    ensures buckets[..] == if x == 0 then old(buckets[..])[hash := links[elem]] else old(buckets[..])
    ensures elem in links && LinksOf(nodes - {elem}) == Unhung(links, chain, x)
  {
    assert elem in links;
    if before == null {
      buckets[hash] := elem.next;
    } else {
      before.next := elem.next;
    }
  }

  lemma HeadIsFirst(head: Node?, chain: seq<Node>, links: Links)
    requires Linked(head, chain, links)
    ensures head == NodeAt(chain, 0)
    ensures forall x | 0 <= x < |chain| :: links[chain[x]] == NodeAt(chain, x + 1)
  {
  }

  class HashTable {
    var size: nat
    var count: nat
    var table: array<Node?>
    ghost var chains: seq<seq<Node>>
    ghost var dir: map<Key, Node>
    ghost var nodes: set<Node>

    ghost predicate Valid()
      reads this, table, nodes
    {
      && 0 < size == table.Length
      && count == |dir| && count <= size + 1
      && Keyed(dir, nodes) && Filed(chains, dir) && Complete(chains, dir)
      && AllLinked(table[..], chains, LinksOf(nodes))
    }

    /** The map that the nodes represent. */
    ghost function Contents(): map<Key, Value>
      requires Keyed(dir, nodes)
      reads this, nodes
    {
      map k | k in dir :: dir[k].value
    }

    /** The table is in order and represents `t`. */
    ghost predicate Means(t: map<Key, Value>)
      reads this, table, nodes
    {
      Valid() && Contents() == t
    }

    ghost function Repr(): set<object>
      reads this
    {
      {this, table} + nodes
    }

    constructor (size: nat)
      requires size > 0
      ensures Valid() && Contents() == map[] && this.size == size
      ensures fresh(Repr())
    {
      this.size, this.count := size, 0;
      table := new Node?[size](_ => null);
      chains := seq(size, _ => []);
      dir, nodes := map[], {};
    }

    method GetElem(key: Key) returns (elem: Node?)
      requires Valid()
      ensures if elem == null then key !in dir else key in dir && elem == dir[key]
    {
      var hash := ComputeDjb2(key);
      hash := hash % size;
      ghost var links := LinksOf(nodes);
      assert Linked(table[..][hash], chains[hash], links);
      elem := FindInBucket(table[hash], key, chains[hash], links);
      assert key in dir ==> dir[key] in chains[hash];
    }

    method Get(key: Key) returns (value: Option<Value>)
      requires Valid()
      ensures value == if key in Contents() then Some(Contents()[key]) else None
    {
      var elem := GetElem(key);
      value := if elem != null then Some(elem.value) else None;
    }

    /** The inner loop turn of `kv_ht_resize`. */
    method MoveHead(newTable: array<Node?>, ghost moved: seq<seq<Node>>, i: nat, ghost j: nat)
      returns (ghost moved': seq<seq<Node>>)
      requires newTable != table && 0 < newTable.Length == |moved| && table.Length == |chains|
      requires Relinking(table[..], newTable[..], chains, moved, dir, LinksOf(nodes), i, j)
      requires i < table.Length && table[i] != null
      modifies table, newTable, nodes`next
      ensures |moved'| == |moved|
      ensures Relinking(table[..], newTable[..], chains, moved', dir, LinksOf(nodes), i, j + 1)
    {
      hide Filed, Complete, Halfway, AllLinked, Left, Hung, Linked;
      ghost var links := LinksOf(nodes);
      var target := table[i];
      var hash := ComputeDjb2(target.key);
      hash := hash % newTable.Length;
      TurnIsReady(table[..], newTable[..], chains, moved, dir, links, i, j, hash);
      TurnRelinks(table[..], newTable[..], chains, moved, dir, links, i, j, target, hash);
      moved' := moved[hash := moved[hash] + [target]];
      var rest := HangLast(newTable, hash, target, nodes, moved[hash], links);
      table[i] := rest;
    }

    /** The inner loop of `kv_ht_resize`: empties old bucket `i`. */
    method MoveBucket(newTable: array<Node?>, ghost moved: seq<seq<Node>>, i: nat)
      returns (ghost moved': seq<seq<Node>>)
      requires newTable != table && 0 < newTable.Length == |moved| && table.Length == |chains|
      requires Relinking(table[..], newTable[..], chains, moved, dir, LinksOf(nodes), i, 0)
      requires i < table.Length
      modifies table, newTable, nodes`next
      ensures |moved'| == |moved|
      ensures Relinking(table[..], newTable[..], chains, moved', dir, LinksOf(nodes), i + 1, 0)
    {
      hide Relinking;
      moved' := moved;
      ghost var j := 0;
      while table[i] != null
        invariant |moved'| == newTable.Length
        invariant Relinking(table[..], newTable[..], chains, moved', dir, LinksOf(nodes), i, j)
        decreases |chains[i]| - j
      {
        TurnIsReady(table[..], newTable[..], chains, moved', dir, LinksOf(nodes), i, j, 0);
        moved' := MoveHead(newTable, moved', i, j);
        j := j + 1;
      }
      BucketIsEmpty(table[..], newTable[..], chains, moved', dir, LinksOf(nodes), i, j);
    }

    /** `kv_ht_resize`: every node is relinked, once, into a table of the new size. */
    method Resize(newSize: nat)
      requires Valid() && newSize > 0
      modifies this, table, nodes`next
      ensures fresh(table) && size == newSize && count == old(count) && dir == old(dir) && nodes == old(nodes)
      ensures |chains| == size == table.Length && Filed(chains, dir) && Complete(chains, dir)
      ensures AllLinked(table[..], chains, LinksOf(nodes))
    {
      hide Filed, Complete, AllLinked, Keyed, Relinking;
      var newTable := new Node?[newSize](_ => null);
      ghost var moved := seq(newSize, _ => []);
      assert |chains| == size by { ChainsPerBucket(table[..], chains, LinksOf(nodes)); }
      ResizeStarts(table[..], newTable[..], chains, moved, dir, LinksOf(nodes));
      for i := 0 to size
        invariant table == old(table) && size == old(size)
        invariant chains == old(chains) && dir == old(dir) && nodes == old(nodes)
        invariant count == old(count) && |moved| == newTable.Length
        invariant Relinking(table[..], newTable[..], chains, moved, dir, LinksOf(nodes), i, 0)
      {
        moved := MoveBucket(newTable, moved, i);
      }
      ResizeEnds(table[..], newTable[..], chains, moved, dir, LinksOf(nodes));
      table, size, chains := newTable, newSize, moved;
    }

    /** Everything in `Valid` but the load factor. */
    ghost predicate Sound()
      reads this, table, nodes
    {
      && 0 < size == table.Length && count == |dir|
      && Keyed(dir, nodes) && Filed(chains, dir) && Complete(chains, dir)
      && AllLinked(table[..], chains, LinksOf(nodes))
    }

    /** Hangs a node that no bucket has yet behind the nodes of bucket `hash`. */
    method HangNew(node: Node, hash: nat)
      requires Sound() && node.key !in dir && node !in nodes && node.next == null
      requires hash == Bucket(node.key, size)
      modifies table, nodes`next, node`next
      ensures hash < |chains|
      ensures Keyed(dir[node.key := node], nodes + {node})
      ensures Filed(chains[hash := chains[hash] + [node]], dir[node.key := node])
      ensures Complete(chains[hash := chains[hash] + [node]], dir[node.key := node])
      ensures AllLinked(table[..], chains[hash := chains[hash] + [node]], LinksOf(nodes + {node}))
    {
      hide Filed, Complete, AllLinked, Keyed, Linked, Hung, Bucket;
      ghost var links := LinksOf(nodes);
      assert LinksOf(nodes + {node}) == links[node := null];
      hide LinksOf;
      InsertWorks(table[..], chains, dir, nodes, links, node, hash);
      var rest := HangLast(table, hash, node, nodes + {node}, chains[hash], links[node := null]);
    }

    /** Counts a node that has been hung in bucket `hash`. */
    method CountNew(node: Node, ghost hash: nat)
      requires 0 < size == table.Length && count == |dir| && node.key !in dir && hash < |chains|
      requires Keyed(dir[node.key := node], nodes + {node})
      requires Filed(chains[hash := chains[hash] + [node]], dir[node.key := node])
      requires Complete(chains[hash := chains[hash] + [node]], dir[node.key := node])
      requires AllLinked(table[..], chains[hash := chains[hash] + [node]], LinksOf(nodes + {node}))
      modifies this`count, this`chains, this`dir, this`nodes
      ensures Sound() && count == old(count) + 1
      ensures dir == old(dir)[node.key := node] && nodes == old(nodes) + {node}
    {
      hide Filed, Complete, AllLinked, Keyed;
      chains := chains[hash := chains[hash] + [node]];
      dir, nodes := dir[node.key := node], nodes + {node};
      count := count + 1;
    }

    /** The part of `kv_ht_set` that adds a node for a new key. */
    method Insert(key: Key, value: Value)
      requires Sound() && key !in dir
      modifies this`count, this`chains, this`dir, this`nodes, table, nodes`next
      ensures Sound() && count == old(count) + 1
      ensures Contents() == old(Contents())[key := value] && fresh(nodes - old(nodes))
    {
      hide Filed, Complete, AllLinked, Linked, LinksOf, Keyed, Djb2;
      var node := new Node(key, value);
      var hash := ComputeDjb2(key);
      hash := hash % size;
      HangNew(node, hash);
      CountNew(node, hash);
    }

    /** The part of `kv_ht_set` that gives a known key a new value. */
    method Replace(elem: Node, value: Value) returns (before: Option<Value>)
      requires Valid() && elem in nodes
      modifies elem`value
      ensures Valid() && Contents() == old(Contents())[elem.key := value]
      ensures before == Some(old(elem.value))
    {
      hide Filed, Complete, AllLinked, Linked;
      before := Some(elem.value);
      elem.value := value;
      assert LinksOf(nodes) == old(LinksOf(nodes));
    }

    /** `kv_ht_set`: doubles the table first when it is over-full; answers the value it replaces. */
    method Set(key: Key, value: Value) returns (before: Option<Value>)
      requires Valid()
      modifies Repr()
      ensures Valid() && fresh(Repr() - old(Repr()))
      ensures Contents() == old(Contents())[key := value]
      ensures before == if key in old(Contents()) then Some(old(Contents()[key])) else None
      ensures size == if key !in old(Contents()) && old(count) > old(size) then old(size) * 2 else old(size)
    {
      hide Filed, Complete, AllLinked, Linked, LinksOf, Bucket;
      var elem := GetElem(key);
      if elem != null {
        before := Replace(elem, value);
        return;
      }
      before := None;
      if count > size {
        Resize(size * 2);
      }
      assert Sound() && Contents() == old(Contents());
      Insert(key, value);
    }

    /** Forgets a node that has been unlinked. */
    method CountGone(elem: Node, ghost chains': seq<seq<Node>>, ghost dir': map<Key, Node>)
      requires 0 < size == table.Length && count == |dir| == |dir'| + 1
      requires Keyed(dir', nodes - {elem}) && Filed(chains', dir') && Complete(chains', dir')
      requires AllLinked(table[..], chains', LinksOf(nodes - {elem}))
      modifies this`count, this`chains, this`dir, this`nodes
      ensures Sound() && count == old(count) - 1 && dir == dir' && nodes == old(nodes) - {elem}
    {
      hide Filed, Complete, AllLinked, Keyed;
      chains, dir, nodes := chains', dir', nodes - {elem};
      count := count - 1;
    }

    /** Takes node `x` of bucket `hash` out of its chain; `before` is the node it follows. */
    method Unlink(hash: nat, before: Node?, elem: Node, ghost x: nat)
      returns (ghost chains': seq<seq<Node>>, ghost dir': map<Key, Node>)
      requires Sound() && hash < |chains| && x < |chains[hash]| && elem == chains[hash][x]
      requires if x == 0 then before == null else before == chains[hash][x - 1]
      modifies table, nodes`next
      ensures dir' == dir - {elem.key} && |dir'| + 1 == |dir|
      ensures Keyed(dir', nodes - {elem}) && Filed(chains', dir') && Complete(chains', dir')
      ensures AllLinked(table[..], chains', LinksOf(nodes - {elem}))
    {
      hide Filed, Complete, AllLinked, Keyed, Linked, Unhung;
      ghost var links, chain := LinksOf(nodes), chains[hash];
      ghost var heads', links';
      ChainsPerBucket(table[..], chains, links);
      chains', dir', heads', links' := RemoveWorks(table[..], chains, dir, nodes, links, hash, x);
      SkipNode(table, hash, before, elem, nodes, chain, links, x);
    }

    /** Looks for the key in bucket `hash`, as `kv_ht_del` does: the head first, then behind `before`. */
    method Locate(hash: nat, key: Key) returns (elem: Node?, before: Node?, ghost x: nat)
      requires Sound() && hash == Bucket(key, size)
      ensures hash < |chains|
      ensures if elem == null then key !in dir
              else key in dir && elem == dir[key] && x < |chains[hash]| && elem == chains[hash][x]
                   && if x == 0 then before == null else before == chains[hash][x - 1]
    {
      ghost var links := LinksOf(nodes);
      DelIsReady(table[..], chains, dir, links, hash);
      hide Filed, Complete, AllLinked, Linked, Keyed, NodeAt;
      elem, before, x := LocateInChain(table[hash], key, chains[hash], links);
    }

    /** The part of `kv_ht_del` that takes out the node it has found. */
    method Remove(hash: nat, before: Node?, elem: Node, ghost x: nat)
      requires Valid() && hash < |chains| && x < |chains[hash]| && elem == chains[hash][x]
      requires if x == 0 then before == null else before == chains[hash][x - 1]
      modifies this`count, this`chains, this`dir, this`nodes, table, nodes`next
      ensures Valid() && nodes <= old(nodes) && Contents() == old(Contents()) - {elem.key}
    {
      hide Filed, Complete, AllLinked, Linked, LinksOf;
      ghost var chains', dir' := Unlink(hash, before, elem, x);
      CountGone(elem, chains', dir');
    }

    /** `kv_ht_del`: answers the key and the value of the node it removed. */
    method Del(key: Key) returns (gone: Option<(Key, Value)>)
      requires Valid()
      modifies this`count, this`chains, this`dir, this`nodes, table, nodes`next
      ensures Valid() && nodes <= old(nodes)
      ensures Contents() == old(Contents()) - {key}
      ensures gone == if key in old(Contents()) then Some((key, old(Contents()[key]))) else None
    {
      hide Filed, Complete, AllLinked, Linked, Djb2, LinksOf;
      var hash := ComputeDjb2(key);
      hash := hash % size;
      var elem, before, x := Locate(hash, key);
      if elem == null {
        return None;
      }
      gone := Some((elem.key, elem.value));
      Remove(hash, before, elem, x);
    }

    /** The pairs that visiting yields are exactly those of a map, each key once. */
    static ghost predicate Lists(pairs: seq<(Key, Value)>, contents: map<Key, Value>) {
      && (forall i, j | 0 <= i < j < |pairs| :: pairs[i].0 != pairs[j].0)
      && (forall i | 0 <= i < |pairs| :: pairs[i].0 in contents && contents[pairs[i].0] == pairs[i].1)
      && (forall k <- contents :: (k, contents[k]) in pairs)
    }

    /** The walk along one bucket. */
    method ForeachInBucket(pos: nat) returns (pairs: seq<(Key, Value)>)
      requires Sound() && pos < |chains|
      ensures Holds(pairs, chains[pos], ValuesOf(nodes))
    {
      ghost var links, chain := LinksOf(nodes), chains[pos];
      DelIsReady(table[..], chains, dir, links, pos);
      hide Filed, Complete, AllLinked, Keyed;
      pairs := [];
      var elem := table[pos];
      while elem != null
        invariant |pairs| <= |chain| && elem == NodeAt(chain, |pairs|)
        invariant forall i | 0 <= i < |pairs| :: pairs[i] == (chain[i].key, chain[i].value)
        decreases |chain| - |pairs|
      {
        assert chain[|pairs|] in chain;
        pairs := pairs + [(elem.key, elem.value)];
        elem := elem.next;
      }
    }

    /** `kv_ht_foreach`: the pairs handed to the callback, in order. */
    method Foreach() returns (pairs: seq<(Key, Value)>)
      requires Valid()
      ensures Lists(pairs, Contents())
    {
      hide Filed, Complete, AllLinked, Keyed, Distinct, Holds, Lists;
      FlatIsAll(chains, dir);
      ChainsPerBucket(table[..], chains, LinksOf(nodes));
      ghost var values := ValuesOf(nodes);
      pairs := [];
      NothingHeld(values);
      for pos := 0 to size
        invariant Holds(pairs, Flat(chains[..pos]), values)
      {
        var more := ForeachInBucket(pos);
        assert chains[..pos + 1][..pos] == chains[..pos];
        HoldsMore(pairs, Flat(chains[..pos]), more, chains[pos], values);
        pairs := pairs + more;
      }
      assert chains[..size] == chains;
      ListsAll(pairs, Flat(chains));
    }

    lemma ListsAll(pairs: seq<(Key, Value)>, all: seq<Node>)
      requires Sound() && Distinct(all) && Holds(pairs, all, ValuesOf(nodes))
      requires forall n <- all :: n.key in dir && dir[n.key] == n
      requires forall k <- dir :: dir[k] in all && dir[k].key == k
      ensures Lists(pairs, Contents())
    {
      hide Filed, Complete, AllLinked, Keyed;
      forall k | k in dir ensures (k, dir[k].value) in pairs {
        var i :| 0 <= i < |all| && all[i] == dir[k];
        assert pairs[i] == (k, dir[k].value);
      }
      forall i, j | 0 <= i < j < |pairs| ensures pairs[i].0 != pairs[j].0 {
        assert all[i] in all && all[j] in all;
      }
      forall i | 0 <= i < |pairs| ensures pairs[i].0 in Contents() && Contents()[pairs[i].0] == pairs[i].1 {
        assert all[i] in all;
      }
    }

    /** `count` is the number of keys, and the load factor stays bounded through every doubling. */
    lemma CountIsSize()
      requires Valid()
      ensures count == |Contents()| <= size + 1
    {
      assert Contents().Keys == dir.Keys;
    }
  }
}
