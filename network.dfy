/**
 * src/network.rs: a network of named nodes, each with a left and a right neighbour, and a
 * list of left/right directions followed cyclically from `AAA` until `ZZZ` is reached.
 */
module Networks {
  import opened Results
  import opened Strings

  datatype Direction = Left | Right

  /** `NetworkParseError`; only `InvalidInputError` is ever produced. */
  datatype NetworkParseError = InvalidInputError | ParseIntError(cause: Strings.ParseIntError) | TryFromIntError

  datatype Node = Node(index: string, left: string, right: string)

  /** The network as `try_from` builds it: the directions, the nodes in input order and the
      index from a node's name to its position. */
  datatype Network = Network(directions: seq<Direction>, nodes: seq<Node>, nodeIndex: map<string, nat>)

  // ---------------------------------------------------------------- directions

  /** `Direction::try_from(char)`. */
  function DirectionFromChar(c: char): (r: Result<Direction, NetworkParseError>)
    ensures r == Ok(Left) <==> c == 'L'
    ensures r == Ok(Right) <==> c == 'R'
    ensures r.Err? <==> c != 'L' && c != 'R'
    ensures r.Err? ==> r.error == InvalidInputError
  {
    match c
    case 'L' => Ok(Left)
    case 'R' => Ok(Right)
    case _ => Err(InvalidInputError)
  }

  function DirectionChar(d: Direction): char {
    match d
    case Left => 'L'
    case Right => 'R'
  }

  /** The first line's characters as directions, or the first that is neither 'L' nor 'R'. */
  function ParseDirections(line: string): Result<seq<Direction>, NetworkParseError> {
    Collect(line, DirectionFromChar)
  }

  /** Every character is a direction exactly when the line parses, each to its own. */
  lemma ParseDirectionsSpec(line: string)
    ensures ParseDirections(line).Ok? <==> forall i :: 0 <= i < |line| ==> line[i] == 'L' || line[i] == 'R'
    ensures ParseDirections(line).Ok? ==>
              |ParseDirections(line).value| == |line|
              && forall i :: 0 <= i < |line| ==> DirectionFromChar(line[i]) == Ok(ParseDirections(line).value[i])
  {
  }

  /** Directions written as letters read back unchanged. */
  lemma ParseFormattedDirections(ds: seq<Direction>)
    ensures ParseDirections(seq(|ds|, i requires 0 <= i < |ds| => DirectionChar(ds[i]))) == Ok(ds)
  {
    var s := seq(|ds|, i requires 0 <= i < |ds| => DirectionChar(ds[i]));
    assert forall i :: 0 <= i < |s| ==> DirectionFromChar(s[i]) == Ok(ds[i]);
    var r := Collect(s, DirectionFromChar);
    assert r.Ok?;
    assert r.value == ds;
  }

  // ---------------------------------------------------------------- nodes

  /** What `Node::from_str` needs not to panic: a " = " and at least two characters after
      it, the two that are stripped. */
  predicate NodeLine(s: string) {
    SplitOnce(s, " = ").Some? && |SplitOnce(s, " = ").value.1| >= 2
  }

  /** `Node::from_str`: the name before " = "; the rest loses its first and last character
      and is split at ", " into the two neighbours. */
  function ParseNode(s: string): (r: Result<Node, NetworkParseError>)
    requires NodeLine(s)
    ensures r.Err? ==> r.error == InvalidInputError
  {
    var (id, node) := SplitOnce(s, " = ").value;
    var inner := node[1..|node| - 1];
    match SplitOnce(inner, ", ")
    case None => Err(InvalidInputError)
    case Some((left, right)) => Ok(Node(id, left, right))
  }

  /** A parsed node is its line with the two stripped characters put back. */
  lemma ParsedNodeShape(s: string)
    requires NodeLine(s) && ParseNode(s).Ok?
    ensures var n := ParseNode(s).value;
            s == n.index + " = " + ([s[|n.index| + 3]] + (n.left + ", " + n.right) + [s[|s| - 1]])
  {
    var sp := SplitOnce(s, " = ").value;
    var node := sp.1;
    var inner := node[1..|node| - 1];
    var sp2 := SplitOnce(inner, ", ").value;
    assert ParseNode(s).value == Node(sp.0, sp2.0, sp2.1);
    Reassemble(s, sp.0, node, sp2.0, sp2.1);
  }

  lemma Reassemble(s: string, id: string, node: string, l: string, r: string)
    requires s == id + " = " + node && |node| >= 2 && node[1..|node| - 1] == l + ", " + r
    ensures s == id + " = " + ([s[|id| + 3]] + (l + ", " + r) + [s[|s| - 1]])
  {
    assert node == [node[0]] + node[1..|node| - 1] + [node[|node| - 1]];
    assert s[|id| + 3] == node[0] && s[|s| - 1] == node[|node| - 1];
  }

  /** The line `index = (left, right)`. */
  function FormatNode(n: Node): string {
    n.index + " = (" + n.left + ", " + n.right + ")"
  }

  /** A node whose name has no '=' and whose left neighbour has no ',' reads back from its
      written form. */
  lemma ParseFormattedNode(n: Node)
    requires Avoids(n.index, '=') && Avoids(n.left, ',')
    ensures NodeLine(FormatNode(n)) && ParseNode(FormatNode(n)) == Ok(n)
  {
    var inner := n.left + ", " + n.right;
    assert FormatNode(n) == n.index + " = " + ['('] + inner + [')'];
    BracketsIgnored(n.index, '(', inner, ')');
    SplitOnceJoined(n.left, ", ", n.right);
  }

  /** The characters around the neighbours are dropped without being looked at. */
  lemma BracketsIgnored(index: string, open: char, inner: string, close: char)
    requires Avoids(index, '=')
    ensures NodeLine(index + " = " + [open] + inner + [close])
    ensures ParseNode(index + " = " + [open] + inner + [close])
            == match SplitOnce(inner, ", ")
               case None => Err(InvalidInputError)
               case Some((l, r)) => Ok(Node(index, l, r))
  {
    var rest := [open] + inner + [close];
    assert index + " = " + [open] + inner + [close] == index + " = " + rest;
    SplitOnceJoinedAt(index, " = ", rest, 1);
    assert rest[1..|rest| - 1] == inner;
  }

  // ---------------------------------------------------------------- try_from

  /** The name index after inserting every node in order: a later duplicate name
      overwrites the position of an earlier one. */
  function IndexOf(nodes: seq<Node>): map<string, nat> {
    if nodes == [] then map[]
    else IndexOf(nodes[..|nodes| - 1])[nodes[|nodes| - 1].index := |nodes| - 1]
  }

  /** A name is indexed exactly when some node has it, and its position is that of the last
      node with that name. */
  lemma {:induction false} IndexOfSpec(nodes: seq<Node>, name: string)
    ensures name in IndexOf(nodes) <==> exists k :: 0 <= k < |nodes| && nodes[k].index == name
    ensures name in IndexOf(nodes) ==>
              var k := IndexOf(nodes)[name];
              k < |nodes| && nodes[k].index == name
              && forall j :: k < j < |nodes| ==> nodes[j].index != name
  {
    if nodes != [] {
      var front := nodes[..|nodes| - 1];
      IndexOfSpec(front, name);
      assert forall k :: 0 <= k < |front| ==> front[k] == nodes[k];
      if name != nodes[|nodes| - 1].index && name in IndexOf(nodes) {
        var k :| 0 <= k < |front| && front[k].index == name;
      }
    }
  }

  /** Inserting one more node records its position under its name. */
  lemma IndexOfAppend(nodes: seq<Node>, node: Node)
    ensures IndexOf(nodes + [node]) == IndexOf(nodes)[node.index := |nodes|]
  {
    assert (nodes + [node])[..|nodes|] == nodes;
  }

  /** The lines `try_from` accepts without panicking: a first line of directions, a second
      line that is skipped, and node lines. */
  predicate NetworkLines(lines: seq<string>) {
    && |lines| >= 2
    && ParseDirections(lines[0]).Ok?
    && forall i :: 2 <= i < |lines| ==> ValidNodeLine(lines[i])
  }

  predicate ValidNodeLine(s: string) {
    NodeLine(s) && ParseNode(s).Ok?
  }

  /** `node.parse().expect(..)` on a line that parses. */
  function NodeOfLine(s: string): (n: Node)
    requires ValidNodeLine(s)
    ensures ParseNode(s) == Ok(n)
  {
    ParseNode(s).value
  }

  /** `Network::try_from`: it never returns an error; every failure is a panic. */
  method NetworkFromLines(lines: seq<string>) returns (net: Network)
    requires NetworkLines(lines)
    ensures ParseDirections(lines[0]) == Ok(net.directions)
    ensures |net.nodes| == |lines| - 2
    ensures forall i :: 0 <= i < |net.nodes| ==> net.nodes[i] == NodeOfLine(lines[i + 2])
    ensures net.nodeIndex == IndexOf(net.nodes)
  {
    var directions := ParseDirections(lines[0]).value;
    var nodes, nodeIndexMap := ReadNodes(lines[2..]);
    net := Network(directions, nodes, nodeIndexMap);
  }

  /** The first `n` node lines, parsed. */
  function ParsedNodes(nodeLines: seq<string>, n: nat): (nodes: seq<Node>)
    requires n <= |nodeLines| && forall i :: 0 <= i < |nodeLines| ==> ValidNodeLine(nodeLines[i])
    ensures |nodes| == n
  {
    if n == 0 then [] else ParsedNodes(nodeLines, n - 1) + [NodeOfLine(nodeLines[n - 1])]
  }

  /** Node `k` of the parsed prefix is the parse of line `k`. */
  lemma {:induction false} ParsedNodesAt(nodeLines: seq<string>, n: nat, k: nat)
    requires n <= |nodeLines| && forall i :: 0 <= i < |nodeLines| ==> ValidNodeLine(nodeLines[i])
    requires k < n
    ensures ParsedNodes(nodeLines, n)[k] == NodeOfLine(nodeLines[k])
    decreases n
  {
    if k < n - 1 {
      ParsedNodesAt(nodeLines, n - 1, k);
    }
  }

  /** The loop of `try_from` over the node lines: parse each one, record its position under
      its name, and append it. */
  method ReadNodes(nodeLines: seq<string>) returns (nodes: seq<Node>, nodeIndexMap: map<string, nat>)
    requires forall i :: 0 <= i < |nodeLines| ==> ValidNodeLine(nodeLines[i])
    ensures |nodes| == |nodeLines|
    ensures forall i :: 0 <= i < |nodes| ==> nodes[i] == NodeOfLine(nodeLines[i])
    ensures nodeIndexMap == IndexOf(nodes)
  {
    nodeIndexMap := map[];
    nodes := [];
    for i := 0 to |nodeLines|
      invariant nodes == ParsedNodes(nodeLines, i)
      invariant nodeIndexMap == IndexOf(nodes)
    {
      var node := NodeOfLine(nodeLines[i]);
      IndexOfAppend(nodes, node);
      nodeIndexMap := nodeIndexMap[node.index := |nodes|];
      nodes := nodes + [node];
    }
    forall k | 0 <= k < |nodes| ensures nodes[k] == NodeOfLine(nodeLines[k]) {
      ParsedNodesAt(nodeLines, |nodeLines|, k);
    }
  }

  // ---------------------------------------------------------------- walk

  const Start: string := "AAA"
  const Goal: string := "ZZZ"

  /** `node_index.get(name).and_then(|i| nodes.get(*i))`. */
  function NodeOf(net: Network, name: string): Option<Node> {
    if name in net.nodeIndex && net.nodeIndex[name] < |net.nodes| then Some(net.nodes[net.nodeIndex[name]])
    else None
  }

  /** `k mod n`, by repeated subtraction: the position in the directions used by step `k`. */
  function CycleIndex(k: nat, n: nat): (i: nat)
    requires n > 0
    ensures i < n
  {
    if k < n then k else CycleIndex(k - n, n)
  }

  /** One step further along the cycle: the next position, or back to 0 after the last. */
  lemma {:induction false} CycleIndexNext(k: nat, n: nat)
    requires n > 0
    ensures CycleIndex(k + 1, n) == if CycleIndex(k, n) + 1 < n then CycleIndex(k, n) + 1 else 0
    decreases k
  {
    if k + 1 > n {
      CycleIndexNext(k - n, n);
    }
  }

  /** The move made from `name` at step `k`, which uses direction `k mod len`; `None` when the
      node is not indexed or there are no directions. */
  function Move(net: Network, name: string, k: nat): Option<string> {
    if net.directions == [] then None
    else
      match NodeOf(net, name)
      case None => None
      case Some(node) =>
        Some(match net.directions[CycleIndex(k, |net.directions|)] case Left => node.left case Right => node.right)
  }

  /** The node reached after `k` moves from `AAA`, or `None` once a move is impossible. */
  function Trail(net: Network, k: nat): Option<string> {
    if k == 0 then Some(Start)
    else
      match Trail(net, k - 1)
      case None => None
      case Some(name) => Move(net, name, k - 1)
  }

  /** Moves 0 to `k` exist and none of them is at `ZZZ`. */
  ghost predicate NotYetArrived(net: Network, k: nat) {
    forall j :: 0 <= j <= k ==> Trail(net, j).Some? && Trail(net, j).value != Goal
  }

  /** `walk` bounded by `fuel` loop iterations. */
  datatype WalkOutcome = Walked(steps: nat) | Failed(error: NetworkParseError) | OutOfFuel

  /** `Network::walk`: from `AAA`, take the next direction, restarting the iterator when it is
      exhausted, look the current node up and move to its left or right neighbour until `ZZZ`
      is the current node. */
  method Walk(net: Network, fuel: nat) returns (r: WalkOutcome)
    ensures r.Walked? ==> 1 <= r.steps <= fuel && Trail(net, r.steps) == Some(Goal) && NotYetArrived(net, r.steps - 1)
    ensures r.Failed? ==> r.error == InvalidInputError
                          && exists k: nat :: k < fuel && NotYetArrived(net, k) && Trail(net, k + 1).None?
    ensures r.OutOfFuel? ==> NotYetArrived(net, fuel)
  {
    var steps := 0;
    var currentStep := Start;
    var consumed := 0;  // how many directions the current `direction_iter` has yielded
    var n := |net.directions|;
    while currentStep != Goal
      invariant Trail(net, steps) == Some(currentStep)
      invariant steps <= fuel
      invariant steps == 0 ==> consumed == 0
      invariant steps > 0 ==> NotYetArrived(net, steps - 1)
      invariant steps > 0 ==> n > 0 && consumed == CycleIndex(steps - 1, n) + 1
      decreases fuel - steps
    {
      if steps == fuel {
        return OutOfFuel;
      }
      ghost var before := consumed;
      var direction: Option<Direction> := None;
      if consumed < n {
        direction := Some(net.directions[consumed]);
        consumed := consumed + 1;
      } else {
        consumed := 0;
        if consumed < n {
          direction := Some(net.directions[consumed]);
          consumed := consumed + 1;
        }
      }
      var node := NodeOf(net, currentStep);
      if node.None? || direction.None? {
        assert Trail(net, steps + 1).None?;
        assert NotYetArrived(net, steps);
        return Failed(InvalidInputError);
      }
      if steps > 0 {
        CycleIndexNext(steps - 1, n);
      }
      assert direction.value == net.directions[CycleIndex(steps, n)];
      currentStep := match direction.value case Left => node.value.left case Right => node.value.right;
      steps := steps + 1;
    }
    return Walked(steps);
  }

  /** Once a move is impossible, the trail stays stuck. */
  lemma {:induction false} StuckStaysStuck(net: Network, k: nat, j: nat)
    requires Trail(net, k).None? && k <= j
    ensures Trail(net, j).None?
    decreases j - k
  {
    if k < j {
      StuckStaysStuck(net, k + 1, j);
    }
  }

  /** Without directions not even the first move can be made. */
  lemma NoDirectionsStuck(net: Network, j: nat)
    requires net.directions == [] && j >= 1
    ensures Trail(net, j).None?
  {
    StuckStaysStuck(net, 1, j);
  }

  /** Reaching a node that is not indexed makes every later move impossible. */
  lemma MissingNodeStuck(net: Network, k: nat, j: nat)
    requires Trail(net, k).Some? && NodeOf(net, Trail(net, k).value).None? && k < j
    ensures Trail(net, j).None?
  {
    StuckStaysStuck(net, k + 1, j);
  }

  /** The number of moves to the first arrival at `ZZZ` is determined by the network alone,
      so every fuel that lets `Walk` finish gives the same count. */
  lemma FirstArrivalUnique(net: Network, n: nat, m: nat)
    requires n >= 1 && Trail(net, n) == Some(Goal) && NotYetArrived(net, n - 1)
    requires m >= 1 && Trail(net, m) == Some(Goal) && NotYetArrived(net, m - 1)
    ensures n == m
  {
    assert n < m ==> Trail(net, n) != Some(Goal);
    assert m < n ==> Trail(net, m) != Some(Goal);
  }

  /** In a network whose index was built from its nodes, a name finds the last node with that
      name, and there is one exactly when some node has it. */
  lemma NodeOfBuilt(net: Network, name: string)
    requires net.nodeIndex == IndexOf(net.nodes)
    ensures NodeOf(net, name).Some? <==> exists k :: 0 <= k < |net.nodes| && net.nodes[k].index == name
    ensures NodeOf(net, name).Some? ==>
              NodeOf(net, name).value.index == name
              && exists k :: 0 <= k < |net.nodes| && NodeOf(net, name).value == net.nodes[k]
                             && forall j :: k < j < |net.nodes| ==> net.nodes[j].index != name
  {
    IndexOfSpec(net.nodes, name);
  }

  /** The second example network of the puzzle: following `LLR` from `AAA` reaches `ZZZ`
      after six moves. */
  lemma ExampleWalk(net: Network)
    requires net == Network([Left, Left, Right],
                            [Node("AAA", "BBB", "BBB"), Node("BBB", "AAA", "ZZZ"), Node("ZZZ", "ZZZ", "ZZZ")],
                            map["AAA" := 0, "BBB" := 1, "ZZZ" := 2])
    ensures Trail(net, 6) == Some(Goal) && NotYetArrived(net, 5)
  {
    assert NodeOf(net, "AAA") == Some(Node("AAA", "BBB", "BBB"));
    assert NodeOf(net, "BBB") == Some(Node("BBB", "AAA", "ZZZ"));
    assert Trail(net, 1) == Some("BBB");
    assert Trail(net, 2) == Some("AAA");
    assert Trail(net, 3) == Some("BBB");
    assert Trail(net, 4) == Some("AAA");
    assert Trail(net, 5) == Some("BBB");
    assert Trail(net, 6) == Some("ZZZ");
    assert "AAA" != Goal && "BBB" != Goal;
  }

  /** A node line of the puzzle input. */
  lemma ExampleNode(s: string)
    requires s == "AAA = (BBB, CCC)"
    ensures NodeLine(s) && ParseNode(s) == Ok(Node("AAA", "BBB", "CCC"))
  {
    var n := Node("AAA", "BBB", "CCC");
    assert FormatNode(n) == s;
    ParseFormattedNode(n);
  }
}
