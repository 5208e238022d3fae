/** Cycle detection and layering: the depth-first walk, the Kahn peel and the wave layering of dag.py. */
module Dag {
  import opened Sorting
  import opened Digraph

  datatype Color = White | Gray | Black

  /** What the nested walk closes over. */
  datatype Dfs = Dfs(color: map<Node, Color>, stack: seq<Node>, found: seq<seq<Node>>, seen: set<set<Node>>)

  function Whites(st: Dfs): set<Node> {
    set n | n in st.color && st.color[n].White?
  }

  ghost predicate StackIsGray(g: Graph, st: Dfs) {
    && st.color.Keys == g.targets.Keys
    && NoDup(st.stack)
    && forall n :: n in st.stack <==> n in st.color && st.color[n].Gray?
  }

  function Enter(st: Dfs, node: Node): Dfs {
    st.(color := st.color[node := Gray], stack := st.stack + [node])
  }

  function Leave(st: Dfs, node: Node): Dfs
    requires st.stack != []
  {
    st.(color := st.color[node := Black], stack := st.stack[..|st.stack| - 1])
  }

  /** A gray neighbor closes the piece of the stack above it; a node set already seen is not reported again. */
  function Report(st: Dfs, neighbor: Node): (r: Dfs)
    requires neighbor in st.stack
    ensures st.found <= r.found
  {
    var cycle := st.stack[IndexOf(st.stack, neighbor)..];
    if Elems(cycle) in st.seen then st
    else st.(found := st.found + [cycle], seen := st.seen + {Elems(cycle)})
  }

  function Walk(g: Graph, st: Dfs, node: Node): (r: Dfs)
    requires StackIsGray(g, st) && node in st.color && st.color[node].White?
    ensures StackIsGray(g, r) && r.stack == st.stack && Whites(r) <= Whites(st) - {node}
    ensures st.found <= r.found
    decreases Whites(st), 0
  {
    var inside := Enter(st, node);
    assert node in Whites(st) && node !in Whites(inside);
    Leave(WalkTargets(g, inside, g.targets[node]), node)
  }

  function WalkTargets(g: Graph, st: Dfs, rest: seq<Node>): (r: Dfs)
    requires StackIsGray(g, st)
    ensures StackIsGray(g, r) && r.stack == st.stack && Whites(r) <= Whites(st)
    ensures st.found <= r.found
    decreases Whites(st), 1 + |rest|
  {
    if rest == [] then st
    else
      var neighbor := rest[0];
      var next :=
        if neighbor !in st.color then st
        else if st.color[neighbor].White? then Walk(g, st, neighbor)
        else if st.color[neighbor].Gray? then Report(st, neighbor)
        else st;
      WalkTargets(g, next, rest[1..])
  }

  function WalkAll(g: Graph, st: Dfs, rest: seq<Node>): (r: Dfs)
    requires StackIsGray(g, st) && forall n :: n in rest ==> n in g.targets
    ensures StackIsGray(g, r) && r.stack == st.stack && st.found <= r.found
    decreases |rest|
  {
    if rest == [] then st
    else WalkAll(g, if st.color[rest[0]].White? then Walk(g, st, rest[0]) else st, rest[1..])
  }

  function Fresh(g: Graph): Dfs {
    Dfs(map n | n in g.targets :: White, [], [], {})
  }

  function Cycles(g: Graph): seq<seq<Node>>
    requires Valid(g)
  {
    WalkAll(g, Fresh(g), g.keys).found
  }

  /** The walk as the source runs it: one object whose fields the recursive visit updates. */
  class CycleFinder {
    var color: map<Node, Color>
    var stack: seq<Node>
    var found: seq<seq<Node>>
    var seen: set<set<Node>>

    function State(): Dfs
      reads this
    {
      Dfs(color, stack, found, seen)
    }

    constructor (g: Graph)
      ensures State() == Fresh(g)
    {
      color := map n | n in g.targets :: White;
      stack, found, seen := [], [], {};
    }

    /** A gray neighbor: the stack from it on is a cycle, reported unless its node set was. */
    method Close(neighbor: Node)
      requires neighbor in stack
      modifies this`found, this`seen
      ensures State() == Report(old(State()), neighbor)
    {
      var cycle := stack[IndexOf(stack, neighbor)..];
      var key := Elems(cycle);
      if key !in seen {
        seen := seen + {key};
        found := found + [cycle];
      }
    }

    method Visit(g: Graph, node: Node)
      requires StackIsGray(g, State()) && node in color && color[node].White?
      modifies this
      ensures State() == Walk(g, old(State()), node)
      decreases Whites(State())
    {
      ghost var start := State();
      color := color[node := Gray];
      stack := stack + [node];
      ghost var done := WalkTargets(g, State(), g.targets[node]);
      assert State() == Enter(start, node);
      var targets := g.targets[node];
      for i := 0 to |targets|
        invariant StackIsGray(g, State()) && Whites(State()) <= Whites(start) - {node}
        invariant WalkTargets(g, State(), targets[i..]) == done
      {
        var neighbor := targets[i];
        assert targets[i..][1..] == targets[i + 1..];
        if neighbor !in color {
          continue;
        }
        if color[neighbor].White? {
          assert node in Whites(start);
          Visit(g, neighbor);
        } else if color[neighbor].Gray? {
          Close(neighbor);
        }
      }
      stack := stack[..|stack| - 1];
      color := color[node := Black];
    }
  }

  lemma WalkAllStep(g: Graph, st: Dfs, keys: seq<Node>, i: nat)
    requires StackIsGray(g, st) && i < |keys| && forall n :: n in keys[i..] ==> n in g.targets
    ensures keys[i] in st.color && (forall n :: n in keys[i + 1..] ==> n in g.targets)
    ensures WalkAll(g, st, keys[i..]) ==
      WalkAll(g, if st.color[keys[i]].White? then Walk(g, st, keys[i]) else st, keys[i + 1..])
  {
    assert keys[i..][0] == keys[i] && keys[i..][1..] == keys[i + 1..];
  }

  method FindCycles(g: Graph) returns (found: seq<seq<Node>>)
    requires Valid(g)
    ensures found == Cycles(g)
  {
    var finder := new CycleFinder(g);
    var keys := g.keys;
    ghost var whole := WalkAll(g, Fresh(g), keys);
    assert keys[0..] == keys;
    for i := 0 to |keys|
      invariant StackIsGray(g, finder.State())
      invariant forall n :: n in keys[i..] ==> n in g.targets
      invariant WalkAll(g, finder.State(), keys[i..]) == whole
    {
      WalkAllStep(g, finder.State(), keys, i);
      if finder.color[keys[i]].White? {
        finder.Visit(g, keys[i]);
      }
    }
    found := finder.found;
  }

  // ----- what the walk keeps -------------------------------------------------------

  /** The edge (u, v) closes a reported cycle: the cycle starts at v and ends at u. */
  ghost predicate Closing(found: seq<seq<Node>>, u: Node, v: Node) {
    exists c :: c in found && c != [] && c[|c| - 1] == u && c[0] == v
  }

  ghost predicate PieceAt(c: seq<Node>, stack: seq<Node>, i: nat, j: nat) {
    i <= j < |stack| && c == stack[i..j + 1]
  }

  ghost predicate PieceOf(c: seq<Node>, stack: seq<Node>) {
    exists i: nat, j: nat :: PieceAt(c, stack, i, j)
  }

  ghost predicate ReportsHold(g: Graph, st: Dfs) {
    && (forall c :: c in st.found ==> SimpleCycle(g, c))
    && (forall i, j :: 0 <= i < j < |st.found| ==> Elems(st.found[i]) != Elems(st.found[j]))
    && (forall c :: c in st.found ==> Elems(c) in st.seen)
    && (forall k :: k in st.seen ==> exists c :: c in st.found && Elems(c) == k)
  }

  ghost predicate Settled(st: Dfs, fin: seq<Node>, u: Node, v: Node) {
    v in fin || Closing(st.found, u, v)
  }

  ghost predicate OpenReport(st: Dfs, c: seq<Node>) {
    && c != [] && c[|c| - 1] in st.color && !st.color[c[|c| - 1]].White?
    && (st.color[c[|c| - 1]].Gray? ==> PieceOf(c, st.stack))
  }

  /** A reported cycle whose last node is still being visited is a piece of the stack. */
  ghost predicate OpenReports(st: Dfs) {
    forall c :: c in st.found ==> OpenReport(st, c)
  }

  ghost predicate IsFinished(st: Dfs, fin: seq<Node>) {
    forall n :: n in fin <==> n in st.color && st.color[n].Black?
  }

  /** An edge out of a finished node leads to one finished before it or closes a report. */
  ghost predicate FinishOrder(g: Graph, found: seq<seq<Node>>, fin: seq<Node>) {
    forall i, v :: 0 <= i < |fin| && Edge(g, fin[i], v) ==> v in fin[..i] || Closing(found, fin[i], v)
  }

  /** What holds between any two steps of the walk; fin lists the finished nodes in finishing order. */
  ghost predicate Keeps(g: Graph, st: Dfs, fin: seq<Node>) {
    && StackIsGray(g, st)
    && (st.stack != [] ==> IsWalk(g, st.stack))
    && ReportsHold(g, st) && OpenReports(st)
    && IsFinished(st, fin) && FinishOrder(g, st.found, fin)
  }

  lemma PieceEndingOnTop(stack: seq<Node>, c: seq<Node>, k: nat)
    requires NoDup(stack) && k < |stack|
    requires PieceOf(c, stack) && Elems(c) == Elems(stack[k..])
    ensures c == stack[k..]
  {
    var i: nat, j: nat :| PieceAt(c, stack, i, j);
    var top := stack[|stack| - 1];
    assert stack[k..][|stack| - 1 - k] == top && top in Elems(stack[k..]);
    assert top in c;
    assert stack[i] == c[0] && stack[i] in Elems(c) && stack[i] in Elems(stack[k..]);
    assert stack[k] == stack[k..][0] && stack[k] in Elems(stack[k..]) && stack[k] in c;
  }

  lemma MoreReportsKeepOrder(g: Graph, found: seq<seq<Node>>, more: seq<seq<Node>>, fin: seq<Node>)
    requires FinishOrder(g, found, fin) && found <= more
    ensures FinishOrder(g, more, fin)
  {
    forall i, v | 0 <= i < |fin| && Edge(g, fin[i], v) ensures v in fin[..i] || Closing(more, fin[i], v) {
      if Closing(found, fin[i], v) {
        var c :| c in found && c != [] && c[|c| - 1] == fin[i] && c[0] == v;
        assert c in more;
      }
    }
  }

  lemma NewReportHolds(g: Graph, st: Dfs, cycle: seq<Node>, r: Dfs)
    requires ReportsHold(g, st) && SimpleCycle(g, cycle) && Elems(cycle) !in st.seen
    requires r == st.(found := st.found + [cycle], seen := st.seen + {Elems(cycle)})
    ensures ReportsHold(g, r)
  {
    forall i, j | 0 <= i < j < |r.found| ensures Elems(r.found[i]) != Elems(r.found[j]) {
      assert r.found[i] in st.found;
    }
    forall k | k in r.seen ensures exists c :: c in r.found && Elems(c) == k {
      if k in st.seen {
        var c :| c in st.found && Elems(c) == k;
        assert c in r.found;
      } else {
        assert cycle in r.found;
      }
    }
  }

  lemma CycleOnStack(g: Graph, st: Dfs, neighbor: Node) returns (cycle: seq<Node>)
    requires StackIsGray(g, st) && neighbor in st.stack && IsWalk(g, st.stack)
    requires Edge(g, st.stack[|st.stack| - 1], neighbor)
    ensures cycle == st.stack[IndexOf(st.stack, neighbor)..] && SimpleCycle(g, cycle)
    ensures cycle[0] == neighbor && cycle[|cycle| - 1] == st.stack[|st.stack| - 1]
    ensures PieceOf(cycle, st.stack)
  {
    var k := IndexOf(st.stack, neighbor);
    cycle := st.stack[k..];
    WalkSlice(g, st.stack, k, |st.stack|);
    assert st.stack[k..|st.stack|] == cycle;
    assert PieceAt(cycle, st.stack, k, |st.stack| - 1);
  }

  /** A node set seen before was reported from the same top of the stack, so the closing edge is the same. */
  lemma SeenMeansClosed(g: Graph, st: Dfs, cycle: seq<Node>, k: nat)
    requires StackIsGray(g, st) && ReportsHold(g, st) && OpenReports(st)
    requires k < |st.stack| && cycle == st.stack[k..] && Elems(cycle) in st.seen
    ensures cycle in st.found
  {
    var c :| c in st.found && Elems(c) == Elems(cycle);
    assert OpenReport(st, c);
    assert c[|c| - 1] in Elems(c) && c[|c| - 1] in cycle && c[|c| - 1] in st.stack;
    PieceEndingOnTop(st.stack, c, k);
  }

  lemma ReportKeeps(g: Graph, st: Dfs, fin: seq<Node>, neighbor: Node)
    requires Keeps(g, st, fin) && neighbor in st.stack
    requires Edge(g, st.stack[|st.stack| - 1], neighbor)
    ensures Keeps(g, Report(st, neighbor), fin)
    ensures Closing(Report(st, neighbor).found, st.stack[|st.stack| - 1], neighbor)
  {
    var cycle := CycleOnStack(g, st, neighbor);
    var r := Report(st, neighbor);
    if Elems(cycle) in st.seen {
      SeenMeansClosed(g, st, cycle, IndexOf(st.stack, neighbor));
      assert r == st;
    } else {
      NewReportHolds(g, st, cycle, r);
      MoreReportsKeepOrder(g, st.found, r.found, fin);
      assert cycle in r.found;
      assert OpenReport(r, cycle);
      forall c | c in r.found ensures OpenReport(r, c) {
        assert c == cycle || OpenReport(st, c);
      }
    }
  }

  lemma EnterOpens(g: Graph, st: Dfs, node: Node)
    requires StackIsGray(g, st) && node in st.color && st.color[node].White? && OpenReports(st)
    ensures OpenReports(Enter(st, node))
  {
    var r := Enter(st, node);
    forall c | c in r.found ensures OpenReport(r, c) {
      assert OpenReport(st, c);
      if st.color[c[|c| - 1]].Gray? {
        var i: nat, j: nat :| PieceAt(c, st.stack, i, j);
        assert c == r.stack[i..j + 1];
        assert PieceAt(c, r.stack, i, j);
      }
    }
  }

  lemma EnterKeeps(g: Graph, st: Dfs, fin: seq<Node>, node: Node)
    requires Keeps(g, st, fin) && node in st.color && st.color[node].White?
    requires st.stack == [] || Edge(g, st.stack[|st.stack| - 1], node)
    ensures Keeps(g, Enter(st, node), fin)
  {
    assert IsWalk(g, [node]);
    if st.stack != [] {
      WalkJoin(g, st.stack, [node]);
    }
    EnterOpens(g, st, node);
  }

  lemma LeaveOpens(g: Graph, st: Dfs, node: Node)
    requires StackIsGray(g, st) && st.stack != [] && node == st.stack[|st.stack| - 1] && OpenReports(st)
    ensures OpenReports(Leave(st, node))
  {
    var r := Leave(st, node);
    forall c | c in r.found ensures OpenReport(r, c) {
      assert OpenReport(st, c);
      if r.color[c[|c| - 1]].Gray? {
        var i: nat, j: nat :| PieceAt(c, st.stack, i, j);
        assert c[|c| - 1] == st.stack[j] && j < |r.stack|;
        assert c == r.stack[i..j + 1];
        assert PieceAt(c, r.stack, i, j);
      }
    }
  }

  lemma FinishOneMore(g: Graph, found: seq<seq<Node>>, fin: seq<Node>, node: Node)
    requires FinishOrder(g, found, fin)
    requires forall v :: Edge(g, node, v) ==> v in fin || Closing(found, node, v)
    ensures FinishOrder(g, found, fin + [node])
  {
    var more := fin + [node];
    forall i, v | 0 <= i < |more| && Edge(g, more[i], v) ensures v in more[..i] || Closing(found, more[i], v) {
      if i < |fin| {
        assert more[..i] == fin[..i];
        assert more[i] == fin[i];
      } else {
        assert more[..i] == fin;
      }
    }
  }

  lemma LeaveKeeps(g: Graph, st: Dfs, fin: seq<Node>, node: Node)
    requires Keeps(g, st, fin) && st.stack != [] && node == st.stack[|st.stack| - 1]
    requires forall v :: Edge(g, node, v) ==> Settled(st, fin, node, v)
    ensures Keeps(g, Leave(st, node), fin + [node])
  {
    var r, s := Leave(st, node), |st.stack| - 1;
    assert st.stack == st.stack[..s] + [node];
    assert node in st.stack;
    if s > 0 {
      WalkSlice(g, st.stack, 0, s);
      assert st.stack[0..s] == r.stack;
    }
    LeaveOpens(g, st, node);
    forall v | Edge(g, node, v) ensures v in fin || Closing(st.found, node, v) {
      assert Settled(st, fin, node, v);
    }
    FinishOneMore(g, st.found, fin, node);
    assert IsFinished(r, fin + [node]);
    assert ReportsHold(g, r);
    assert StackIsGray(g, r);
  }

  lemma {:induction false} WalkKeeps(g: Graph, st: Dfs, fin: seq<Node>, node: Node) returns (more: seq<Node>)
    requires Keeps(g, st, fin) && node in st.color && st.color[node].White?
    requires st.stack == [] || Edge(g, st.stack[|st.stack| - 1], node)
    ensures Keeps(g, Walk(g, st, node), more)
    ensures fin <= more && node in more && st.found <= Walk(g, st, node).found
    decreases Whites(st), 0
  {
    var inside := Enter(st, node);
    assert node in Whites(st) && node !in Whites(inside);
    EnterKeeps(g, st, fin, node);
    more := WalkTargetsKeeps(g, inside, fin, g.targets[node]);
    LeaveKeeps(g, WalkTargets(g, inside, g.targets[node]), more, node);
    more := more + [node];
  }

  lemma SettledStays(st: Dfs, fin: seq<Node>, later: Dfs, more: seq<Node>, u: Node, v: Node)
    requires Settled(st, fin, u, v) && fin <= more && st.found <= later.found
    ensures Settled(later, more, u, v)
  {
    if Closing(st.found, u, v) {
      var c :| c in st.found && c != [] && c[|c| - 1] == u && c[0] == v;
      assert c in later.found;
    }
  }

  /** One neighbor: visited, reported or passed over, it is settled afterwards. */
  lemma {:induction false} NeighborKeeps(g: Graph, st: Dfs, fin: seq<Node>, neighbor: Node)
      returns (next: Dfs, more: seq<Node>)
    requires Keeps(g, st, fin) && st.stack != [] && neighbor in g.targets[st.stack[|st.stack| - 1]]
    ensures next == if neighbor !in st.color then st
                    else if st.color[neighbor].White? then Walk(g, st, neighbor)
                    else if st.color[neighbor].Gray? then Report(st, neighbor)
                    else st
    ensures Keeps(g, next, more) && fin <= more && st.found <= next.found && next.stack == st.stack
    ensures neighbor in g.targets ==> Settled(next, more, st.stack[|st.stack| - 1], neighbor)
    decreases Whites(st), 1
  {
    next, more := st, fin;
    if neighbor in st.color {
      assert st.stack[|st.stack| - 1] in st.stack;
      if st.color[neighbor].White? {
        next := Walk(g, st, neighbor);
        more := WalkKeeps(g, st, fin, neighbor);
      } else if st.color[neighbor].Gray? {
        next := Report(st, neighbor);
        ReportKeeps(g, st, fin, neighbor);
      }
    }
  }

  lemma {:induction false} WalkTargetsKeeps(g: Graph, st: Dfs, fin: seq<Node>, rest: seq<Node>)
        returns (more: seq<Node>)
    requires Keeps(g, st, fin) && st.stack != []
    requires forall v :: v in rest ==> v in g.targets[st.stack[|st.stack| - 1]]
    ensures Keeps(g, WalkTargets(g, st, rest), more)
    ensures fin <= more && st.found <= WalkTargets(g, st, rest).found
    ensures forall v :: v in rest && v in g.targets ==>
      Settled(WalkTargets(g, st, rest), more, st.stack[|st.stack| - 1], v)
    decreases Whites(st), 2 + |rest|
  {
    if rest == [] {
      more := fin;
    } else {
      var top, neighbor := st.stack[|st.stack| - 1], rest[0];
      assert neighbor in rest && top in st.stack;
      var next, then_ := NeighborKeeps(g, st, fin, neighbor);
      HeadOrTail(rest);
      more := WalkTargetsKeeps(g, next, then_, rest[1..]);
      TargetsStep(g, st, rest, next);
      TargetsSettled(g, next, then_, WalkTargets(g, next, rest[1..]), more, top, rest);
    }
  }

  lemma TargetsStep(g: Graph, st: Dfs, rest: seq<Node>, next: Dfs)
    requires StackIsGray(g, st) && StackIsGray(g, next) && rest != []
    requires next == if rest[0] !in st.color then st
                     else if st.color[rest[0]].White? then Walk(g, st, rest[0])
                     else if st.color[rest[0]].Gray? then Report(st, rest[0])
                     else st
    ensures WalkTargets(g, st, rest) == WalkTargets(g, next, rest[1..])
  {
  }

  lemma TargetsSettled(g: Graph, next: Dfs, then_: seq<Node>, last: Dfs, more: seq<Node>, u: Node, rest: seq<Node>)
    requires rest != [] && (rest[0] in g.targets ==> Settled(next, then_, u, rest[0]))
    requires then_ <= more && next.found <= last.found
    requires forall v :: v in rest[1..] && v in g.targets ==> Settled(last, more, u, v)
    ensures forall v :: v in rest && v in g.targets ==> Settled(last, more, u, v)
  {
    HeadOrTail(rest);
    if rest[0] in g.targets {
      SettledStays(next, then_, last, more, u, rest[0]);
    }
  }

  lemma HeadOrTail<T>(s: seq<T>)
    requires s != []
    ensures forall v :: v in s <==> v == s[0] || v in s[1..]
  {
    assert s == [s[0]] + s[1..];
  }

  lemma {:induction false} WalkAllKeeps(g: Graph, st: Dfs, fin: seq<Node>, rest: seq<Node>) returns (more: seq<Node>)
    requires Keeps(g, st, fin) && st.stack == [] && forall n :: n in rest ==> n in g.targets
    ensures Keeps(g, WalkAll(g, st, rest), more)
    decreases |rest|
  {
    if rest == [] {
      more := fin;
    } else if st.color[rest[0]].White? {
      var then_ := WalkKeeps(g, st, fin, rest[0]);
      more := WalkAllKeeps(g, Walk(g, st, rest[0]), then_, rest[1..]);
    } else {
      more := WalkAllKeeps(g, st, fin, rest[1..]);
    }
  }

  lemma {:induction false} WalkAllVisits(g: Graph, st: Dfs, rest: seq<Node>)
    requires StackIsGray(g, st) && forall n :: n in rest ==> n in g.targets
    ensures Whites(WalkAll(g, st, rest)) <= Whites(st)
    ensures forall n :: n in rest ==> n !in Whites(WalkAll(g, st, rest))
    decreases |rest|
  {
    if rest != [] {
      var next := if st.color[rest[0]].White? then Walk(g, st, rest[0]) else st;
      WalkAllVisits(g, next, rest[1..]);
      assert rest[0] !in Whites(next);
    }
  }

  lemma AllFinished(g: Graph) returns (fin: seq<Node>)
    requires Valid(g)
    ensures Keeps(g, WalkAll(g, Fresh(g), g.keys), fin)
    ensures forall n :: n in g.targets <==> n in fin
  {
    fin := WalkAllKeeps(g, Fresh(g), [], g.keys);
    var last := WalkAll(g, Fresh(g), g.keys);
    WalkAllVisits(g, Fresh(g), g.keys);
    forall n | n in g.targets ensures n in fin {
      assert n !in Whites(last) && n !in last.stack;
    }
  }

  // ----- main results about cycles ---------------------------------------------------

  /** Each reported tuple is a simple cycle and no two share a node set. */
  lemma ReportedCyclesAreGenuine(g: Graph)
    requires Valid(g)
    ensures forall c :: c in Cycles(g) ==> SimpleCycle(g, c)
    ensures forall i, j :: 0 <= i < j < |Cycles(g)| ==> Elems(Cycles(g)[i]) != Elems(Cycles(g)[j])
  {
    var fin := AllFinished(g);
  }

  /** Every closed walk, reported or not, uses the closing edge of a reported cycle. */
  lemma ReportsCutEveryClosedWalk(g: Graph, p: seq<Node>)
    requires Valid(g) && ClosedWalk(g, p)
    ensures exists i :: 0 <= i < |p| - 1 && Closing(Cycles(g), p[i], p[i + 1])
  {
    var fin := AllFinished(g);
    if forall i :: 0 <= i < |p| - 1 ==> !Closing(Cycles(g), p[i], p[i + 1]) {
      var rank: map<Node, int> := map n | n in g.targets :: IndexOf(fin, n);
      forall i | 0 <= i < |p| - 1 ensures rank[p[i + 1]] < rank[p[i]] {
        var at := IndexOf(fin, p[i]);
        assert Edge(g, fin[at], p[i + 1]);
        assert p[i + 1] in fin[..at];
        FirstBefore(fin, p[i + 1], at);
      }
      RankFalls(rank, p);
      assert false;
    }
  }

  lemma FirstBefore(s: seq<Node>, x: Node, at: nat)
    requires at <= |s| && x in s[..at]
    ensures IndexOf(s, x) < at
  {
  }

  lemma CyclesEmptyIffAcyclic(g: Graph)
    requires Valid(g)
    ensures Cycles(g) == [] <==> Acyclic(g)
  {
    ReportedCyclesAreGenuine(g);
    if Cycles(g) != [] {
      assert Cycles(g)[0] in Cycles(g);
      SimpleCycleCloses(g, Cycles(g)[0]);
    } else if p :| ClosedWalk(g, p) {
      ReportsCutEveryClosedWalk(g, p);
    }
  }

  /** a leads to b and d, both lead to c, and c leads back to a. */
  function Diamond(a: Node, b: Node, c: Node, d: Node): Graph {
    Graph([a, b, c, d], map[a := [b, d], b := [c], c := [a], d := [c]])
  }

  lemma OneTarget(g: Graph, st: Dfs, target: Node, next: Dfs)
    requires StackIsGray(g, st) && target in st.color
    requires next == if st.color[target].White? then Walk(g, st, target)
                     else if st.color[target].Gray? then Report(st, target) else st
    ensures WalkTargets(g, st, [target]) == next
  {
    assert [target][1..] == [];
    assert WalkTargets(g, next, []) == next;
  }

  ghost predicate Distinct(a: Node, b: Node, c: Node, d: Node) {
    a != b && a != c && a != d && b != c && b != d && c != d
  }

  /** The walk of a Diamond with the given colors, after c has been left. */
  function DiamondState(a: Node, b: Node, c: Node, d: Node, ca: Color, cb: Color, cd: Color, stack: seq<Node>): Dfs {
    Dfs(map[a := ca, b := cb, c := Black, d := cd], stack, [[a, b, c]], {{a, b, c}})
  }

  lemma WalkOf(g: Graph, st: Dfs, node: Node, inside: Dfs)
    requires StackIsGray(g, st) && node in st.color && st.color[node].White?
    requires StackIsGray(g, Enter(st, node)) && inside == WalkTargets(g, Enter(st, node), g.targets[node])
    ensures inside.stack != [] && Walk(g, st, node) == Leave(inside, node)
  {
  }

  lemma DiamondLeaves(a: Node, b: Node, c: Node, d: Node)
    requires Distinct(a, b, c, d)
    ensures Leave(DiamondState(a, b, c, d, Gray, Gray, White, [a, b]), b) ==
      DiamondState(a, b, c, d, Gray, Black, White, [a])
    ensures Leave(DiamondState(a, b, c, d, Gray, Black, Black, [a]), a) ==
      DiamondState(a, b, c, d, Black, Black, Black, [])
  {
  }

  lemma DiamondAtC(a: Node, b: Node, c: Node, d: Node)
    requires Distinct(a, b, c, d)
    ensures Enter(Enter(Enter(Fresh(Diamond(a, b, c, d)), a), b), c)
         == Dfs(map[a := Gray, b := Gray, c := Gray, d := White], [a, b, c], [], {})
  {
    var fresh_ := Fresh(Diamond(a, b, c, d));
    assert fresh_.color == map[a := White, b := White, c := White, d := White];
  }

  lemma DiamondReports(a: Node, b: Node, c: Node, d: Node)
    requires Distinct(a, b, c, d)
    ensures var atC := Enter(Enter(Enter(Fresh(Diamond(a, b, c, d)), a), b), c);
      a in atC.stack && Report(atC, a).stack != [] &&
      Leave(Report(atC, a), c) == DiamondState(a, b, c, d, Gray, Gray, White, [a, b])
  {
    DiamondAtC(a, b, c, d);
    var atC := Dfs(map[a := Gray, b := Gray, c := Gray, d := White], [a, b, c], [], {});
    ReportsWholeStack(atC, a);
    assert Elems([a, b, c]) == {a, b, c};
    assert [a, b, c][..2] == [a, b];
  }

  lemma ReportsWholeStack(st: Dfs, bottom: Node)
    requires st.stack != [] && st.stack[0] == bottom && st.seen == {} && st.found == []
    ensures Report(st, bottom) == st.(found := [st.stack], seen := {Elems(st.stack)})
  {
    assert st.stack[0..] == st.stack;
  }

  function DiamondB(a: Node, b: Node, c: Node, d: Node): Dfs {
    Dfs(map[a := Gray, b := Gray, c := White, d := White], [a, b], [], {})
  }

  lemma DiamondAtB(a: Node, b: Node, c: Node, d: Node)
    requires Distinct(a, b, c, d)
    ensures Enter(Enter(Fresh(Diamond(a, b, c, d)), a), b) == DiamondB(a, b, c, d)
    ensures StackIsGray(Diamond(a, b, c, d), DiamondB(a, b, c, d))
  {
    assert Fresh(Diamond(a, b, c, d)).color == map[a := White, b := White, c := White, d := White];
  }

  lemma DiamondFromC(a: Node, b: Node, c: Node, d: Node)
    requires Distinct(a, b, c, d)
    ensures var g, atB := Diamond(a, b, c, d), Enter(Enter(Fresh(Diamond(a, b, c, d)), a), b);
      StackIsGray(g, atB) && c in atB.color && atB.color[c].White? &&
      Walk(g, atB, c) == DiamondState(a, b, c, d, Gray, Gray, White, [a, b])
  {
    DiamondAtB(a, b, c, d);
    DiamondReports(a, b, c, d);
    DiamondWalkC(Diamond(a, b, c, d), DiamondB(a, b, c, d), a, c);
  }

  /** c has one target, a gray one: its visit is a report. */
  lemma DiamondWalkC(g: Graph, atB: Dfs, a: Node, c: Node)
    requires StackIsGray(g, atB) && c in atB.color && atB.color[c].White? && a in atB.color && atB.color[a].Gray?
    requires a != c && c in g.targets && g.targets[c] == [a]
    ensures StackIsGray(g, Enter(atB, c)) && a in Enter(atB, c).stack && Report(Enter(atB, c), a).stack != []
    ensures Walk(g, atB, c) == Leave(Report(Enter(atB, c), a), c)
  {
    var atC := Enter(atB, c);
    assert StackIsGray(g, atC);
    OneTarget(g, atC, a, Report(atC, a));
    WalkOf(g, atB, c, Report(atC, a));
  }

  lemma DiamondFromB(a: Node, b: Node, c: Node, d: Node)
    requires Distinct(a, b, c, d)
    ensures var g, atA := Diamond(a, b, c, d), Enter(Fresh(Diamond(a, b, c, d)), a);
      StackIsGray(g, atA) && b in atA.color && atA.color[b].White? &&
      Walk(g, atA, b) == DiamondState(a, b, c, d, Gray, Black, White, [a])
  {
    var g := Diamond(a, b, c, d);
    DiamondFromC(a, b, c, d);
    DiamondAtB(a, b, c, d);
    var leftC := DiamondState(a, b, c, d, Gray, Gray, White, [a, b]);
    assert g.targets[b] == [c];
    OneTarget(g, DiamondB(a, b, c, d), c, leftC);
    WalkOf(g, Enter(Fresh(g), a), b, leftC);
    DiamondLeaves(a, b, c, d);
  }

  lemma DiamondFromD(a: Node, b: Node, c: Node, d: Node)
    requires Distinct(a, b, c, d)
    ensures var leftB := DiamondState(a, b, c, d, Gray, Black, White, [a]);
      StackIsGray(Diamond(a, b, c, d), leftB) &&
      Walk(Diamond(a, b, c, d), leftB, d) == DiamondState(a, b, c, d, Gray, Black, Black, [a])
  {
    var g, leftB := Diamond(a, b, c, d), DiamondState(a, b, c, d, Gray, Black, White, [a]);
    OneTarget(g, Enter(leftB, d), c, Enter(leftB, d));
  }

  lemma DiamondCycle(a: Node, b: Node, c: Node, d: Node)
    requires Distinct(a, b, c, d)
    ensures Valid(Diamond(a, b, c, d)) && SimpleCycle(Diamond(a, b, c, d), [a, d, c])
  {
    var g, p := Diamond(a, b, c, d), [a, d, c];
    assert Edge(g, a, d) && Edge(g, d, c) && Edge(g, c, a);
    assert IsWalk(g, p);
  }

  lemma DiamondFromA(a: Node, b: Node, c: Node, d: Node)
    requires Distinct(a, b, c, d)
    ensures var g := Diamond(a, b, c, d);
      StackIsGray(g, Fresh(g)) && a in Fresh(g).color && Fresh(g).color[a].White? &&
      Walk(g, Fresh(g), a) == DiamondState(a, b, c, d, Black, Black, Black, [])
  {
    var g := Diamond(a, b, c, d);
    DiamondFromB(a, b, c, d);
    DiamondFromD(a, b, c, d);
    var leftB := DiamondState(a, b, c, d, Gray, Black, White, [a]);
    var leftD := DiamondState(a, b, c, d, Gray, Black, Black, [a]);
    OneTarget(g, leftB, d, leftD);
    assert [b, d][1..] == [d];
    assert WalkTargets(g, Enter(Fresh(g), a), [b, d]) == leftD;
    WalkOf(g, Fresh(g), a, leftD);
    DiamondLeaves(a, b, c, d);
  }

  /** Where cycles share a node one may stay unreported, and then a node on a cycle may appear in no report. */
  lemma SharedCyclesMayGoUnreported(a: Node, b: Node, c: Node, d: Node)
    requires Distinct(a, b, c, d)
    ensures Valid(Diamond(a, b, c, d)) && SimpleCycle(Diamond(a, b, c, d), [a, d, c])
    ensures Cycles(Diamond(a, b, c, d)) == [[a, b, c]]
  {
    var g := Diamond(a, b, c, d);
    DiamondCycle(a, b, c, d);
    DiamondFromA(a, b, c, d);
    var done := DiamondState(a, b, c, d, Black, Black, Black, []);
    assert Whites(done) == {};
    NothingWhiteNothingDone(g, done, g.keys[1..]);
    assert WalkAll(g, Fresh(g), g.keys) == WalkAll(g, done, g.keys[1..]);
  }

  lemma {:induction false} NothingWhiteNothingDone(g: Graph, st: Dfs, rest: seq<Node>)
    requires StackIsGray(g, st) && Whites(st) == {} && forall n :: n in rest ==> n in g.targets
    ensures WalkAll(g, st, rest) == st
    decreases |rest|
  {
    if rest != [] {
      assert rest[0] !in Whites(st);
      NothingWhiteNothingDone(g, st, rest[1..]);
    }
  }

  // ----- Kahn's peel -----------------------------------------------------------------

  /** What is left after k rounds: the unpeeled nodes, each with its unpeeled declared targets. */
  ghost predicate LeftAfter(g: Graph, remaining: map<Node, set<Node>>, k: nat) {
    && remaining.Keys == g.targets.Keys - Peeled(g, k)
    && forall n :: n in remaining ==> remaining[n] == Declared(g, n) - Peeled(g, k)
  }

  /** The nodes a round finds ready, in the order the mapping holds them. */
  function Ready(g: Graph, remaining: map<Node, set<Node>>): (ready: seq<Node>)
    ensures forall n :: n in ready <==> n in g.keys && n in remaining && remaining[n] == {}
  {
    Filter(n => n in remaining && remaining[n] == {}, g.keys)
  }

  lemma ReadyNode(g: Graph, remaining: map<Node, set<Node>>, k: nat, n: Node)
    requires LeftAfter(g, remaining, k) && n in remaining
    ensures remaining[n] == {} <==> n in Peeled(g, k + 1)
  {
    var before, wanted := Peeled(g, k), Declared(g, n);
    assert remaining[n] == wanted - before;
    if wanted - before == {} {
      forall v | v in wanted ensures v in before {
        assert v in before || v in wanted - before;
      }
    }
  }

  lemma ReadyIsNextRound(g: Graph, remaining: map<Node, set<Node>>, k: nat)
    requires Valid(g) && LeftAfter(g, remaining, k)
    ensures Elems(Ready(g, remaining)) == Peeled(g, k + 1) - Peeled(g, k)
    ensures Ready(g, remaining) == [] <==> Peeled(g, k + 1) == Peeled(g, k)
  {
    PeeledGrows(g, k);
    var ready, next, before := Ready(g, remaining), Peeled(g, k + 1), Peeled(g, k);
    forall n ensures n in ready <==> n in next - before {
      if n in remaining {
        ReadyNode(g, remaining, k, n);
      }
    }
    if ready != [] {
      assert ready[0] in ready;
    }
  }

  /** del remaining[node] for the ready nodes, then difference_update on what is left. */
  function Peel(remaining: map<Node, set<Node>>, ready: seq<Node>): map<Node, set<Node>> {
    var gone := Elems(ready);
    map n | n in remaining && n !in gone :: remaining[n] - gone
  }

  lemma PeelLeaves(g: Graph, remaining: map<Node, set<Node>>, k: nat, ready: seq<Node>)
    requires LeftAfter(g, remaining, k) && ready != []
    requires Elems(ready) == Peeled(g, k + 1) - Peeled(g, k)
    ensures LeftAfter(g, Peel(remaining, ready), k + 1)
    ensures Peel(remaining, ready).Keys < remaining.Keys
  {
    PeeledGrows(g, k);
    var next := Peel(remaining, ready);
    assert ready[0] in Elems(ready);
    assert ready[0] in remaining.Keys && ready[0] !in next.Keys;
    assert next.Keys <= remaining.Keys;
  }

  lemma NothingLeft(g: Graph, remaining: map<Node, set<Node>>, k: nat)
    requires LeftAfter(g, remaining, k) && remaining.Keys == {}
    ensures Peeled(g, k + 1) == Peeled(g, k) == g.targets.Keys
  {
    PeeledGrows(g, k);
    PeeledGrows(g, k + 1);
  }

  method IsAcyclic(g: Graph) returns (acyclic: bool)
    requires Valid(g)
    ensures acyclic <==> Acyclic(g)
  {
    var remaining := map n | n in g.targets :: Declared(g, n);
    ghost var k := 0;
    while remaining.Keys != {}
      invariant LeftAfter(g, remaining, k)
      decreases remaining.Keys
    {
      ReadyIsNextRound(g, remaining, k);
      var ready := Ready(g, remaining);
      if ready == [] {
        AllPeeledIffAcyclic(g, k);
        return false;
      }
      PeelLeaves(g, remaining, k, ready);
      remaining, k := Peel(remaining, ready), k + 1;
    }
    NothingLeft(g, remaining, k);
    AllPeeledIffAcyclic(g, k);
    return true;
  }

  ghost predicate IsLayer(g: Graph, layer: seq<Node>, k: nat) {
    layer != [] && StrictlySorted(layer) && Elems(layer) == Peeled(g, k + 1) - Peeled(g, k)
  }

  ghost predicate AreLayers(g: Graph, layers: seq<seq<Node>>) {
    forall k :: 0 <= k < |layers| ==> IsLayer(g, layers[k], k)
  }

  /** The layers that peeling yields before it gets stuck, each in string order. */
  ghost predicate IsWaves(g: Graph, layers: seq<seq<Node>>) {
    AreLayers(g, layers) && Peeled(g, |layers| + 1) == Peeled(g, |layers|)
  }

  lemma SortedReadyIsLayer(g: Graph, remaining: map<Node, set<Node>>, k: nat)
    requires Valid(g) && LeftAfter(g, remaining, k)
    ensures var ready := SortStrings(Ready(g, remaining));
      if ready == [] then Peeled(g, k + 1) == Peeled(g, k) else IsLayer(g, ready, k)
  {
    ReadyIsNextRound(g, remaining, k);
    FilterNoDup(n => n in remaining && remaining[n] == {}, g.keys);
    SortStringsCorrect(Ready(g, remaining));
    SameElements(SortStrings(Ready(g, remaining)), Ready(g, remaining));
  }

  lemma OneMoreLayer(g: Graph, layers: seq<seq<Node>>, ready: seq<Node>)
    requires AreLayers(g, layers) && IsLayer(g, ready, |layers|)
    ensures AreLayers(g, layers + [ready])
  {
  }

  method Waves(g: Graph) returns (layers: seq<seq<Node>>)
    requires Valid(g)
    ensures IsWaves(g, layers)
  {
    var remaining := map n | n in g.targets :: Declared(g, n);
    ghost var k := 0;
    layers := [];
    while remaining.Keys != {}
      invariant k == |layers| && LeftAfter(g, remaining, k)
      invariant AreLayers(g, layers)
      decreases remaining.Keys
    {
      SortedReadyIsLayer(g, remaining, k);
      var ready := SortStrings(Ready(g, remaining));
      if ready == [] {
        return;
      }
      PeelLeaves(g, remaining, k, ready);
      OneMoreLayer(g, layers, ready);
      layers := layers + [ready];
      remaining, k := Peel(remaining, ready), k + 1;
    }
    NothingLeft(g, remaining, k);
  }

  // ----- main results about waves ------------------------------------------------------

  lemma LayerOf(g: Graph, layers: seq<seq<Node>>, n: Node, k: nat)
    requires IsWaves(g, layers) && n in g.targets
    ensures (k < |layers| && n in layers[k]) <==> n in Peeled(g, k + 1) - Peeled(g, k)
  {
    if k < |layers| {
      assert n in layers[k] <==> n in Elems(layers[k]);
    } else {
      StuckForever(g, |layers|, k);
      StuckForever(g, |layers|, k + 1);
    }
  }

  /** Layer k holds the nodes whose longest dependency chain has exactly k edges. */
  lemma WaveIsLongestChain(g: Graph, layers: seq<seq<Node>>, n: Node, k: nat)
    requires IsWaves(g, layers) && n in g.targets
    ensures (k < |layers| && n in layers[k]) <==> LongestChain(g, n, k)
  {
    LayerOf(g, layers, n, k);
    PeeledMeansShortChains(g, n, k);
    PeeledMeansShortChains(g, n, k + 1);
  }

  ghost predicate Layered(layers: seq<seq<Node>>, n: Node) {
    exists k :: 0 <= k < |layers| && n in layers[k]
  }

  lemma {:induction false} PeeledIsLayered(g: Graph, layers: seq<seq<Node>>, n: Node, k: nat)
    requires IsWaves(g, layers) && n in Peeled(g, k)
    ensures Layered(layers, n)
    decreases k
  {
    PeeledGrows(g, k);
    if n in Peeled(g, k - 1) {
      PeeledIsLayered(g, layers, n, k - 1);
    } else {
      LayerOf(g, layers, n, k - 1);
    }
  }

  /** The nodes never layered are exactly those from which a cycle can be reached. */
  lemma UnlayeredReachesCycle(g: Graph, layers: seq<seq<Node>>, n: Node)
    requires IsWaves(g, layers) && n in g.targets
    ensures !Layered(layers, n) <==> ReachesCycle(g, n)
  {
    LeftoverReachesCycle(g, |layers|, n);
    if n in Peeled(g, |layers|) {
      PeeledIsLayered(g, layers, n, |layers|);
    } else if Layered(layers, n) {
      var k :| 0 <= k < |layers| && n in layers[k];
      LayerOf(g, layers, n, k);
      PeeledMonotone(g, k + 1, |layers|);
    }
  }

  /** Whatever is never layered sits on a cycle exactly when no node off the cycles depends on a node that is on one. */
  lemma UnlayeredIsOnCycleIff(g: Graph, layers: seq<seq<Node>>)
    requires IsWaves(g, layers)
    ensures (forall n :: n in g.targets && !Layered(layers, n) ==> OnCycle(g, n)) <==> SourcesAreOn(g)
  {
    forall n | n in g.targets ensures !Layered(layers, n) <==> ReachesCycle(g, n) {
      UnlayeredReachesCycle(g, layers, n);
    }
    ReachingIsOnIff(g);
  }

  /** A node that depends on one which depends on itself is never layered, and is on no cycle. */
  lemma StrandedOffCycles(a: Node, b: Node, layers: seq<seq<Node>>)
    requires a != b && IsWaves(Stranded(a, b), layers)
    ensures Valid(Stranded(a, b)) && !Layered(layers, b) && !OnCycle(Stranded(a, b), b)
  {
    var g := Stranded(a, b);
    assert ClosedWalk(g, [a, a]) && [a, a][0] == a;
    assert Edge(g, b, a);
    SourceReachesCycle(g, b, a);
    UnlayeredReachesCycle(g, layers, b);
    assert forall u :: !Edge(g, u, b);
    if OnCycle(g, b) { OnCycleHasSource(g, b); }
  }

  function Stranded(a: Node, b: Node): Graph {
    Graph([a, b], map[a := [a], b := [a]])
  }

  /** No layering that puts every dependency strictly earlier places a node before its wave. */
  lemma WavesAreEarliest(g: Graph, layers: seq<seq<Node>>, layer: map<Node, nat>, n: Node, k: nat)
    requires IsWaves(g, layers) && n in layer && layer.Keys <= g.targets.Keys
    requires forall u, v :: u in layer && Edge(g, u, v) ==> v in layer && layer[v] < layer[u]
    requires k < |layers| && n in layers[k]
    ensures k <= layer[n]
  {
    LayerOf(g, layers, n, k);
    PeelingIsLeast(g, layer, n);
    if layer[n] < k {
      PeeledMonotone(g, layer[n] + 1, k);
    }
  }

  lemma WavesCoverIffAcyclic(g: Graph, layers: seq<seq<Node>>)
    requires IsWaves(g, layers)
    ensures (forall n :: n in g.targets ==> Layered(layers, n)) <==> Acyclic(g)
  {
    AcyclicIffNoneReaches(g);
    forall n | n in g.targets ensures !Layered(layers, n) <==> ReachesCycle(g, n) {
      UnlayeredReachesCycle(g, layers, n);
    }
  }

  /** The layers hold only declared nodes, no node twice, and every dependency of a node in an earlier layer. */
  lemma WavesRespectDependencies(g: Graph, layers: seq<seq<Node>>, k: nat, n: Node)
    requires IsWaves(g, layers) && k < |layers| && n in layers[k]
    ensures n in g.targets
    ensures forall j :: 0 <= j < |layers| && n in layers[j] ==> j == k
    ensures forall m :: Edge(g, n, m) ==> exists j :: 0 <= j < k && m in layers[j]
  {
    assert n in Elems(layers[k]);
    PeeledGrows(g, k);
    LayerOf(g, layers, n, k);
    forall j | 0 <= j < |layers| && n in layers[j] ensures j == k {
      LayerOf(g, layers, n, j);
      if j < k {
        PeeledMonotone(g, j + 1, k);
      } else if k < j {
        PeeledMonotone(g, k + 1, j);
      }
    }
    forall m | Edge(g, n, m) ensures exists j :: 0 <= j < k && m in layers[j] {
      assert m in Declared(g, n) && m in Peeled(g, k);
      PeeledIsLayered(g, layers, m, k);
      var j :| 0 <= j < |layers| && m in layers[j];
      LayerOf(g, layers, m, j);
      if k <= j {
        PeeledMonotone(g, k, j);
      }
    }
  }
}
