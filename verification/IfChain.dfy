/** Multi-line `if` expressions (pkg/parse/listener_impl.go): the listener builds them on
    its expression stack, growing and filling in a chain of if/else nodes in place, and
    the evaluator then picks a branch by descending that chain. */
module IfChain {
  import opened Values
  import opened Evaluator
  import opened Lexical

  /** `control, control, ... => stmt` */
  datatype Block = Block(controls: seq<Expr>, stmt: Expr)

  datatype Subject = NoSubject | IfVar(lhs: Expr)

  /** One test of the chain: `lhs == control`, or bool(control) when there is no subject. */
  function Test(subject: Subject, control: Expr): Expr {
    match subject
    case IfVar(lhs) => Binary(Eq, "", lhs, control)
    case NoSubject => Call("bool", [control])
  }

  /** The expression the source text means: test the controls block by block. */
  function Nested(subject: Subject, blocks: seq<Block>, els: Expr): Expr {
    if blocks == [] then els
    else NestedControls(subject, blocks[0].controls, blocks[0].stmt, Nested(subject, blocks[1..], els))
  }

  function NestedControls(subject: Subject, controls: seq<Expr>, stmt: Expr, els: Expr): Expr {
    if controls == [] then els
    else IfElse(Test(subject, controls[0]), stmt, NestedControls(subject, controls[1..], stmt, els))
  }

  // ---- the nodes the listener mutates ------------------------------------------

  datatype Else = NoElse | Next(node: IfNode) | Final(e: Expr)

  class IfNode {
    var cond: Expr
    var ifTrue: Expr
    var ifFalse: Else

    constructor (cond: Expr)
      ensures this.cond == cond && ifTrue == NilExpr && ifFalse == NoElse
    {
      this.cond, ifTrue, ifFalse := cond, NilExpr, NoElse;
    }
  }

  datatype Entry = Entry(cond: Expr, stmt: Expr)

  ghost predicate Chain(nodes: seq<IfNode>)
    reads nodes
  {
    && (forall i, j :: 0 <= i < j < |nodes| ==> nodes[i] != nodes[j])
    && (forall i :: 0 <= i < |nodes| - 1 ==> nodes[i].ifFalse == Next(nodes[i + 1]))
    && (nodes != [] ==> nodes[|nodes| - 1].ifFalse == NoElse)
  }

  ghost function Entries(nodes: seq<IfNode>): seq<Entry>
    reads nodes
  {
    seq(|nodes|, i requires 0 <= i < |nodes| reads nodes => Entry(nodes[i].cond, nodes[i].ifTrue))
  }

  function Filled(es: seq<Entry>, stmt: Expr): seq<Entry> {
    seq(|es|, i requires 0 <= i < |es| => if es[i].stmt == NilExpr then Entry(es[i].cond, stmt) else es[i])
  }

  /** addStmt: every node of the chain still without a true branch gets this one. */
  method AddStmt(node: IfNode, stmt: Expr, ghost nodes: seq<IfNode>)
    requires nodes != [] && nodes[0] == node && Chain(nodes)
    modifies nodes
    ensures forall i | 0 <= i < |nodes| :: nodes[i].cond == old(nodes[i].cond) && nodes[i].ifFalse == old(nodes[i].ifFalse)
    ensures forall i | 0 <= i < |nodes| :: nodes[i].ifTrue == if old(nodes[i].ifTrue) == NilExpr then stmt else old(nodes[i].ifTrue)
    decreases |nodes|
  {
    assert |nodes| > 1 ==> nodes[0].ifFalse == Next(nodes[1]);
    if node.ifTrue == NilExpr { node.ifTrue := stmt; }
    if node.ifFalse.Next? {
      ghost var rest := nodes[1..];
      assert forall i | 0 <= i < |rest| :: rest[i] == nodes[i + 1];
      AddStmt(node.ifFalse.node, stmt, rest);
      assert forall i | 0 < i < |nodes| :: nodes[i] == rest[i - 1];
    } else {
      assert nodes == [node];
    }
  }

  /** addIfElseControl: a new node for the test, after the last one. */
  method AddIfElseControl(node: IfNode, cond: Expr, ghost nodes: seq<IfNode>) returns (added: IfNode)
    requires nodes != [] && nodes[0] == node && Chain(nodes)
    modifies nodes
    ensures fresh(added) && Chain(nodes + [added])
    ensures Entries(nodes + [added]) == old(Entries(nodes)) + [Entry(cond, NilExpr)]
    decreases |nodes|
  {
    assert |nodes| > 1 ==> nodes[0].ifFalse == Next(nodes[1]);
    if node.ifFalse == NoElse {
      assert nodes == [node];
      added := new IfNode(cond);
      node.ifFalse := Next(added);
    } else {
      ghost var rest := nodes[1..];
      assert forall i | 0 <= i < |rest| :: rest[i] == nodes[i + 1];
      added := AddIfElseControl(node.ifFalse.node, cond, rest);
      ghost var all := nodes + [added];
      assert forall i | 0 < i < |all| :: all[i] == (rest + [added])[i - 1] && Entries(rest + [added])[i - 1] == Entries(all)[i];
    }
  }

  /** The condition of a node just pushed: no right operand, or no argument, yet. */
  function OpenCond(subject: Subject): Expr {
    match subject
    case IfVar(lhs) => Binary(Eq, "", lhs, NilExpr)
    case NoSubject => Call("bool", [])
  }

  predicate Completed(cond: Expr, subject: Subject) {
    match subject
    case IfVar(lhs) => cond.Binary? && cond.rhs != NilExpr && cond == Test(subject, cond.rhs)
    case NoSubject => cond.Call? && |cond.args| == 1 && cond == Test(subject, cond.args[0])
  }

  /** The chain under construction holds the tests in `es`. */
  ghost predicate Building(root: IfNode, subject: Subject, nodes: seq<IfNode>, es: seq<Entry>)
    reads nodes
  {
    && nodes != [] && nodes[0] == root && Chain(nodes)
    && (if es == [] then |nodes| == 1 && root.cond == OpenCond(subject) && root.ifTrue == NilExpr
        else Completed(root.cond, subject) && Entries(nodes) == es)
  }

  /** ExitControl_item. The very first test completes the condition the `if` was entered with. */
  method ExitControlItem(root: IfNode, subject: Subject, control: Expr, ghost nodes: seq<IfNode>, ghost es: seq<Entry>)
    returns (ghost added: seq<IfNode>)
    requires Building(root, subject, nodes, es) && control != NilExpr
    modifies nodes
    ensures fresh(added) && Building(root, subject, nodes + added, es + [Entry(Test(subject, control), NilExpr)])
  {
    added := [];
    assert nodes + [] == nodes;
    assert es != [] ==> Entries(nodes)[0].cond == root.cond;
    match root.cond {
      case Binary(_, _, lhs, rhs) =>
        if rhs == NilExpr {
          root.cond := Binary(Eq, "", lhs, control);
          assert Entries(nodes) == [Entry(Test(subject, control), NilExpr)];
        } else {
          var n := AddIfElseControl(root, Binary(Eq, "", lhs, control), nodes);
          added := [n];
          assert Entries(nodes + added)[0].cond == root.cond;
        }
      case Call(_, args) =>
        if args == [] {
          root.cond := Call("bool", [control]);
          assert Entries(nodes) == [Entry(Test(subject, control), NilExpr)];
        } else {
          var n := AddIfElseControl(root, Call("bool", [control]), nodes);
          added := [n];
          assert Entries(nodes + added)[0].cond == root.cond;
        }
      case _ =>
    }
  }

  /** The tests seen so far with the statement of their block, in source order. */
  function BlockEntries(subject: Subject, blocks: seq<Block>): seq<Entry> {
    if blocks == [] then []
    else
      var last := blocks[|blocks| - 1];
      BlockEntries(subject, blocks[..|blocks| - 1]) + ControlEntries(subject, last.controls, last.stmt)
  }

  function ControlEntries(subject: Subject, controls: seq<Expr>, stmt: Expr): seq<Entry> {
    seq(|controls|, i requires 0 <= i < |controls| => Entry(Test(subject, controls[i]), stmt))
  }

  function FromEntries(es: seq<Entry>, els: Expr): Expr {
    if es == [] then els else IfElse(es[0].cond, es[0].stmt, FromEntries(es[1..], els))
  }

  lemma {:induction false} FromEntriesConcat(a: seq<Entry>, b: seq<Entry>, els: Expr)
    ensures FromEntries(a + b, els) == FromEntries(a, FromEntries(b, els))
  {
    if a == [] {
      assert a + b == b;
    } else {
      assert (a + b)[1..] == a[1..] + b;
      FromEntriesConcat(a[1..], b, els);
    }
  }

  lemma {:induction false} ControlsNest(subject: Subject, controls: seq<Expr>, stmt: Expr, els: Expr)
    ensures FromEntries(ControlEntries(subject, controls, stmt), els) == NestedControls(subject, controls, stmt, els)
  {
    if controls != [] {
      assert ControlEntries(subject, controls, stmt)[1..] == ControlEntries(subject, controls[1..], stmt);
      ControlsNest(subject, controls[1..], stmt, els);
    }
  }

  lemma {:induction false} NestedSnoc(subject: Subject, blocks: seq<Block>, b: Block, els: Expr)
    ensures Nested(subject, blocks + [b], els) == Nested(subject, blocks, NestedControls(subject, b.controls, b.stmt, els))
  {
    if blocks == [] {
      assert (blocks + [b])[1..] == [];
    } else {
      assert (blocks + [b])[1..] == blocks[1..] + [b];
      NestedSnoc(subject, blocks[1..], b, els);
    }
  }

  lemma {:induction false} BlocksNest(subject: Subject, blocks: seq<Block>, els: Expr)
    ensures FromEntries(BlockEntries(subject, blocks), els) == Nested(subject, blocks, els)
    decreases |blocks|
  {
    if blocks != [] {
      var init, last := blocks[..|blocks| - 1], blocks[|blocks| - 1];
      var es := ControlEntries(subject, last.controls, last.stmt);
      FromEntriesConcat(BlockEntries(subject, init), es, els);
      ControlsNest(subject, last.controls, last.stmt, els);
      BlocksNest(subject, init, NestedControls(subject, last.controls, last.stmt, els));
      NestedSnoc(subject, init, last, els);
      assert init + [last] == blocks;
    }
  }

  /** The expression a finished chain stands for. */
  ghost function ToExpr(nodes: seq<IfNode>): Expr
    reads nodes
  {
    if nodes == [] then NilExpr
    else
      var n := nodes[0];
      IfElse(n.cond, n.ifTrue,
        match n.ifFalse case NoElse => NilExpr case Final(e) => e case Next(_) => ToExpr(nodes[1..]))
  }

  ghost predicate Closed(nodes: seq<IfNode>, els: Expr)
    reads nodes
  {
    && nodes != []
    && (forall i, j :: 0 <= i < j < |nodes| ==> nodes[i] != nodes[j])
    && (forall i :: 0 <= i < |nodes| - 1 ==> nodes[i].ifFalse == Next(nodes[i + 1]))
    && (var last := nodes[|nodes| - 1].ifFalse; last == Final(els) || (els == NilExpr && last == NoElse))
  }

  lemma {:induction false} ClosedIsFromEntries(nodes: seq<IfNode>, els: Expr)
    requires Closed(nodes, els)
    ensures ToExpr(nodes) == FromEntries(Entries(nodes), els)
    decreases |nodes|
  {
    var es := Entries(nodes);
    assert es[0] == Entry(nodes[0].cond, nodes[0].ifTrue);
    if |nodes| == 1 {
      assert es[1..] == [];
    } else {
      var rest := nodes[1..];
      assert forall i | 0 <= i < |rest| :: rest[i] == nodes[i + 1];
      assert rest[|rest| - 1] == nodes[|nodes| - 1];
      ClosedIsFromEntries(rest, els);
      assert es[1..] == Entries(rest);
      assert nodes[0].ifFalse == Next(nodes[1]);
    }
  }

  /** ExitFinal_else: walk to the end of the chain and close it. */
  method ExitFinalElse(root: IfNode, elseStmt: Expr, ghost nodes: seq<IfNode>)
    requires nodes != [] && nodes[0] == root && Chain(nodes)
    modifies nodes
    ensures Closed(nodes, elseStmt) && Entries(nodes) == old(Entries(nodes))
  {
    var ifelse := root;
    ghost var k := 0;
    while ifelse.ifFalse.Next?
      invariant 0 <= k < |nodes| && nodes[k] == ifelse
      invariant k < |nodes| - 1 ==> nodes[k].ifFalse == Next(nodes[k + 1])
      decreases |nodes| - k
    {
      assert nodes[k].ifFalse == Next(nodes[k + 1]);
      ifelse := ifelse.ifFalse.node;
      k := k + 1;
    }
    ifelse.ifFalse := Final(elseStmt);
  }

  /** The calls for the controls of one block. */
  method WalkControls(root: IfNode, subject: Subject, controls: seq<Expr>, ghost nodes: seq<IfNode>, ghost done: seq<Entry>)
    returns (ghost added: seq<IfNode>)
    requires NilExpr !in controls && Building(root, subject, nodes, done)
    modifies nodes
    ensures fresh(added) && Building(root, subject, nodes + added, done + ControlEntries(subject, controls, NilExpr))
  {
    added := [];
    assert nodes + [] == nodes;
    ghost var es := done;
    for j := 0 to |controls|
      invariant fresh(added) && Building(root, subject, nodes + added, es)
      invariant es == done + ControlEntries(subject, controls[..j], NilExpr)
    {
      assert controls[j] in controls;
      ghost var more := ExitControlItem(root, subject, controls[j], nodes + added, es);
      assert (nodes + added) + more == nodes + (added + more);
      added := added + more;
      es := es + [Entry(Test(subject, controls[j]), NilExpr)];
      ControlEntriesSnoc(subject, controls, j, done);
    }
    assert controls[..|controls|] == controls;
  }

  lemma ControlEntriesSnoc(subject: Subject, controls: seq<Expr>, j: nat, done: seq<Entry>)
    requires j < |controls|
    ensures done + ControlEntries(subject, controls[..j + 1], NilExpr)
      == done + ControlEntries(subject, controls[..j], NilExpr) + [Entry(Test(subject, controls[j]), NilExpr)]
  {
  }

  predicate AllFilled(es: seq<Entry>) {
    forall e | e in es :: e.stmt != NilExpr
  }

  lemma FillsOneBlock(subject: Subject, done: seq<Entry>, controls: seq<Expr>, stmt: Expr)
    requires AllFilled(done) && stmt != NilExpr
    ensures Filled(done + ControlEntries(subject, controls, NilExpr), stmt) == done + ControlEntries(subject, controls, stmt)
    ensures AllFilled(done + ControlEntries(subject, controls, stmt))
  {
  }

  /** The calls for the controls and the statement of one block. */
  method WalkBlock(root: IfNode, subject: Subject, block: Block, ghost nodes: seq<IfNode>, ghost done: seq<Entry>)
    returns (ghost added: seq<IfNode>)
    requires block.controls != [] && block.stmt != NilExpr && NilExpr !in block.controls
    requires Building(root, subject, nodes, done) && AllFilled(done)
    modifies nodes
    ensures fresh(added) && Building(root, subject, nodes + added, done + ControlEntries(subject, block.controls, block.stmt))
  {
    added := WalkControls(root, subject, block.controls, nodes, done);
    ghost var before := Entries(nodes + added);
    AddStmt(root, block.stmt, nodes + added); // ExitElse_block_stmt
    assert Entries(nodes + added) == Filled(before, block.stmt);
    FillsOneBlock(subject, done, block.controls, block.stmt);
  }

  /** The listener's calls for one multi-line `if`, in the order the parse tree is walked.
      The expressions popped off the stack are the arguments; `els` is nil without an else. */
  method WalkIf(subject: Subject, blocks: seq<Block>, els: Expr) returns (root: IfNode, ghost nodes: seq<IfNode>)
    requires blocks != [] && forall b | b in blocks :: b.controls != [] && b.stmt != NilExpr && NilExpr !in b.controls
    ensures nodes != [] && nodes[0] == root && fresh(nodes)
    ensures ToExpr(nodes) == Nested(subject, blocks, els)
    ensures forall app, fuel, st {:trigger Chosen(app, fuel, st, subject, blocks, els)} ::
      Eval(app, fuel, st, ToExpr(nodes)) == Chosen(app, fuel, st, subject, blocks, els)
  {
    root := new IfNode(OpenCond(subject)); // EnterIf_multiple_lines, and ExitIfvar when there is a subject
    nodes := [root];
    ghost var es := [];
    for i := 0 to |blocks|
      invariant fresh(nodes) && Building(root, subject, nodes, es)
      invariant es == BlockEntries(subject, blocks[..i]) && AllFilled(es) && (i > 0 ==> es != [])
    {
      assert blocks[i] in blocks && blocks[..i + 1][..i] == blocks[..i];
      ghost var added := WalkBlock(root, subject, blocks[i], nodes, es);
      nodes := nodes + added;
      FillsOneBlock(subject, es, blocks[i].controls, blocks[i].stmt);
      es := es + ControlEntries(subject, blocks[i].controls, blocks[i].stmt);
    }
    assert blocks[..|blocks|] == blocks;
    if els != NilExpr {
      ExitFinalElse(root, els, nodes);
    }
    ClosedIsFromEntries(nodes, els);
    BlocksNest(subject, blocks, els);
    forall app, fuel, st ensures Eval(app, fuel, st, ToExpr(nodes)) == Chosen(app, fuel, st, subject, blocks, els) {
      NestedEvaluates(app, fuel, st, subject, blocks, els);
    }
  }

  // ---- what the chain evaluates to ---------------------------------------------

  /** The tests made one after the other, each in the state the one before it left, up to the
      first that is true; `block` tells whose control that is. A test may fail instead. */
  datatype Search = Hit(block: nat, st: State) | Missed(st: State) | Stopped(r: Run)

  function SearchControls(app: App, fuel: nat, st: State, subject: Subject, controls: seq<Expr>, block: nat): Search
    decreases |controls|
  {
    if controls == [] then Missed(st)
    else
      var r := Eval(app, fuel, st, Test(subject, controls[0]));
      if !r.out.Ok? then Stopped(r)
      else if GetB(r.out.v) then Hit(block, r.st)
      else SearchControls(app, fuel, r.st, subject, controls[1..], block)
  }

  function SearchBlocks(app: App, fuel: nat, st: State, subject: Subject, blocks: seq<Block>, first: nat): Search
    decreases |blocks|
  {
    if blocks == [] then Missed(st)
    else
      var r := SearchControls(app, fuel, st, subject, blocks[0].controls, first);
      if r.Missed? then SearchBlocks(app, fuel, r.st, subject, blocks[1..], first + 1) else r
  }

  /** The expression of the block found is evaluated, in the state the tests left, or the else
      expression when none is found. */
  function Chosen(app: App, fuel: nat, st: State, subject: Subject, blocks: seq<Block>, els: Expr): Run {
    var r := SearchBlocks(app, fuel, st, subject, blocks, 0);
    if r.Hit? && r.block < |blocks| then Eval(app, fuel, r.st, blocks[r.block].stmt)
    else if r.Missed? then Eval(app, fuel, r.st, els)
    else if r.Stopped? then r.r
    else Run(Panic, st) // FoundIsABlock: there is such a block
  }

  lemma BranchEvaluates(app: App, fuel: nat, st: State, c: Expr, t: Expr, f: Expr)
    ensures var r := Eval(app, fuel, st, c);
      Eval(app, fuel, st, IfElse(c, t, f)) == if !r.out.Ok? then r else Eval(app, fuel, r.st, if GetB(r.out.v) then t else f)
  {
    assert Ev(app, fuel, st, IfElse(c, t, f)) ==
      var r := Eval(app, fuel, st, c); if !r.out.Ok? then r else Eval(app, fuel, r.st, if GetB(r.out.v) then t else f);
  }

  lemma {:induction false} ControlsEvaluate(app: App, fuel: nat, st: State, subject: Subject, controls: seq<Expr>, stmt: Expr, els: Expr, block: nat)
    ensures var r := SearchControls(app, fuel, st, subject, controls, block);
      Eval(app, fuel, st, NestedControls(subject, controls, stmt, els)) ==
        match r case Hit(_, s) => Eval(app, fuel, s, stmt) case Missed(s) => Eval(app, fuel, s, els) case Stopped(run) => run
    decreases |controls|
  {
    if controls != [] {
      var r := Eval(app, fuel, st, Test(subject, controls[0]));
      BranchEvaluates(app, fuel, st, Test(subject, controls[0]), stmt, NestedControls(subject, controls[1..], stmt, els));
      if r.out.Ok? && !GetB(r.out.v) { ControlsEvaluate(app, fuel, r.st, subject, controls[1..], stmt, els, block); }
    }
  }

  lemma {:induction false} FoundIsABlock(app: App, fuel: nat, st: State, subject: Subject, blocks: seq<Block>, first: nat)
    ensures var r := SearchBlocks(app, fuel, st, subject, blocks, first); r.Hit? ==> first <= r.block < first + |blocks|
    decreases |blocks|
  {
    if blocks != [] {
      FoundIsThisBlock(app, fuel, st, subject, blocks[0].controls, first);
      var r := SearchControls(app, fuel, st, subject, blocks[0].controls, first);
      if r.Missed? { FoundIsABlock(app, fuel, r.st, subject, blocks[1..], first + 1); }
    }
  }

  lemma {:induction false} FoundIsThisBlock(app: App, fuel: nat, st: State, subject: Subject, controls: seq<Expr>, block: nat)
    ensures var r := SearchControls(app, fuel, st, subject, controls, block); r.Hit? ==> r.block == block
    decreases |controls|
  {
    if controls != [] {
      var r := Eval(app, fuel, st, Test(subject, controls[0]));
      if r.out.Ok? && !GetB(r.out.v) { FoundIsThisBlock(app, fuel, r.st, subject, controls[1..], block); }
    }
  }

  lemma {:induction false} BlocksEvaluate(app: App, fuel: nat, st: State, subject: Subject, blocks: seq<Block>, els: Expr, first: nat)
    ensures var r := SearchBlocks(app, fuel, st, subject, blocks, first);
      Eval(app, fuel, st, Nested(subject, blocks, els)) ==
        match r
        case Hit(i, s) => if first <= i < first + |blocks| then Eval(app, fuel, s, blocks[i - first].stmt) else Run(Panic, st)
        case Missed(s) => Eval(app, fuel, s, els)
        case Stopped(run) => run
    decreases |blocks|
  {
    if blocks != [] {
      FoundIsThisBlock(app, fuel, st, subject, blocks[0].controls, first);
      ControlsEvaluate(app, fuel, st, subject, blocks[0].controls, blocks[0].stmt, Nested(subject, blocks[1..], els), first);
      var r := SearchControls(app, fuel, st, subject, blocks[0].controls, first);
      if r.Missed? {
        BlocksEvaluate(app, fuel, r.st, subject, blocks[1..], els, first + 1);
        FoundIsABlock(app, fuel, r.st, subject, blocks[1..], first + 1);
      }
    }
  }

  /** In the shared scope, whatever the tests do to it: the evaluator takes the branch the
      search finds. */
  lemma NestedEvaluates(app: App, fuel: nat, st: State, subject: Subject, blocks: seq<Block>, els: Expr)
    ensures Eval(app, fuel, st, Nested(subject, blocks, els)) == Chosen(app, fuel, st, subject, blocks, els)
  {
    BlocksEvaluate(app, fuel, st, subject, blocks, els, 0);
    FoundIsABlock(app, fuel, st, subject, blocks, 0);
  }

  function ControlsOf(blocks: seq<Block>): seq<Expr> {
    if blocks == [] then [] else blocks[0].controls + ControlsOf(blocks[1..])
  }

  /** Control j of block i is the first one that is true, and making the tests up to it leaves
      the state `after`. */
  ghost predicate FirstHit(app: App, fuel: nat, st: State, subject: Subject, blocks: seq<Block>, i: nat, j: nat, after: State) {
    && i < |blocks| && j < |blocks[i].controls|
    && var before := SearchControls(app, fuel, st, subject, ControlsOf(blocks[..i]) + blocks[i].controls[..j], 0);
       && before.Missed?
       && var r := Eval(app, fuel, before.st, Test(subject, blocks[i].controls[j]));
          r.out.Ok? && GetB(r.out.v) && r.st == after
  }

  lemma {:induction false} SearchConcat(app: App, fuel: nat, st: State, subject: Subject, a: seq<Expr>, b: seq<Expr>, block: nat)
    ensures var r := SearchControls(app, fuel, st, subject, a, block);
      SearchControls(app, fuel, st, subject, a + b, block) == if r.Missed? then SearchControls(app, fuel, r.st, subject, b, block) else r
    decreases |a|
  {
    if a == [] {
      assert a + b == b;
    } else {
      assert (a + b)[0] == a[0] && (a + b)[1..] == a[1..] + b;
      var r := Eval(app, fuel, st, Test(subject, a[0]));
      if r.out.Ok? && !GetB(r.out.v) { SearchConcat(app, fuel, r.st, subject, a[1..], b, block); }
    }
  }

  lemma {:induction false} MissesAnyBlock(app: App, fuel: nat, st: State, subject: Subject, controls: seq<Expr>, a: nat, b: nat)
    ensures var r, s := SearchControls(app, fuel, st, subject, controls, a), SearchControls(app, fuel, st, subject, controls, b);
      (r.Missed? <==> s.Missed?) && (r.Missed? ==> r == s)
    decreases |controls|
  {
    if controls != [] {
      var r := Eval(app, fuel, st, Test(subject, controls[0]));
      if r.out.Ok? && !GetB(r.out.v) { MissesAnyBlock(app, fuel, r.st, subject, controls[1..], a, b); }
    }
  }

  lemma FirstIsHit(app: App, fuel: nat, st: State, subject: Subject, controls: seq<Expr>, j: nat, block: nat)
    requires j < |controls|
    ensures var before := SearchControls(app, fuel, st, subject, controls[..j], 0);
      before.Missed? ==>
        var r := Eval(app, fuel, before.st, Test(subject, controls[j]));
        r.out.Ok? && GetB(r.out.v) ==> SearchControls(app, fuel, st, subject, controls, block) == Hit(block, r.st)
  {
    assert controls == controls[..j] + controls[j..];
    assert controls[j..][0] == controls[j];
    SearchConcat(app, fuel, st, subject, controls[..j], controls[j..], block);
    MissesAnyBlock(app, fuel, st, subject, controls[..j], 0, block);
  }

  /** The search finds the first control that is true. */
  lemma {:induction false} FirstHitIsFound(app: App, fuel: nat, st: State, subject: Subject, blocks: seq<Block>, i: nat, j: nat, after: State, first: nat)
    requires FirstHit(app, fuel, st, subject, blocks, i, j, after)
    ensures SearchBlocks(app, fuel, st, subject, blocks, first) == Hit(first + i, after)
    decreases i
  {
    var controls := blocks[0].controls;
    if i == 0 {
      assert ControlsOf(blocks[..0]) + controls[..j] == controls[..j];
      FirstIsHit(app, fuel, st, subject, controls, j, first);
    } else {
      var rest := ControlsOf(blocks[1..][..i - 1]) + blocks[i].controls[..j];
      assert blocks[..i][1..] == blocks[1..][..i - 1] && blocks[..i][0] == blocks[0];
      assert ControlsOf(blocks[..i]) + blocks[i].controls[..j] == controls + rest;
      SearchConcat(app, fuel, st, subject, controls, rest, 0);
      MissesAnyBlock(app, fuel, st, subject, controls, 0, first);
      var r := SearchControls(app, fuel, st, subject, controls, 0);
      FirstHitIsFound(app, fuel, r.st, subject, blocks[1..], i - 1, j, after, first + 1);
    }
  }

  /** And when no control is true, it finds none. */
  lemma {:induction false} NoneIsMissed(app: App, fuel: nat, st: State, subject: Subject, blocks: seq<Block>, first: nat)
    ensures var all := SearchControls(app, fuel, st, subject, ControlsOf(blocks), 0);
      all.Missed? ==> SearchBlocks(app, fuel, st, subject, blocks, first) == all
    decreases |blocks|
  {
    if blocks != [] {
      var controls := blocks[0].controls;
      SearchConcat(app, fuel, st, subject, controls, ControlsOf(blocks[1..]), 0);
      MissesAnyBlock(app, fuel, st, subject, controls, 0, first);
      var r := SearchControls(app, fuel, st, subject, controls, 0);
      if r.Missed? { NoneIsMissed(app, fuel, r.st, subject, blocks[1..], first + 1); }
    }
  }

  /** The nodes that were built evaluate to the expression of the first block with a control
      that is true, in the state the tests up to it leave, and to the else expression when
      there is no such control. */
  lemma BuiltIfEvaluates(app: App, fuel: nat, st: State, subject: Subject, blocks: seq<Block>, els: Expr, nodes: seq<IfNode>)
    requires ToExpr(nodes) == Nested(subject, blocks, els)
    ensures forall i: nat, j: nat, after | FirstHit(app, fuel, st, subject, blocks, i, j, after) ::
      Eval(app, fuel, st, ToExpr(nodes)) == Eval(app, fuel, after, blocks[i].stmt)
    ensures var all := SearchControls(app, fuel, st, subject, ControlsOf(blocks), 0);
      all.Missed? ==> Eval(app, fuel, st, ToExpr(nodes)) == Eval(app, fuel, all.st, els)
  {
    NestedEvaluates(app, fuel, st, subject, blocks, els);
    forall i: nat, j: nat, after | FirstHit(app, fuel, st, subject, blocks, i, j, after)
      ensures Eval(app, fuel, st, ToExpr(nodes)) == Eval(app, fuel, after, blocks[i].stmt)
    {
      FirstHitIsFound(app, fuel, st, subject, blocks, i, j, after, 0);
    }
    NoneIsMissed(app, fuel, st, subject, blocks, 0);
  }

  /** With a subject, a control is true when it has the subject's value. */
  lemma TrueIsEqual(app: App, fuel: nat, st: State, lhs: Expr, control: Expr)
    ensures var r, l := Eval(app, fuel, st, Test(IfVar(lhs), control)), Eval(app, fuel, st, lhs);
      r.out.Ok? ==> l.out.Ok? && var c := Eval(app, fuel, l.st, control); c.out.Ok? && (GetB(r.out.v) <==> l.out.v == c.out.v)
  {
    var l := Eval(app, fuel, st, lhs);
    EqualityEvaluates(app, fuel, st, lhs, control);
    if l.out.Ok? {
      var c := Eval(app, fuel, l.st, control);
      if c.out.Ok? { EqualIsSame(app.prog.lib, l.out.v, c.out.v); }
    }
  }

  lemma EqualityEvaluates(app: App, fuel: nat, st: State, lhs: Expr, control: Expr)
    ensures var l := Eval(app, fuel, st, lhs);
      Eval(app, fuel, st, Binary(Eq, "", lhs, control)) ==
        if !l.out.Ok? then l
        else
          var c := Eval(app, fuel, l.st, control);
          if c.out.Ok? then Settle(Run(ApplyBinary(app.prog.lib, Eq, l.out.v, c.out.v), c.st)) else c
  {
    assert Ev(app, fuel, st, Binary(Eq, "", lhs, control)) ==
      var l := Eval(app, fuel, st, lhs);
      if !l.out.Ok? then l
      else
        var c := Eval(app, fuel, l.st, control);
        if c.out.Ok? then Run(ApplyBinary(app.prog.lib, Eq, l.out.v, c.out.v), c.st) else c;
  }

  lemma EqualIsSame(lib: Library, l: Value, c: Value)
    ensures var r := ApplyBinary(lib, Eq, l, c); r.Panic? || (r.Ok? && (GetB(r.v) <==> l == c))
  {
  }

  /** Without a subject, a control is true when the function bool says so of its value. */
  lemma TrueIsBool(app: App, fuel: nat, st: State, control: Expr)
    requires "bool" !in app.prog.views
    ensures var r, c := Eval(app, fuel, st, Test(NoSubject, control)), Eval(app, fuel, st, control);
      if c.out.Ok? then r == Run(if app.prog.goFunc("bool", [c.out.v]).Ok? then app.prog.goFunc("bool", [c.out.v]) else Panic, c.st) else r.out == c.out
  {
    var c := Eval(app, fuel, st, control);
    var args := [control];
    assert args[0] == control && args[1..] == [];
    if c.out.Ok? {
      assert [] + [c.out.v] == [c.out.v];
      assert EvAll(app, fuel, c.st, [], [c.out.v]) == Run(Ok(List([c.out.v])), c.st);
    }
    assert EvAll(app, fuel, st, args, []) == if c.out.Ok? then Run(Ok(List([c.out.v])), c.st) else c;
    assert "bool"[0] == 'b';
    assert EvCall(app, fuel, st, "bool", args) == if c.out.Ok? then Run(GoCall(app.prog, "bool", [c.out.v]), c.st) else c;
  }

  // ---- numbers -----------------------------------------------------------------

  predicate AllNumbers(controls: seq<Expr>) {
    forall c | c in controls :: c.Literal? && c.v.Int?
  }

  lemma NumberTested(app: App, fuel: nat, st: State, x: Int64, c: Int64)
    ensures Eval(app, fuel, st, Test(IfVar(Literal(Int(x))), Literal(Int(c)))) == Run(Ok(Bool(x == c)), st)
  {
    EqualityEvaluates(app, fuel, st, Literal(Int(x)), Literal(Int(c)));
  }

  lemma {:induction false} NumberAmongControls(app: App, fuel: nat, st: State, x: Int64, controls: seq<Expr>, stmt: Expr, els: Expr)
    requires AllNumbers(controls)
    ensures Eval(app, fuel, st, NestedControls(IfVar(Literal(Int(x))), controls, stmt, els)) ==
      Eval(app, fuel, st, if Literal(Int(x)) in controls then stmt else els)
  {
    if controls != [] {
      assert controls[0] in controls && controls == [controls[0]] + controls[1..];
      NumberTested(app, fuel, st, x, controls[0].v.i);
      BranchEvaluates(app, fuel, st, Test(IfVar(Literal(Int(x))), controls[0]), stmt, NestedControls(IfVar(Literal(Int(x))), controls[1..], stmt, els));
      NumberAmongControls(app, fuel, st, x, controls[1..], stmt, els);
    }
  }

  /** On a number, with numbers for controls, the expression evaluated is that of the first block
      that lists it, and the else expression if none does. */
  lemma {:induction false} FirstBlockThatLists(app: App, fuel: nat, st: State, x: Int64, blocks: seq<Block>, els: Expr, i: nat)
    requires i <= |blocks| && (forall b | b in blocks :: AllNumbers(b.controls))
    requires (forall k | 0 <= k < i :: Literal(Int(x)) !in blocks[k].controls) && (i < |blocks| ==> Literal(Int(x)) in blocks[i].controls)
    ensures Eval(app, fuel, st, Nested(IfVar(Literal(Int(x))), blocks, els)) == Eval(app, fuel, st, if i < |blocks| then blocks[i].stmt else els)
  {
    if blocks != [] {
      assert blocks[0] in blocks;
      NumberAmongControls(app, fuel, st, x, blocks[0].controls, blocks[0].stmt, Nested(IfVar(Literal(Int(x))), blocks[1..], els));
      if i > 0 {
        assert forall k | 0 <= k < i - 1 :: blocks[1..][k] == blocks[k + 1];
        FirstBlockThatLists(app, fuel, st, x, blocks[1..], els, i - 1);
      }
    }
  }

  // ---- the same in lexical scoping ---------------------------------------------

  predicate Hits(prog: Program, fuel: nat, env: Vars, subject: Subject, control: Expr) {
    var r := LexValue(prog, fuel, env, Test(subject, control));
    r.Ok? && GetB(r.v)
  }

  predicate Misses(prog: Program, fuel: nat, env: Vars, subject: Subject, control: Expr) {
    var r := LexValue(prog, fuel, env, Test(subject, control));
    r.Ok? && !GetB(r.v)
  }

  ghost predicate AllMiss(prog: Program, fuel: nat, env: Vars, subject: Subject, controls: seq<Expr>) {
    forall c | c in controls :: Misses(prog, fuel, env, subject, c)
  }

  lemma BranchTaken(prog: Program, fuel: nat, env: Vars, c: Expr, t: Expr, f: Expr)
    ensures var r := LexValue(prog, fuel, env, c);
      r.Ok? ==> LexValue(prog, fuel, env, IfElse(c, t, f)) == LexValue(prog, fuel, env, if GetB(r.v) then t else f)
  {
    var r := LexValue(prog, fuel, env, c);
    if r.Ok? {
      assert Lex(prog, fuel, env, IfElse(c, t, f)) == LexValue(prog, fuel, env, if GetB(r.v) then t else f);
    }
  }

  lemma {:induction false} FirstHitOfControls(prog: Program, fuel: nat, env: Vars, subject: Subject, controls: seq<Expr>, stmt: Expr, els: Expr, j: nat)
    requires j <= |controls| && AllMiss(prog, fuel, env, subject, controls[..j])
    requires j < |controls| ==> Hits(prog, fuel, env, subject, controls[j])
    ensures LexValue(prog, fuel, env, NestedControls(subject, controls, stmt, els)) ==
      LexValue(prog, fuel, env, if j < |controls| then stmt else els)
    decreases j
  {
    if controls != [] {
      BranchTaken(prog, fuel, env, Test(subject, controls[0]), stmt, NestedControls(subject, controls[1..], stmt, els));
    }
    if j > 0 {
      assert controls[0] in controls[..j];
      assert Misses(prog, fuel, env, subject, controls[0]);
      assert forall c | c in controls[1..][..j - 1] :: c in controls[..j];
      FirstHitOfControls(prog, fuel, env, subject, controls[1..], stmt, els, j - 1);
    }
  }

  /** The value is that of the first block with a control the subject equals (or, without a
      subject, a control that is true); of the else expression when there is no such block. */
  lemma {:induction false} FirstMatchingBlock(prog: Program, fuel: nat, env: Vars, subject: Subject, blocks: seq<Block>, els: Expr, i: nat, j: nat)
    requires i <= |blocks|
    requires forall k | 0 <= k < i :: AllMiss(prog, fuel, env, subject, blocks[k].controls)
    requires i < |blocks| ==>
      && j < |blocks[i].controls| && AllMiss(prog, fuel, env, subject, blocks[i].controls[..j])
      && Hits(prog, fuel, env, subject, blocks[i].controls[j])
    ensures LexValue(prog, fuel, env, Nested(subject, blocks, els)) ==
      LexValue(prog, fuel, env, if i < |blocks| then blocks[i].stmt else els)
    decreases i
  {
    if blocks != [] {
      var rest := Nested(subject, blocks[1..], els);
      var controls := blocks[0].controls;
      if i == 0 {
        FirstHitOfControls(prog, fuel, env, subject, controls, blocks[0].stmt, rest, j);
      } else {
        assert controls[..|controls|] == controls;
        FirstHitOfControls(prog, fuel, env, subject, controls, blocks[0].stmt, rest, |controls|);
        assert forall k | 0 <= k < i - 1 :: blocks[1..][k] == blocks[k + 1];
        FirstMatchingBlock(prog, fuel, env, subject, blocks[1..], els, i - 1, j);
      }
    }
  }
}
