/**
 * `ParseTreeWalker::walk` (tree/ParseTreeWalker.cpp): a depth-first walk of
 * a parse tree that reports each node to a listener. The listener is
 * modelled by the trace of calls it receives, each naming the node it is
 * about.
 */
module ParseTreeWalking {
  import opened Wrappers

  /**
   * A parse tree. An error node is a terminal node too (`ErrorNode` derives
   * from `TerminalNode`); every other node is a rule context with children.
   */
  datatype Tree =
    | Leaf(id: nat, isError: bool)
    | Rule(id: nat, children: seq<Tree>)

  /** `antlr_cast<TerminalNode *>(t) != nullptr` */
  predicate IsTerminalNode(t: Tree) {
    t.Leaf?
  }

  /** `antlr_cast<ErrorNode *>(t) != nullptr` */
  predicate IsErrorNode(t: Tree) {
    t.Leaf? && t.isError
  }

  /** The listener and context calls a walk makes, with the node each is about. */
  datatype Event =
    | VisitErrorNode(id: nat)
    | VisitTerminal(id: nat)
    | EnterEveryRule(id: nat)
    | CtxEnterRule(id: nat)
    | CtxExitRule(id: nat)
    | ExitEveryRule(id: nat)

  /** `enterRule(listener, r)`: `listener->enterEveryRule(ctx)`, then `ctx->enterRule(listener)`. */
  function EnterRule(id: nat): seq<Event> {
    [EnterEveryRule(id), CtxEnterRule(id)]
  }

  /** `exitRule(listener, r)`: `ctx->exitRule(listener)`, then `listener->exitEveryRule(ctx)`. */
  function ExitRule(id: nat): seq<Event> {
    [CtxExitRule(id), ExitEveryRule(id)]
  }

  /**
   * `walk(listener, t)`: an error node is visited as such, before the
   * terminal test that it would also pass; a terminal is visited; a rule is
   * entered, its children walked left to right, and exited.
   */
  function Walk(t: Tree): (es: seq<Event>)
    ensures |es| >= 1 && es[0].id == t.id && es[|es| - 1].id == t.id
    decreases t, 1
  {
    if IsErrorNode(t) then [VisitErrorNode(t.id)]
    else if IsTerminalNode(t) then [VisitTerminal(t.id)]
    else EnterRule(t.id) + WalkChildren(t.children) + ExitRule(t.id)
  }

  /** The `for (auto &child : t->children) walk(listener, child)` loop. */
  function WalkChildren(cs: seq<Tree>): (es: seq<Event>)
    ensures |es| >= |cs|
    decreases cs, 0
  {
    if cs == [] then [] else Walk(cs[0]) + WalkChildren(cs[1..])
  }

  /** The number of rule nodes in a tree. */
  function RuleCount(t: Tree): nat
    decreases t, 1
  {
    if t.Leaf? then 0 else 1 + RuleCountAll(t.children)
  }

  function RuleCountAll(cs: seq<Tree>): nat
    decreases cs, 0
  {
    if cs == [] then 0 else RuleCount(cs[0]) + RuleCountAll(cs[1..])
  }

  /** The number of leaves (terminal and error nodes) in a tree. */
  function LeafCount(t: Tree): nat
    decreases t, 1
  {
    if t.Leaf? then 1 else LeafCountAll(t.children)
  }

  function LeafCountAll(cs: seq<Tree>): nat
    decreases cs, 0
  {
    if cs == [] then 0 else LeafCount(cs[0]) + LeafCountAll(cs[1..])
  }

  /** The node ids of a tree in preorder: each node before its descendants, children left to right. */
  function Preorder(t: Tree): seq<nat>
    decreases t, 1
  {
    if t.Leaf? then [t.id] else [t.id] + PreorderAll(t.children)
  }

  function PreorderAll(cs: seq<Tree>): seq<nat>
    decreases cs, 0
  {
    if cs == [] then [] else Preorder(cs[0]) + PreorderAll(cs[1..])
  }

  /** The ids of the events that first reach a node: a visit of a leaf, or `enterEveryRule`. */
  function Arrivals(es: seq<Event>): seq<nat> {
    if es == [] then []
    else if es[0].VisitErrorNode? || es[0].VisitTerminal? || es[0].EnterEveryRule? then [es[0].id] + Arrivals(es[1..])
    else Arrivals(es[1..])
  }

  lemma {:induction false} ArrivalsAppend(a: seq<Event>, b: seq<Event>)
    ensures Arrivals(a + b) == Arrivals(a) + Arrivals(b)
  {
    if a != [] {
      assert (a + b)[0] == a[0];
      assert (a + b)[1..] == a[1..] + b;
      ArrivalsAppend(a[1..], b);
    } else {
      assert a + b == b;
    }
  }

  /** A leaf gives one event, about itself: `visitErrorNode` exactly when it is an error node, otherwise `visitTerminal`. */
  lemma LeafEvents(t: Tree)
    requires IsTerminalNode(t)
    ensures |Walk(t)| == 1 && Walk(t)[0].id == t.id
    ensures Walk(t)[0].VisitErrorNode? <==> IsErrorNode(t)
    ensures Walk(t)[0].VisitTerminal? <==> !IsErrorNode(t)
  {
  }

  /** A rule's trace opens with `enterEveryRule` and `ctx.enterRule` and closes with `ctx.exitRule` and `exitEveryRule`, all about the rule. */
  lemma RuleEvents(t: Tree)
    requires !IsTerminalNode(t)
    ensures |Walk(t)| >= 4
    ensures Walk(t)[..2] == EnterRule(t.id)
    ensures Walk(t)[|Walk(t)| - 2..] == ExitRule(t.id)
    ensures Walk(t)[2..|Walk(t)| - 2] == WalkChildren(t.children)
  {
  }

  /** The trace holds four events per rule node and one per leaf. */
  lemma {:induction false} WalkLength(t: Tree)
    ensures |Walk(t)| == 4 * RuleCount(t) + LeafCount(t)
    decreases t, 1
  {
    if !t.Leaf? {
      WalkChildrenLength(t.children);
    }
  }

  lemma {:induction false} WalkChildrenLength(cs: seq<Tree>)
    ensures |WalkChildren(cs)| == 4 * RuleCountAll(cs) + LeafCountAll(cs)
    decreases cs, 0
  {
    if cs != [] {
      WalkLength(cs[0]);
      WalkChildrenLength(cs[1..]);
    }
  }

  /** Each node is reached exactly once, in preorder: first a node, then its children's subtrees left to right. */
  lemma {:induction false} WalkArrivesInPreorder(t: Tree)
    ensures Arrivals(Walk(t)) == Preorder(t)
    decreases t, 1
  {
    if !t.Leaf? {
      var inner := WalkChildren(t.children);
      ArrivalsAppend(EnterRule(t.id) + inner, ExitRule(t.id));
      ArrivalsAppend(EnterRule(t.id), inner);
      WalkChildrenArrivesInPreorder(t.children);
      assert EnterRule(t.id)[1..][1..] == [];
      assert Arrivals(EnterRule(t.id)) == [t.id];
      assert ExitRule(t.id)[1..][1..] == [];
      assert Arrivals(ExitRule(t.id)) == [];
    }
  }

  lemma {:induction false} WalkChildrenArrivesInPreorder(cs: seq<Tree>)
    ensures Arrivals(WalkChildren(cs)) == PreorderAll(cs)
    decreases cs, 0
  {
    if cs != [] {
      ArrivalsAppend(Walk(cs[0]), WalkChildren(cs[1..]));
      WalkArrivesInPreorder(cs[0]);
      WalkChildrenArrivesInPreorder(cs[1..]);
    }
  }

  /** Every event of a walk is about a node of the walked tree. */
  lemma {:induction false} WalkStaysInTree(t: Tree)
    ensures forall i :: 0 <= i < |Walk(t)| ==> Walk(t)[i].id in Preorder(t)
    decreases t, 1
  {
    if !t.Leaf? {
      WalkChildrenStaysInTree(t.children);
      var w := Walk(t);
      var inner := WalkChildren(t.children);
      assert w == EnterRule(t.id) + inner + ExitRule(t.id);
      forall i | 0 <= i < |w|
        ensures w[i].id in Preorder(t)
      {
        if 2 <= i < 2 + |inner| {
          assert w[i] == inner[i - 2];
        }
      }
    }
  }

  lemma {:induction false} WalkChildrenStaysInTree(cs: seq<Tree>)
    ensures forall i :: 0 <= i < |WalkChildren(cs)| ==> WalkChildren(cs)[i].id in PreorderAll(cs)
    decreases cs, 0
  {
    if cs != [] {
      WalkStaysInTree(cs[0]);
      WalkChildrenStaysInTree(cs[1..]);
      var w := WalkChildren(cs);
      var first := Walk(cs[0]);
      forall i | 0 <= i < |w|
        ensures w[i].id in PreorderAll(cs)
      {
        if i < |first| {
          assert w[i] == first[i];
        } else {
          assert w[i] == WalkChildren(cs[1..])[i - |first|];
        }
      }
    }
  }

  /**
   * One event against the stack of rules entered and not yet exited (the
   * innermost last): `enterEveryRule` pushes, the context calls must be
   * about the innermost rule, `exitEveryRule` pops it. `None` marks an
   * event out of nesting order.
   */
  function Step(e: Event, open: seq<nat>): Option<seq<nat>> {
    match e
    case VisitErrorNode(_) => Some(open)
    case VisitTerminal(_) => Some(open)
    case EnterEveryRule(id) => Some(open + [id])
    case CtxEnterRule(id) => if open != [] && open[|open| - 1] == id then Some(open) else None
    case CtxExitRule(id) => if open != [] && open[|open| - 1] == id then Some(open) else None
    case ExitEveryRule(id) =>
      if open != [] && open[|open| - 1] == id then Some(open[..|open| - 1]) else None
  }

  /** The stack after a whole trace, or `None` if some event is out of nesting order. */
  function Run(es: seq<Event>, open: seq<nat>): Option<seq<nat>> {
    if es == [] then Some(open)
    else
      match Step(es[0], open)
      case None => None
      case Some(next) => Run(es[1..], next)
  }

  lemma {:induction false} RunAppend(a: seq<Event>, b: seq<Event>, open: seq<nat>)
    ensures Run(a + b, open) == (if Run(a, open).None? then None else Run(b, Run(a, open).value))
  {
    if a != [] {
      assert (a + b)[1..] == a[1..] + b;
      assert (a + b)[0] == a[0];
      match Step(a[0], open)
      case None =>
      case Some(next) => RunAppend(a[1..], b, next);
    } else {
      assert a + b == b;
    }
  }

  /**
   * Enter and exit events are well nested: from any stack of open rules,
   * a walk's trace runs without an out-of-order event and leaves the stack
   * as it found it.
   */
  lemma {:induction false} WalkIsWellNested(t: Tree, open: seq<nat>)
    ensures Run(Walk(t), open) == Some(open)
    decreases t, 1
  {
    if !t.Leaf? {
      var inner := WalkChildren(t.children);
      var pushed := open + [t.id];
      RunAppend(EnterRule(t.id) + inner, ExitRule(t.id), open);
      RunAppend(EnterRule(t.id), inner, open);
      var enter := EnterRule(t.id);
      assert Step(enter[0], open) == Some(pushed) && Step(enter[1], pushed) == Some(pushed);
      assert enter[1..][0] == enter[1] && enter[1..][1..] == [];
      assert Run(enter[1..], pushed) == Some(pushed);
      assert Run(enter, open) == Some(pushed);
      WalkChildrenIsWellNested(t.children, pushed);
      assert pushed[..|pushed| - 1] == open;
      var exit := ExitRule(t.id);
      assert Step(exit[0], pushed) == Some(pushed) && Step(exit[1], pushed) == Some(open);
      assert exit[1..][0] == exit[1];
      assert exit[1..][0] == exit[1] && exit[1..][1..] == [];
      assert Run(exit[1..], pushed) == Some(open);
      assert Run(exit, pushed) == Some(open);
    }
  }

  lemma {:induction false} WalkChildrenIsWellNested(cs: seq<Tree>, open: seq<nat>)
    ensures Run(WalkChildren(cs), open) == Some(open)
    decreases cs, 0
  {
    if cs != [] {
      RunAppend(Walk(cs[0]), WalkChildren(cs[1..]), open);
      WalkIsWellNested(cs[0], open);
      WalkChildrenIsWellNested(cs[1..], open);
    }
  }

  /**
   * A rule with a terminal, a rule holding one terminal, and an error node:
   * the root is entered, the terminal visited, the inner rule entered, its
   * terminal visited, the inner rule exited, the error node visited, the
   * root exited.
   */
  lemma ExampleTrace()
    ensures Walk(Rule(0, [Leaf(1, false), Rule(2, [Leaf(3, false)]), Leaf(4, true)])) ==
      [EnterEveryRule(0), CtxEnterRule(0),
       VisitTerminal(1),
       EnterEveryRule(2), CtxEnterRule(2), VisitTerminal(3), CtxExitRule(2), ExitEveryRule(2),
       VisitErrorNode(4),
       CtxExitRule(0), ExitEveryRule(0)]
  {
    var inner := Rule(2, [Leaf(3, false)]);
    var cs := [Leaf(1, false), inner, Leaf(4, true)];
    assert WalkChildren([Leaf(3, false)]) == [VisitTerminal(3)];
    assert WalkChildren(cs[2..]) == [VisitErrorNode(4)];
    assert WalkChildren(cs[1..]) == Walk(inner) + WalkChildren(cs[2..]);
  }
}
