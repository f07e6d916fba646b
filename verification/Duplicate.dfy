/**
 cJSON_Duplicate (cjson.c): the copy of a tree of nodes.
 */
module Duplicate {
  import opened ChildList
  import opened Sequences

  /** A tree of nodes, named: a node and the trees of its children. */
  datatype Tree = Tree(node: Node, kids: seq<Tree>)

  /** What a tree says, apart from where it is stored. */
  datatype Value = Value(content: Content, children: seq<Value>)

  function Roots(kids: seq<Tree>): (r: seq<Node>)
    ensures |r| == |kids| && forall i :: 0 <= i < |kids| ==> r[i] == kids[i].node
  {
    seq(|kids|, i requires 0 <= i < |kids| => kids[i].node)
  }

  ghost function All(t: Tree): set<Node>
    decreases t
  {
    {t.node} + AllOf(t.kids)
  }

  ghost function AllOf(kids: seq<Tree>): (s: set<Node>)
    ensures forall i :: 0 <= i < |kids| ==> All(kids[i]) <= s
    decreases kids
  {
    if kids == [] then {} else AllOf(kids[..|kids| - 1]) + All(kids[|kids| - 1])
  }

  /** The links of the nodes are those of the tree. */
  ghost predicate Shaped(t: Tree)
    reads All(t)`child, AllOf(t.kids)`next, AllOf(t.kids)`prev
    decreases t
  {
    && (forall i :: 0 <= i < |t.kids| ==> t.kids[i].node in AllOf(t.kids))
    && Linked(t.node.child, Roots(t.kids))
    && forall i :: 0 <= i < |t.kids| ==> Shaped(t.kids[i])
  }

  /** No node is in a tree twice. */
  ghost predicate Apart(t: Tree)
    decreases t
  {
    && t.node !in AllOf(t.kids) && PairwiseApart(t.kids)
    && forall i :: 0 <= i < |t.kids| ==> Apart(t.kids[i])
  }

  ghost predicate PairwiseApart(kids: seq<Tree>) {
    forall i, j :: 0 <= i < j < |kids| ==> All(kids[i]) !! All(kids[j])
  }

  ghost function ValueOf(t: Tree): Value
    reads All(t)`content
    decreases t
  {
    Value(t.node.content, ValuesOf(t.kids))
  }

  ghost function ValuesOf(kids: seq<Tree>): seq<Value>
    reads AllOf(kids)`content
    decreases kids
  {
    if kids == [] then [] else ValuesOf(kids[..|kids| - 1]) + [ValueOf(kids[|kids| - 1])]
  }

  lemma AllOfMore(kids: seq<Tree>, t: Tree)
    ensures AllOf(kids + [t]) == AllOf(kids) + All(t)
  {
    assert (kids + [t])[..|kids|] == kids;
  }

  lemma ValuesOfMore(kids: seq<Tree>, t: Tree)
    ensures ValuesOf(kids + [t]) == ValuesOf(kids) + [ValueOf(t)]
  {
    assert (kids + [t])[..|kids|] == kids;
  }

  lemma ValuesStep(copies: seq<Tree>, tc: Tree, kids: seq<Tree>, k: nat)
    requires k < |kids| && ValuesOf(copies) == ValuesOf(kids[..k]) && ValueOf(tc) == ValueOf(kids[k])
    ensures ValuesOf(copies + [tc]) == ValuesOf(kids[..k + 1])
  {
    hide ValuesOf, ValueOf;
    ValuesOfMore(copies, tc);
    ValuesOfMore(kids[..k], kids[k]);
    assert kids[..k] + [kids[k]] == kids[..k + 1];
  }

  /** Copies of some children, each a tree of its own. */
  ghost predicate Grown(copies: seq<Tree>)
    reads AllOf(copies)`child, AllOf(copies)`next, AllOf(copies)`prev
  {
    && PairwiseApart(copies)
    && (forall i :: 0 <= i < |copies| ==> AllOf(copies[i].kids) <= AllOf(copies))
    && forall i :: 0 <= i < |copies| ==> Shaped(copies[i]) && Apart(copies[i])
  }

  /** Their chain under a new node. */
  ghost predicate Chained(copy: Node, last: Node?, items: seq<Node>)
    reads {copy}`child, items`next, items`prev
  {
    Linked(copy.child, items) && last == NodeAt(items, |items| - 1)
  }

  /** The assignments that hang one more node behind the last. */
  method Hang(copy: Node, last: Node?, newchild: Node, ghost items: seq<Node>)
    requires Chained(copy, last, items) && AllDistinct(items) && newchild !in items
    requires newchild.next == null && newchild.prev == null
    modifies {copy}`child, (if last == null then {} else {last})`next, {newchild}`prev
    ensures Chained(copy, newchild, items + [newchild])
  {
    if last != null {
      last.next := newchild;
      newchild.prev := last;
    } else {
      copy.child := newchild;
    }
  }

  lemma RootsApart(copies: seq<Tree>)
    requires PairwiseApart(copies)
    ensures AllDistinct(Roots(copies))
  {
    forall i, j | 0 <= i < j < |copies| ensures copies[i].node != copies[j].node {
      assert copies[i].node in All(copies[i]) && copies[j].node in All(copies[j]);
    }
  }

  /** A root is not below any root. */
  lemma RootNotBelow(copies: seq<Tree>, i: nat, j: nat)
    requires i < |copies| && j < |copies| && PairwiseApart(copies) && Apart(copies[i])
    ensures copies[i].node !in AllOf(copies[j].kids)
  {
    assert copies[i].node in All(copies[i]);
    assert AllOf(copies[j].kids) <= All(copies[j]);
  }

  lemma GrownMore(copies: seq<Tree>, t: Tree)
    requires Grown(copies) && Shaped(t) && Apart(t) && All(t) !! AllOf(copies)
    ensures Grown(copies + [t])
  {
    hide Shaped, Apart;
    AllOfMore(copies, t);
    var all := copies + [t];
    forall i, j | 0 <= i < j < |all| ensures All(all[i]) !! All(all[j]) {
      assert i < |copies| && all[i] == copies[i];
    }
    assert AllOf(t.kids) <= All(t);
  }

  lemma RootsMore(copies: seq<Tree>, t: Tree)
    ensures Roots(copies + [t]) == Roots(copies) + [t.node]
  {
  }

  lemma Contained(copies: seq<Tree>, i: nat)
    requires i < |copies|
    ensures copies[i].node in All(copies[i]) && AllOf(copies[i].kids) <= All(copies[i]) <= AllOf(copies)
  {
  }

  /** What the next step needs to know of the copies made so far. */
  lemma CopiesApart(copies: seq<Tree>, copy: Node, nptr: Node?, made: set<Node>)
    requires PairwiseApart(copies) && (forall i :: 0 <= i < |copies| ==> Apart(copies[i]))
    requires AllOf(copies) <= made && copy !in made && nptr == NodeAt(Roots(copies), |copies| - 1)
    ensures AllDistinct(Roots(copies)) && (forall n <- Roots(copies) :: n in made)
    ensures forall i :: 0 <= i < |copies| ==> All(copies[i]) <= made && AllOf(copies[i].kids) <= made
    ensures nptr != null ==> nptr in made && forall i :: 0 <= i < |copies| ==> nptr !in AllOf(copies[i].kids)
  {
    hide Apart, All, AllOf, PairwiseApart, AllDistinct;
    RootsApart(copies);
    forall i | 0 <= i < |copies|
      ensures All(copies[i]) <= made && AllOf(copies[i].kids) <= made && copies[i].node in made
      ensures nptr != null ==> nptr !in AllOf(copies[i].kids)
    {
      Contained(copies, i);
      if nptr != null {
        RootNotBelow(copies, |copies| - 1, i);
      }
    }
    assert nptr != null ==> nptr == copies[|copies| - 1].node;
  }

  lemma TreeParts(t: Tree)
    requires Apart(t)
    ensures t.node in All(t) && t.node !in AllOf(t.kids) && AllOf(t.kids) <= All(t)
  {
  }

  lemma ShapedParts(t: Tree)
    requires Shaped(t)
    ensures Linked(t.node.child, Roots(t.kids)) && forall i :: 0 <= i < |t.kids| ==> Shaped(t.kids[i])
    ensures AllOf(t.kids) <= All(t) && t.node in All(t)
    ensures ValueOf(t) == Value(t.node.content, ValuesOf(t.kids))
  {
  }

  lemma Assembled(copy: Node, copies: seq<Tree>)
    requires Grown(copies) && Linked(copy.child, Roots(copies)) && copy !in AllOf(copies)
    ensures var t := Tree(copy, copies);
            && Shaped(t) && Apart(t) && All(t) == {copy} + AllOf(copies)
            && ValueOf(t) == Value(copy.content, ValuesOf(copies))
  {
    hide AllOf, PairwiseApart, Linked, ValuesOf, Roots;
    forall i | 0 <= i < |copies| ensures copies[i].node in AllOf(copies) {
      Contained(copies, i);
    }
  }

  lemma {:induction false} KidsWithin(kids: seq<Tree>, nodes: set<Node>, k: nat)
    requires AllOf(kids) <= nodes && k <= |kids|
    ensures forall i :: 0 <= i < |kids| ==> All(kids[i]) <= nodes && AllOf(kids[i].kids) <= nodes
    ensures forall i :: 0 <= i < |kids| ==> Roots(kids)[i] in nodes
    ensures AllOf(kids[..k]) <= nodes
    decreases |kids| - k
  {
    forall i | 0 <= i < |kids| ensures All(kids[i]) <= nodes && AllOf(kids[i].kids) <= nodes && kids[i].node in nodes {
      Contained(kids, i);
    }
    if k < |kids| {
      KidsWithin(kids, nodes, k + 1);
      assert kids[..k + 1][..k] == kids[..k];
    } else {
      assert kids[..k] == kids;
    }
  }

  lemma NoKids()
    ensures AllOf([]) == {} && ValuesOf([]) == [] && Grown([])
  {
  }

  // Dafny knows of the nodes in a set that is passed that they are allocated, but not of those of a tree; so the sets
  // of nodes are passed along.

  /** One child is copied, and the copy hung behind the last; made has the nodes of the copies so far. */
  method AddCopy(cptr: Node, copy: Node, nptr: Node?, ghost copies: seq<Tree>, ghost made: set<Node>, ghost kid: Tree,
                 ghost nodes: set<Node>)
    returns (newchild: Node, ghost tc: Tree, ghost news: set<Node>)
    requires kid.node == cptr && Shaped(kid) && All(kid) <= nodes
    requires Grown(copies) && Chained(copy, nptr, Roots(copies)) && AllOf(copies) == made && copy !in made
    modifies {copy}`child, (if nptr == null then {} else {nptr})`next
    ensures fresh(news) && All(tc) == news && newchild in news && Owned(news)
    ensures Grown(copies + [tc]) && Chained(copy, newchild, Roots(copies + [tc]))
    ensures ValueOf(tc) == old(ValueOf(kid))
    decreases kid, 1
  {
    hide ValueOf, ValuesOf, Shaped, All, AllOf, Apart, PairwiseApart, Roots, Linked;
    newchild, tc, news := DuplicateItem(cptr, true, kid, nodes);
    CopiesApart(copies, copy, nptr, made);
    TreeParts(tc);
    RootsMore(copies, tc);
    assert ValueOf(kid) == old(ValueOf(kid));
    Hang(copy, nptr, newchild, Roots(copies));
    assert Shaped(tc);
    assert forall i :: 0 <= i < |copies| ==> Shaped(copies[i]);
    GrownMore(copies, tc);
  }

  /** The children are copied one after the other. */
  method CopyChildren(item: Node, copy: Node, ghost kids: seq<Tree>, ghost nodes: set<Node>)
    returns (ghost copies: seq<Tree>, ghost made: set<Node>)
    requires Linked(item.child, Roots(kids)) && (forall i :: 0 <= i < |kids| ==> Shaped(kids[i]))
    requires copy.child == null && AllOf(kids) + {item} <= nodes && copy !in nodes
    modifies {copy}`child
    ensures AllOf(copies) == made && fresh(made) && copy !in made && Owned(made)
    ensures Grown(copies) && Linked(copy.child, Roots(copies))
    ensures ValuesOf(copies) == old(ValuesOf(kids))
    decreases kids
  {
    hide Shaped, Apart, All, AllOf, ValueOf, ValuesOf, PairwiseApart, Grown;
    copies, made := [], {};
    var cptr := item.child;
    var nptr: Node? := null;
    NoKids();
    while cptr != null
      invariant |copies| <= |kids| && cptr == NodeAt(Roots(kids), |copies|)
      invariant made == AllOf(copies) && fresh(made) && Grown(copies) && Chained(copy, nptr, Roots(copies))
      invariant ValuesOf(copies) == ValuesOf(kids[..|copies|])
      invariant forall i :: 0 <= i < |kids| ==> Shaped(kids[i])
      invariant nptr != null ==> nptr in made
      invariant copy !in made && Owned(made)
      decreases |kids| - |copies|
    {
      ghost var k := |copies|;
      ghost var tc, news;
      KidsWithin(kids, nodes, k);
      nptr, tc, news := AddCopy(cptr, copy, nptr, copies, made, kids[k], nodes);
      AllOfMore(copies, tc);
      ValuesStep(copies, tc, kids, k);
      copies, made := copies + [tc], made + news;
      cptr := cptr.next;
    }
    assert kids[..|kids|] == kids;
  }

  /** An equal tree of new nodes; without recurse, an equal node without children. */
  method DuplicateItem(item: Node, recurse: bool, ghost t: Tree, ghost nodes: set<Node>)
    returns (copy: Node, ghost t': Tree, ghost news: set<Node>)
    requires t.node == item && Shaped(t) && All(t) <= nodes
    ensures t'.node == copy && All(t') == news && fresh(news) && copy in news && Owned(news)
    ensures Shaped(t') && Apart(t') && copy.next == null && copy.prev == null
    ensures ValueOf(t') == if recurse then old(ValueOf(t)) else Value(item.content, [])
    decreases t, 0
  {
    hide Shaped, Apart, All, AllOf, ValueOf, ValuesOf, Grown, Linked, Roots;
    ShapedParts(t);
    KidsWithin(t.kids, nodes, 0);
    copy := new Node();
    copy.content := item.content;
    NoKids();
    NoLinks();
    ghost var copies, made := [], {};
    if recurse {
      copies, made := CopyChildren(item, copy, t.kids, nodes);
    }
    Assembled(copy, copies);
    t', news := Tree(copy, copies), {copy} + made;
  }

  /** The copy does not share its children with another node: it has no references. */
  ghost predicate Owned(nodes: set<Node>)
    reads nodes`isReference
  {
    forall n <- nodes :: !n.isReference
  }

  lemma NoLinks()
    ensures Linked(null, Roots([]))
  {
  }
}
