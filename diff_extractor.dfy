/**
 * Method-pair extraction over a matched pair of Java syntax trees: the prev
 * tree is walked in pre-order, every method declaration whose matched node on
 * the updated side is a method declaration as well yields a pair of source
 * texts named after the method, and the pairs are written below
 * `method_pairs/<method name>/`.
 *
 * Parsing and matching happen in GumTree and are inputs here: the prev tree,
 * the prev-to-updated mapping (by node id) and both file texts. The writes go
 * to a modelled file system, so that "creates nothing" and "a name used twice
 * fails" can be stated.
 */
module GumTreeDiffer {
  import opened Wrappers
  import opened Text

  /** JDT's `ASTNode.METHOD_DECLARATION` and `ASTNode.SIMPLE_NAME`. */
  const METHOD_DECLARATION: int := 31
  const SIMPLE_NAME: int := 42

  const NO_METHOD_NAME_PREFIX: string := "NoMethodNameFound_"
  const METHOD_PAIRS_DIR: string := "method_pairs"
  const PREV_METHOD_FILE: string := "prev_method.java"
  const UPDATED_METHOD_FILE: string := "updated_method.java"

  /** A GumTree node: its type, label, source range `[pos, endPos)`, Java hash code and children in order. */
  datatype Tree = Node(id: nat, nodeType: int, nodeLabel: string, pos: int, endPos: int, hashCode: int, children: seq<Tree>)

  /** What the extractor holds after construction: both file texts, the prev root and the matcher's mappings. */
  datatype Extractor = Extractor(prevFileText: string, updatedFileText: string, prevRoot: Tree, mappings: map<nat, Tree>)

  datatype MethodDiff = MethodDiff(methodName: string, prev: string, updated: string)

  /**
   * `NullPointerException` when a method declaration has no match, and
   * `StringIndexOutOfBoundsException` when a node's range does not fit its file.
   */
  datatype ExtractError = NullMapping(nodeId: nat) | StringIndexOutOfBounds(pos: int, endPos: int, length: nat)

  // ---------------------------------------------------------------------
  // Node text and method name
  // ---------------------------------------------------------------------

  /** `fileContent.substring(pos, endPos)`. */
  function NodeText(node: Tree, content: string): (r: Result<string, ExtractError>)
    ensures r.Ok? <==> 0 <= node.pos <= node.endPos <= |content|
    ensures r.Ok? ==> |r.value| == node.endPos - node.pos
    ensures r.Ok? ==> forall k :: 0 <= k < |r.value| ==> r.value[k] == content[node.pos + k]
    ensures r.Err? ==> r.error == StringIndexOutOfBounds(node.pos, node.endPos, |content|)
  {
    if 0 <= node.pos <= node.endPos <= |content| then Ok(content[node.pos..node.endPos])
    else Err(StringIndexOutOfBounds(node.pos, node.endPos, |content|))
  }

  /** The text of a node nested in another's range is the matching piece of the outer text. */
  lemma NodeTextNested(outer: Tree, inner: Tree, content: string)
    requires NodeText(outer, content).Ok?
    requires outer.pos <= inner.pos <= inner.endPos <= outer.endPos
    ensures NodeText(inner, content).Ok?
    ensures NodeText(inner, content).value
         == NodeText(outer, content).value[inner.pos - outer.pos..inner.endPos - outer.pos]
  {
  }

  /** The texts of two adjacent ranges make up the text of the range they cover together. */
  lemma NodeTextAdjacent(left: Tree, right: Tree, whole: Tree, content: string)
    requires NodeText(left, content).Ok? && NodeText(right, content).Ok?
    requires left.endPos == right.pos && whole.pos == left.pos && whole.endPos == right.endPos
    ensures NodeText(whole, content) == Ok(NodeText(left, content).value + NodeText(right, content).value)
  {
    assert content[left.pos..right.endPos] == content[left.pos..left.endPos] + content[right.pos..right.endPos];
  }

  /** The labels of the SIMPLE_NAME children, in child order. */
  function SimpleNameLabels(children: seq<Tree>): (r: seq<string>)
    ensures |r| <= |children|
  {
    if |children| == 0 then []
    else (if children[0].nodeType == SIMPLE_NAME then [children[0].nodeLabel] else []) + SimpleNameLabels(children[1..])
  }

  /** There is no label exactly when no child is a SIMPLE_NAME, and the first label is the first SIMPLE_NAME child's. */
  lemma {:induction false} SimpleNameLabelsSpec(children: seq<Tree>, k: nat)
    requires k < |children| && children[k].nodeType == SIMPLE_NAME
    requires forall j :: 0 <= j < k ==> children[j].nodeType != SIMPLE_NAME
    ensures |SimpleNameLabels(children)| > 0 && SimpleNameLabels(children)[0] == children[k].nodeLabel
    decreases k
  {
    if k > 0 {
      SimpleNameLabelsSpec(children[1..], k - 1);
    }
  }

  lemma {:induction false} NoSimpleNameNoLabels(children: seq<Tree>)
    requires forall j :: 0 <= j < |children| ==> children[j].nodeType != SIMPLE_NAME
    ensures SimpleNameLabels(children) == []
    decreases |children|
  {
    if |children| > 0 {
      NoSimpleNameNoLabels(children[1..]);
    }
  }

  /** `getMethodName`: the first SIMPLE_NAME child's label, else the fallback built from the hash code. */
  function MethodName(methodNode: Tree): string
  {
    var names := SimpleNameLabels(methodNode.children);
    if |names| == 0 then NO_METHOD_NAME_PREFIX + IntToString(methodNode.hashCode) else names[0]
  }

  /** With several SIMPLE_NAME children the first one names the method. */
  lemma MethodNameFirstWins(methodNode: Tree, k: nat)
    requires k < |methodNode.children| && methodNode.children[k].nodeType == SIMPLE_NAME
    requires forall j :: 0 <= j < k ==> methodNode.children[j].nodeType != SIMPLE_NAME
    ensures MethodName(methodNode) == methodNode.children[k].nodeLabel
  {
    SimpleNameLabelsSpec(methodNode.children, k);
  }

  /** Without a SIMPLE_NAME child the name is the prefix followed by the hash code, which can be read back. */
  lemma MethodNameFallback(methodNode: Tree)
    requires forall j :: 0 <= j < |methodNode.children| ==> methodNode.children[j].nodeType != SIMPLE_NAME
    ensures var name := MethodName(methodNode);
      && |name| > |NO_METHOD_NAME_PREFIX|
      && name[..|NO_METHOD_NAME_PREFIX|] == NO_METHOD_NAME_PREFIX
      && name[|NO_METHOD_NAME_PREFIX|..] == IntToString(methodNode.hashCode)
  {
    NoSimpleNameNoLabels(methodNode.children);
    var name := MethodName(methodNode);
    assert name == NO_METHOD_NAME_PREFIX + IntToString(methodNode.hashCode);
    IntToStringRoundTrip(methodNode.hashCode);
  }

  /**
   * The `MethodDiff` constructor: the prev method's text from the prev file
   * (sliced first), the updated method's text from the updated file, and the
   * prev method's name whatever the updated side is called.
   */
  function NewMethodDiff(ex: Extractor, prevMethod: Tree, updatedMethod: Tree): (r: Result<MethodDiff, ExtractError>)
    ensures r.Ok? <==> NodeText(prevMethod, ex.prevFileText).Ok? && NodeText(updatedMethod, ex.updatedFileText).Ok?
    ensures r.Ok? ==> r.value == MethodDiff(MethodName(prevMethod),
                                            NodeText(prevMethod, ex.prevFileText).value,
                                            NodeText(updatedMethod, ex.updatedFileText).value)
    ensures NodeText(prevMethod, ex.prevFileText).Err? ==> r == Err(NodeText(prevMethod, ex.prevFileText).error)
    ensures NodeText(prevMethod, ex.prevFileText).Ok? && NodeText(updatedMethod, ex.updatedFileText).Err? ==>
      r == Err(NodeText(updatedMethod, ex.updatedFileText).error)
  {
    var prev :- NodeText(prevMethod, ex.prevFileText);
    var updated :- NodeText(updatedMethod, ex.updatedFileText);
    Ok(MethodDiff(MethodName(prevMethod), prev, updated))
  }

  /** The updated side's own name never changes the pair's name. */
  lemma NameFromPrevOnly(ex: Extractor, prevMethod: Tree, u1: Tree, u2: Tree)
    requires u1.pos == u2.pos && u1.endPos == u2.endPos
    ensures NewMethodDiff(ex, prevMethod, u1) == NewMethodDiff(ex, prevMethod, u2)
  {
  }

  // ---------------------------------------------------------------------
  // Pre-order traversal and pair selection
  // ---------------------------------------------------------------------

  /** The nodes of a tree, each before its children, children in order. */
  function PreOrder(t: Tree): (r: seq<Tree>)
    ensures |r| >= 1 && r[0] == t
    decreases t, 1
  {
    [t] + PreOrderForest(t.children)
  }

  function PreOrderForest(ts: seq<Tree>): seq<Tree>
    decreases ts, 0
  {
    if |ts| == 0 then [] else PreOrder(ts[0]) + PreOrderForest(ts[1..])
  }

  lemma {:induction false} PreOrderForestAppend(a: seq<Tree>, b: seq<Tree>)
    ensures PreOrderForest(a + b) == PreOrderForest(a) + PreOrderForest(b)
    decreases |a|
  {
    if |a| == 0 {
      assert a + b == b;
    } else {
      assert (a + b)[0] == a[0];
      assert (a + b)[1..] == a[1..] + b;
      PreOrderForestAppend(a[1..], b);
    }
  }

  /** Where the pre-order of child `k` starts: after the node itself and the earlier children's subtrees. */
  function ChildOffset(t: Tree, k: nat): nat
    requires k <= |t.children|
  {
    1 + |PreOrderForest(t.children[..k])|
  }

  /**
   * The subtree of child `k` is visited as one contiguous block, after the node
   * itself and right after the block of child `k - 1`.
   */
  lemma ChildBlock(t: Tree, k: nat)
    requires k < |t.children|
    ensures 1 <= ChildOffset(t, k) < ChildOffset(t, k + 1) <= |PreOrder(t)|
    ensures PreOrder(t)[ChildOffset(t, k)..ChildOffset(t, k + 1)] == PreOrder(t.children[k])
  {
    var cs := t.children;
    assert cs[..k + 1] == cs[..k] + [cs[k]];
    PreOrderForestAppend(cs[..k], [cs[k]]);
    assert PreOrderForest([cs[k]]) == PreOrder(cs[k]) by {
      assert [cs[k]][1..] == [];
    }
    assert cs == cs[..k + 1] + cs[k + 1..];
    PreOrderForestAppend(cs[..k + 1], cs[k + 1..]);
    var before := PreOrderForest(cs[..k]);
    assert PreOrder(t) == [t] + before + PreOrder(cs[k]) + PreOrderForest(cs[k + 1..]);
  }

  /** A node's own pair decision; only a METHOD_DECLARATION looks at its match (`&&` short-circuits). */
  function VisitNode(ex: Extractor, node: Tree): (r: Result<Option<MethodDiff>, ExtractError>)
    ensures r.Err? <==> (node.nodeType == METHOD_DECLARATION &&
      (node.id !in ex.mappings ||
       (ex.mappings[node.id].nodeType == METHOD_DECLARATION && NewMethodDiff(ex, node, ex.mappings[node.id]).Err?)))
    ensures r == Ok(None) <==> (node.nodeType != METHOD_DECLARATION ||
      (node.id in ex.mappings && ex.mappings[node.id].nodeType != METHOD_DECLARATION))
    ensures r.Ok? && r.value.Some? ==> Ok(r.value.value) == NewMethodDiff(ex, node, ex.mappings[node.id])
    ensures node.nodeType == METHOD_DECLARATION && node.id !in ex.mappings ==> r == Err(NullMapping(node.id))
    ensures node.nodeType == METHOD_DECLARATION && node.id in ex.mappings
            && ex.mappings[node.id].nodeType == METHOD_DECLARATION && NewMethodDiff(ex, node, ex.mappings[node.id]).Err? ==>
      r == Err(NewMethodDiff(ex, node, ex.mappings[node.id]).error)
  {
    if node.nodeType != METHOD_DECLARATION then Ok(None)
    else if node.id !in ex.mappings then Err(NullMapping(node.id))
    else
      var updated := ex.mappings[node.id];
      if updated.nodeType != METHOD_DECLARATION then Ok(None)
      else
        var d :- NewMethodDiff(ex, node, updated);
        Ok(Some(d))
  }

  /** The node contributes a pair: it and its match are both method declarations. */
  predicate Paired(ex: Extractor, node: Tree)
  {
    node.nodeType == METHOD_DECLARATION && node.id in ex.mappings
    && ex.mappings[node.id].nodeType == METHOD_DECLARATION
  }

  /** The pair a node contributes, as a list of zero or one. */
  function Own(visit: Option<MethodDiff>): seq<MethodDiff>
  {
    if visit.Some? then [visit.value] else []
  }

  /** The pairs collected while visiting `nodes` in order; the first failing node aborts. */
  function CollectAll(ex: Extractor, nodes: seq<Tree>): Result<seq<MethodDiff>, ExtractError>
  {
    if |nodes| == 0 then Ok([])
    else
      var own :- VisitNode(ex, nodes[0]);
      var rest :- CollectAll(ex, nodes[1..]);
      Ok(Own(own) + rest)
  }

  /** The nodes of a list that contribute a pair, in order. */
  function PairedNodes(ex: Extractor, nodes: seq<Tree>): (r: seq<Tree>)
    ensures forall k :: 0 <= k < |r| ==> Paired(ex, r[k]) && r[k] in nodes
    ensures forall k :: 0 <= k < |nodes| && Paired(ex, nodes[k]) ==> nodes[k] in r
  {
    if |nodes| == 0 then []
    else (if Paired(ex, nodes[0]) then [nodes[0]] else []) + PairedNodes(ex, nodes[1..])
  }

  /**
   * Collection succeeds exactly when every node's own visit does, and then
   * yields one pair per paired node, in visiting order.
   */
  lemma {:induction false} CollectAllSpec(ex: Extractor, nodes: seq<Tree>)
    ensures CollectAll(ex, nodes).Ok? <==> forall i :: 0 <= i < |nodes| ==> VisitNode(ex, nodes[i]).Ok?
    ensures CollectAll(ex, nodes).Ok? ==>
      |CollectAll(ex, nodes).value| == |PairedNodes(ex, nodes)| &&
      forall k :: 0 <= k < |PairedNodes(ex, nodes)| ==>
        Ok(CollectAll(ex, nodes).value[k])
          == NewMethodDiff(ex, PairedNodes(ex, nodes)[k], ex.mappings[PairedNodes(ex, nodes)[k].id])
    decreases |nodes|
  {
    if |nodes| > 0 {
      var rest := nodes[1..];
      CollectAllSpec(ex, rest);
      assert forall i :: 1 <= i < |nodes| ==> nodes[i] == rest[i - 1];
      var r := CollectAll(ex, nodes);
      if r.Ok? {
        var own := VisitNode(ex, nodes[0]).value;
        var tail := CollectAll(ex, rest).value;
        var ps, psRest := PairedNodes(ex, nodes), PairedNodes(ex, rest);
        if own.Some? {
          assert r.value == [own.value] + tail;
          assert ps == [nodes[0]] + psRest;
          forall k | 0 <= k < |ps|
            ensures Ok(r.value[k]) == NewMethodDiff(ex, ps[k], ex.mappings[ps[k].id])
          {
            if k > 0 {
              assert r.value[k] == tail[k - 1] && ps[k] == psRest[k - 1];
            }
          }
        } else {
          assert r.value == tail;
          assert ps == psRest;
        }
      } else if VisitNode(ex, nodes[0]).Ok? {
        assert CollectAll(ex, rest).Err?;
      }
    }
  }

  /** On failure, the error is the one of the first node whose visit fails. */
  lemma {:induction false} CollectAllFirstError(ex: Extractor, nodes: seq<Tree>, k: nat)
    requires k < |nodes| && VisitNode(ex, nodes[k]).Err?
    requires forall j :: 0 <= j < k ==> VisitNode(ex, nodes[j]).Ok?
    ensures CollectAll(ex, nodes) == Err(VisitNode(ex, nodes[k]).error)
    decreases k
  {
    if k > 0 {
      CollectAllFirstError(ex, nodes[1..], k - 1);
    }
  }

  /** Visiting `a` then `b` collects the pairs of `a` followed by those of `b`; the first failure wins. */
  lemma {:induction false} CollectAllAppend(ex: Extractor, a: seq<Tree>, b: seq<Tree>)
    ensures CollectAll(ex, a).Err? ==> CollectAll(ex, a + b) == CollectAll(ex, a)
    ensures CollectAll(ex, a).Ok? && CollectAll(ex, b).Err? ==> CollectAll(ex, a + b) == CollectAll(ex, b)
    ensures CollectAll(ex, a).Ok? && CollectAll(ex, b).Ok? ==>
      CollectAll(ex, a + b) == Ok(CollectAll(ex, a).value + CollectAll(ex, b).value)
    decreases |a|
  {
    if |a| == 0 {
      assert a + b == b;
      if CollectAll(ex, b).Ok? {
        assert [] + CollectAll(ex, b).value == CollectAll(ex, b).value;
      }
    } else {
      assert (a + b)[0] == a[0];
      assert (a + b)[1..] == a[1..] + b;
      CollectAllAppend(ex, a[1..], b);
      if VisitNode(ex, a[0]).Ok? && CollectAll(ex, a[1..]).Ok? && CollectAll(ex, b).Ok? {
        var own := Own(VisitNode(ex, a[0]).value);
        assert own + CollectAll(ex, a[1..]).value + CollectAll(ex, b).value
            == own + (CollectAll(ex, a[1..]).value + CollectAll(ex, b).value);
      }
    }
  }

  /** A subtree's pairs: the node's own pair (if any), then the pairs of its children's subtrees. */
  lemma CollectPreOrder(ex: Extractor, t: Tree)
    ensures VisitNode(ex, t).Err? ==> CollectAll(ex, PreOrder(t)) == Err(VisitNode(ex, t).error)
    ensures VisitNode(ex, t).Ok? && CollectAll(ex, PreOrderForest(t.children)).Err? ==>
      CollectAll(ex, PreOrder(t)) == CollectAll(ex, PreOrderForest(t.children))
    ensures VisitNode(ex, t).Ok? && CollectAll(ex, PreOrderForest(t.children)).Ok? ==>
      CollectAll(ex, PreOrder(t)) == Ok(Own(VisitNode(ex, t).value) + CollectAll(ex, PreOrderForest(t.children)).value)
  {
    assert PreOrder(t)[1..] == PreOrderForest(t.children);
  }

  /** The forest of the first `i + 1` children: that of the first `i`, then child `i`'s subtree. */
  lemma ForestStep(ex: Extractor, cs: seq<Tree>, i: nat)
    requires i < |cs|
    ensures CollectAll(ex, PreOrderForest(cs[..i])).Ok? && CollectAll(ex, PreOrder(cs[i])).Ok? ==>
      CollectAll(ex, PreOrderForest(cs[..i + 1]))
        == Ok(CollectAll(ex, PreOrderForest(cs[..i])).value + CollectAll(ex, PreOrder(cs[i])).value)
    ensures CollectAll(ex, PreOrderForest(cs[..i])).Ok? && CollectAll(ex, PreOrder(cs[i])).Err? ==>
      CollectAll(ex, PreOrderForest(cs[..i + 1])) == CollectAll(ex, PreOrder(cs[i]))
  {
    assert cs[..i + 1] == cs[..i] + [cs[i]];
    PreOrderForestAppend(cs[..i], [cs[i]]);
    assert [cs[i]][1..] == [];
    assert PreOrderForest([cs[i]]) == PreOrder(cs[i]) + [];
    assert PreOrderForest(cs[..i + 1]) == PreOrderForest(cs[..i]) + PreOrder(cs[i]);
    CollectAllAppend(ex, PreOrderForest(cs[..i]), PreOrder(cs[i]));
  }

  /** A failure among the first children is the failure of all of them. */
  lemma ForestPrefixError(ex: Extractor, cs: seq<Tree>, i: nat)
    requires i <= |cs| && CollectAll(ex, PreOrderForest(cs[..i])).Err?
    ensures CollectAll(ex, PreOrderForest(cs)) == CollectAll(ex, PreOrderForest(cs[..i]))
  {
    assert cs == cs[..i] + cs[i..];
    PreOrderForestAppend(cs[..i], cs[i..]);
    CollectAllAppend(ex, PreOrderForest(cs[..i]), PreOrderForest(cs[i..]));
  }

  /** The pairs a whole extraction yields: the prev tree visited in pre-order. */
  function MethodDiffsOf(ex: Extractor): Result<seq<MethodDiff>, ExtractError>
  {
    CollectAll(ex, PreOrder(ex.prevRoot))
  }

  /**
   * Descendants of a paired method are still visited: when a subtree's
   * extraction succeeds, the pairs of each child's subtree appear in it as one
   * block.
   */
  lemma NestedPairsCollected(ex: Extractor, t: Tree, k: nat)
    requires k < |t.children| && CollectAll(ex, PreOrder(t)).Ok?
    ensures CollectAll(ex, PreOrder(t.children[k])).Ok?
    ensures exists pre, post :: CollectAll(ex, PreOrder(t)).value == pre + CollectAll(ex, PreOrder(t.children[k])).value + post
  {
    var nodes := PreOrder(t);
    ChildBlock(t, k);
    var lo, hi := ChildOffset(t, k), ChildOffset(t, k + 1);
    assert nodes == nodes[..lo] + nodes[lo..hi] + nodes[hi..];
    CollectAllAppend(ex, nodes[..lo] + nodes[lo..hi], nodes[hi..]);
    CollectAllAppend(ex, nodes[..lo], nodes[lo..hi]);
    var pre := CollectAll(ex, nodes[..lo]).value;
    var post := CollectAll(ex, nodes[hi..]).value;
    assert CollectAll(ex, nodes).value == pre + CollectAll(ex, PreOrder(t.children[k])).value + post;
  }

  /** `result`, the list the recursion appends to. */
  class DiffList {
    var items: seq<MethodDiff>

    constructor ()
      ensures items == []
    {
      items := [];
    }

    /** `List.add`. */
    method Add(d: MethodDiff)
      modifies this
      ensures items == old(items) + [d]
    {
      items := items + [d];
    }
  }

  /** The node's own step of the recursion: the match lookup and, for a pair of method declarations, the append. */
  method AddOwnPair(ex: Extractor, prev: Tree, result: DiffList) returns (status: Result<(), ExtractError>)
    modifies result
    ensures VisitNode(ex, prev).Err? ==> status == Err(VisitNode(ex, prev).error) && result.items == old(result.items)
    ensures VisitNode(ex, prev).Ok? ==> status.Ok? && result.items == old(result.items) + Own(VisitNode(ex, prev).value)
  {
    if prev.nodeType == METHOD_DECLARATION {
      if prev.id !in ex.mappings {
        return Err(NullMapping(prev.id));
      }
      var updated := ex.mappings[prev.id];
      if updated.nodeType == METHOD_DECLARATION {
        var d := NewMethodDiff(ex, prev, updated);
        if d.Err? {
          return Err(d.error);
        }
        result.Add(d.value);
      }
    }
    return Ok(());
  }

  /**
   * `extractMethodDiffsRecursively`: visits `prev` and then, in order, each
   * child's subtree, appending every pair to `result`; on success `result` has
   * gained exactly the pairs of the subtree's pre-order.
   */
  method ExtractMethodDiffsRecursively(ex: Extractor, prev: Tree, result: DiffList)
    returns (status: Result<(), ExtractError>)
    modifies result
    ensures CollectAll(ex, PreOrder(prev)).Ok? ==>
      status.Ok? && result.items == old(result.items) + CollectAll(ex, PreOrder(prev)).value
    ensures CollectAll(ex, PreOrder(prev)).Err? ==> status == Err(CollectAll(ex, PreOrder(prev)).error)
    decreases prev, 1
  {
    CollectPreOrder(ex, prev);
    status := AddOwnPair(ex, prev, result);
    if status.Ok? {
      status := ExtractChildren(ex, prev.children, result);
    }
  }

  /** The `for` loop of `extractMethodDiffsRecursively`: each child's subtree in turn, stopping at the first failure. */
  method ExtractChildren(ex: Extractor, children: seq<Tree>, result: DiffList)
    returns (status: Result<(), ExtractError>)
    modifies result
    ensures CollectAll(ex, PreOrderForest(children)).Ok? ==>
      status.Ok? && result.items == old(result.items) + CollectAll(ex, PreOrderForest(children)).value
    ensures CollectAll(ex, PreOrderForest(children)).Err? ==> status == Err(CollectAll(ex, PreOrderForest(children)).error)
    decreases children, 0
  {
    var i := 0;
    while i < |children|
      invariant 0 <= i <= |children|
      invariant CollectAll(ex, PreOrderForest(children[..i])).Ok?
      invariant result.items == old(result.items) + CollectAll(ex, PreOrderForest(children[..i])).value
    {
      ForestStep(ex, children, i);
      var st := ExtractMethodDiffsRecursively(ex, children[i], result);
      if st.Err? {
        ForestPrefixError(ex, children, i + 1);
        return st;
      }
      i := i + 1;
    }
    assert children[..i] == children;
    return Ok(());
  }

  /** `extractMethodDiffs`: the pairs of the whole prev tree, in pre-order. */
  method ExtractMethodDiffs(ex: Extractor) returns (r: Result<seq<MethodDiff>, ExtractError>)
    ensures r == MethodDiffsOf(ex)
  {
    var result := new DiffList();
    var status := ExtractMethodDiffsRecursively(ex, ex.prevRoot, result);
    if status.Err? {
      return Err(status.error);
    }
    assert result.items == [] + MethodDiffsOf(ex).value == MethodDiffsOf(ex).value;
    return Ok(result.items);
  }

  // ---------------------------------------------------------------------
  // Writing the pairs
  // ---------------------------------------------------------------------

  /** A path relative to the extractor's root directory, one name per component. */
  type Path = seq<string>

  datatype FileOp = CreateDirectory(path: Path) | WriteFile(path: Path, content: string)

  function PairDir(d: MethodDiff): Path
  {
    [METHOD_PAIRS_DIR, d.methodName]
  }

  /** The path of a file in pair `d`'s directory. */
  function PairFile(d: MethodDiff, name: string): Path
  {
    PairDir(d) + [name]
  }

  /** The three operations of one pair: its directory, then its prev and updated texts. */
  function PairWrites(d: MethodDiff): seq<FileOp>
  {
    [CreateDirectory(PairDir(d)),
     WriteFile(PairFile(d, PREV_METHOD_FILE), d.prev),
     WriteFile(PairFile(d, UPDATED_METHOD_FILE), d.updated)]
  }

  function AllPairWrites(diffs: seq<MethodDiff>): seq<FileOp>
  {
    if |diffs| == 0 then [] else PairWrites(diffs[0]) + AllPairWrites(diffs[1..])
  }

  lemma {:induction false} AllPairWritesAppend(a: seq<MethodDiff>, b: seq<MethodDiff>)
    ensures AllPairWrites(a + b) == AllPairWrites(a) + AllPairWrites(b)
    decreases |a|
  {
    if |a| == 0 {
      assert a + b == b;
    } else {
      assert (a + b)[0] == a[0];
      assert (a + b)[1..] == a[1..] + b;
      AllPairWritesAppend(a[1..], b);
    }
  }

  /** What `saveMethodDiffs` does with the pairs: nothing at all for none, else `method_pairs` and each pair's writes. */
  function SavePlan(diffs: seq<MethodDiff>): seq<FileOp>
  {
    if |diffs| == 0 then [] else [CreateDirectory([METHOD_PAIRS_DIR])] + AllPairWrites(diffs)
  }

  /**
   * `saveMethodDiffs`: the extraction's failure, or the operations it performs
   * in order.
   */
  method SaveMethodDiffs(ex: Extractor) returns (r: Result<seq<FileOp>, ExtractError>)
    ensures MethodDiffsOf(ex).Err? ==> r == Err(MethodDiffsOf(ex).error)
    ensures MethodDiffsOf(ex).Ok? ==> r == Ok(SavePlan(MethodDiffsOf(ex).value))
  {
    var methodDiffs := ExtractMethodDiffs(ex);
    if methodDiffs.Err? {
      return Err(methodDiffs.error);
    }
    var diffs := methodDiffs.value;
    if |diffs| == 0 {
      return Ok([]);
    }
    var currentDir := [METHOD_PAIRS_DIR];
    var plan := [CreateDirectory(currentDir)];
    var i := 0;
    while i < |diffs|
      invariant 0 <= i <= |diffs|
      invariant plan == [CreateDirectory(currentDir)] + AllPairWrites(diffs[..i])
    {
      assert diffs[..i + 1] == diffs[..i] + [diffs[i]];
      AllPairWritesAppend(diffs[..i], [diffs[i]]);
      assert [diffs[i]][1..] == [];
      var dirToWriteFiles := currentDir + [diffs[i].methodName];
      assert dirToWriteFiles == PairDir(diffs[i]);
      plan := plan + [CreateDirectory(dirToWriteFiles),
                      WriteFile(dirToWriteFiles + [PREV_METHOD_FILE], diffs[i].prev),
                      WriteFile(dirToWriteFiles + [UPDATED_METHOD_FILE], diffs[i].updated)];
      i := i + 1;
    }
    assert diffs[..i] == diffs;
    return Ok(plan);
  }

  // ---------------------------------------------------------------------
  // The file system the plan runs against
  // ---------------------------------------------------------------------

  /** Directories and files below the root; the root itself (`[]`) always exists. */
  datatype FileSystem = FileSystem(dirs: set<Path>, files: map<Path, string>)

  /** `FileAlreadyExistsException`, `NoSuchFileException`, and writing onto a directory. */
  datatype IoError = FileAlreadyExists(path: Path) | NoSuchFile(path: Path) | IsADirectory(path: Path)

  predicate HasParentDir(fs: FileSystem, p: Path)
    requires |p| > 0
  {
    |p| == 1 || p[..|p| - 1] in fs.dirs
  }

  /** `Files.createDirectory` (fails on anything existing) and `Files.writeString` (creates or truncates). */
  function Apply(fs: FileSystem, op: FileOp): (r: Result<FileSystem, IoError>)
    ensures r.Ok? ==> fs.dirs <= r.value.dirs
  {
    match op
    case CreateDirectory(p) =>
      if |p| == 0 || p in fs.dirs || p in fs.files then Err(FileAlreadyExists(p))
      else if !HasParentDir(fs, p) then Err(NoSuchFile(p))
      else Ok(fs.(dirs := fs.dirs + {p}))
    case WriteFile(p, content) =>
      if |p| == 0 || p in fs.dirs then Err(IsADirectory(p))
      else if !HasParentDir(fs, p) then Err(NoSuchFile(p))
      else Ok(fs.(files := fs.files[p := content]))
  }

  /** Runs the operations in order; the first failing one throws and stops the rest. */
  function Execute(fs: FileSystem, ops: seq<FileOp>): (r: Result<FileSystem, IoError>)
    ensures r.Ok? ==> fs.dirs <= r.value.dirs
    decreases |ops|
  {
    if |ops| == 0 then Ok(fs)
    else
      var next :- Apply(fs, ops[0]);
      Execute(next, ops[1..])
  }

  lemma {:induction false} ExecuteAppend(fs: FileSystem, a: seq<FileOp>, b: seq<FileOp>)
    ensures Execute(fs, a).Err? ==> Execute(fs, a + b) == Execute(fs, a)
    ensures Execute(fs, a).Ok? ==> Execute(fs, a + b) == Execute(Execute(fs, a).value, b)
    decreases |a|
  {
    if |a| == 0 {
      assert a + b == b;
    } else {
      assert (a + b)[0] == a[0];
      assert (a + b)[1..] == a[1..] + b;
      if Apply(fs, a[0]).Ok? {
        ExecuteAppend(Apply(fs, a[0]).value, a[1..], b);
      }
    }
  }

  /** No pairs: the file system is left exactly as it was, without even `method_pairs`. */
  lemma NoPairsCreatesNothing(fs: FileSystem)
    ensures Execute(fs, SavePlan([])) == Ok(fs)
  {
  }

  /** Nothing at or below `p` exists yet. */
  ghost predicate Absent(fs: FileSystem, p: Path)
  {
    (forall q :: q in fs.dirs ==> !(p <= q)) && (forall q :: q in fs.files ==> !(p <= q))
  }

  /** The method names are pairwise distinct. */
  ghost predicate DistinctNames(diffs: seq<MethodDiff>)
  {
    forall i, j :: 0 <= i < j < |diffs| ==> diffs[i].methodName != diffs[j].methodName
  }

  /** Path `p` is the same directory, or the same file with the same content, in both. */
  ghost predicate SameAt(a: FileSystem, b: FileSystem, p: Path)
  {
    && (p in a.dirs <==> p in b.dirs)
    && (p in a.files <==> p in b.files)
    && (p in a.files ==> a.files[p] == b.files[p])
  }

  /** Pair `d`'s directory exists and holds its prev and updated texts. */
  ghost predicate HoldsPair(fs: FileSystem, d: MethodDiff)
  {
    && PairDir(d) in fs.dirs
    && PairFile(d, PREV_METHOD_FILE) in fs.files && fs.files[PairFile(d, PREV_METHOD_FILE)] == d.prev
    && PairFile(d, UPDATED_METHOD_FILE) in fs.files && fs.files[PairFile(d, UPDATED_METHOD_FILE)] == d.updated
  }

  /** `p` lies outside the directory of every pair. */
  ghost predicate OutsidePairs(p: Path, diffs: seq<MethodDiff>)
  {
    forall k :: 0 <= k < |diffs| ==> !(PairDir(diffs[k]) <= p)
  }

  /** A path below one pair's directory is outside the directory of a pair with another name. */
  lemma OtherPairDir(d: MethodDiff, e: MethodDiff, p: Path)
    requires d.methodName != e.methodName && PairDir(d) <= p
    ensures !(PairDir(e) <= p)
  {
    assert p[1] == d.methodName;
  }

  /** A pair's directory lies in `method_pairs`. */
  lemma PairDirInMethodPairs(d: MethodDiff, p: Path)
    requires PairDir(d) <= p
    ensures [METHOD_PAIRS_DIR] <= p
  {
    assert p[..1] == [p[0]];
  }

  /** After one pair's writes its directory holds exactly its two texts; every path outside that directory is untouched. */
  lemma PairWritesEffect(fs: FileSystem, d: MethodDiff)
    requires [METHOD_PAIRS_DIR] in fs.dirs && Absent(fs, PairDir(d))
    ensures Execute(fs, PairWrites(d)).Ok?
    ensures HoldsPair(Execute(fs, PairWrites(d)).value, d)
    ensures forall p :: !(PairDir(d) <= p) ==> SameAt(fs, Execute(fs, PairWrites(d)).value, p)
    ensures Execute(fs, PairWrites(d)).value
         == FileSystem(fs.dirs + {PairDir(d)},
                       fs.files[PairFile(d, PREV_METHOD_FILE) := d.prev][PairFile(d, UPDATED_METHOD_FILE) := d.updated])
  {
    var dir := PairDir(d);
    var prevPath, updatedPath := PairFile(d, PREV_METHOD_FILE), PairFile(d, UPDATED_METHOD_FILE);
    assert dir <= dir && dir <= prevPath && dir <= updatedPath;
    assert dir[..1] == [METHOD_PAIRS_DIR] && prevPath[..2] == dir && updatedPath[..2] == dir;
    assert dir !in fs.dirs && dir !in fs.files;
    var fs1 := fs.(dirs := fs.dirs + {dir});
    assert Apply(fs, CreateDirectory(dir)) == Ok(fs1);
    assert prevPath !in fs1.dirs;
    var fs2 := fs1.(files := fs1.files[prevPath := d.prev]);
    assert Apply(fs1, WriteFile(prevPath, d.prev)) == Ok(fs2);
    assert updatedPath !in fs2.dirs;
    var fs3 := fs2.(files := fs2.files[updatedPath := d.updated]);
    assert Apply(fs2, WriteFile(updatedPath, d.updated)) == Ok(fs3);
    var ops := PairWrites(d);
    assert ops[1..][1..][1..] == [];
    assert Execute(fs2, ops[1..][1..]) == Ok(fs3);
    assert Execute(fs1, ops[1..]) == Ok(fs3);
  }

  /** The directories and files other pairs find after pair `d` was written. */
  lemma AbsentAfterPair(fs: FileSystem, d: MethodDiff, e: MethodDiff)
    requires [METHOD_PAIRS_DIR] in fs.dirs && Absent(fs, PairDir(d)) && Absent(fs, PairDir(e))
    requires d.methodName != e.methodName
    ensures Execute(fs, PairWrites(d)).Ok? && Absent(Execute(fs, PairWrites(d)).value, PairDir(e))
  {
    PairWritesEffect(fs, d);
    var after := Execute(fs, PairWrites(d)).value;
    forall q | q in after.dirs || q in after.files
      ensures !(PairDir(e) <= q)
    {
      if PairDir(d) <= q {
        OtherPairDir(d, e, q);
      } else {
        assert SameAt(fs, after, q);
      }
    }
  }

  /**
   * With distinct names and nothing yet under their directories, every pair's
   * writes succeed: each directory holds that pair's texts, and every path
   * outside those directories is untouched.
   */
  lemma {:induction false} AllPairWritesEffect(fs: FileSystem, diffs: seq<MethodDiff>)
    requires [METHOD_PAIRS_DIR] in fs.dirs && DistinctNames(diffs)
    requires forall k :: 0 <= k < |diffs| ==> Absent(fs, PairDir(diffs[k]))
    ensures Execute(fs, AllPairWrites(diffs)).Ok?
    ensures forall k :: 0 <= k < |diffs| ==> HoldsPair(Execute(fs, AllPairWrites(diffs)).value, diffs[k])
    ensures forall p :: OutsidePairs(p, diffs) ==> SameAt(fs, Execute(fs, AllPairWrites(diffs)).value, p)
    decreases |diffs|
  {
    if |diffs| > 0 {
      var d, rest := diffs[0], diffs[1..];
      PairWritesEffect(fs, d);
      var mid := Execute(fs, PairWrites(d)).value;
      ExecuteAppend(fs, PairWrites(d), AllPairWrites(rest));
      forall k | 0 <= k < |rest|
        ensures Absent(mid, PairDir(rest[k]))
      {
        assert rest[k] == diffs[k + 1];
        AbsentAfterPair(fs, d, rest[k]);
      }
      assert DistinctNames(rest) by {
        forall i, j | 0 <= i < j < |rest|
          ensures rest[i].methodName != rest[j].methodName
        {
          assert rest[i] == diffs[i + 1] && rest[j] == diffs[j + 1];
        }
      }
      AllPairWritesEffect(mid, rest);
      var after := Execute(mid, AllPairWrites(rest)).value;
      assert Execute(fs, AllPairWrites(diffs)) == Ok(after);
      forall p | PairDir(d) <= p
        ensures OutsidePairs(p, rest)
      {
        forall k | 0 <= k < |rest|
          ensures !(PairDir(rest[k]) <= p)
        {
          assert rest[k] == diffs[k + 1];
          OtherPairDir(d, rest[k], p);
        }
      }
      assert PairDir(d) <= PairFile(d, PREV_METHOD_FILE) && PairDir(d) <= PairFile(d, UPDATED_METHOD_FILE);
      assert SameAt(mid, after, PairDir(d));
      assert SameAt(mid, after, PairFile(d, PREV_METHOD_FILE));
      assert SameAt(mid, after, PairFile(d, UPDATED_METHOD_FILE));
      assert HoldsPair(after, d);
      forall k | 0 <= k < |diffs|
        ensures HoldsPair(after, diffs[k])
      {
        if k > 0 {
          assert diffs[k] == rest[k - 1];
        }
      }
      forall p | OutsidePairs(p, diffs)
        ensures SameAt(fs, after, p)
      {
        assert !(PairDir(diffs[0]) <= p);
        assert OutsidePairs(p, rest) by {
          forall k | 0 <= k < |rest|
            ensures !(PairDir(rest[k]) <= p)
          {
            assert rest[k] == diffs[k + 1];
          }
        }
      }
    }
  }

  /** `p` is a directory or a file of `fs`. */
  ghost predicate Exists(fs: FileSystem, p: Path)
  {
    p in fs.dirs || p in fs.files
  }

  /** `p` is pair `d`'s directory or one of its two files. */
  ghost predicate PairPath(p: Path, d: MethodDiff)
  {
    p == PairDir(d) || p == PairFile(d, PREV_METHOD_FILE) || p == PairFile(d, UPDATED_METHOD_FILE)
  }

  /** `p` is a path the writes of some pair in `diffs` name. */
  ghost predicate WrittenBy(p: Path, diffs: seq<MethodDiff>)
  {
    exists k :: 0 <= k < |diffs| && PairPath(p, diffs[k])
  }

  /** A successful run adds no directory or file other than the paths its operations name. */
  lemma {:induction false} ExecuteAddsOnlyNamedPaths(fs: FileSystem, ops: seq<FileOp>)
    requires Execute(fs, ops).Ok?
    ensures forall p :: Exists(Execute(fs, ops).value, p) && !Exists(fs, p) ==>
      exists j :: 0 <= j < |ops| && ops[j].path == p
    decreases |ops|
  {
    if |ops| > 0 {
      var next := Apply(fs, ops[0]).value;
      ExecuteAddsOnlyNamedPaths(next, ops[1..]);
      forall p | Exists(Execute(fs, ops).value, p) && !Exists(fs, p)
        ensures exists j :: 0 <= j < |ops| && ops[j].path == p
      {
        if Exists(next, p) {
          assert ops[0].path == p;
        } else {
          var j :| 0 <= j < |ops[1..]| && ops[1..][j].path == p;
          assert ops[j + 1].path == p;
        }
      }
    }
  }

  /** All pairs' writes, when they succeed, add only the pairs' directories and files. */
  lemma {:induction false} AllPairWritesOnlyPairPaths(fs: FileSystem, diffs: seq<MethodDiff>)
    requires Execute(fs, AllPairWrites(diffs)).Ok?
    ensures forall p :: Exists(Execute(fs, AllPairWrites(diffs)).value, p) && !Exists(fs, p) ==> WrittenBy(p, diffs)
    decreases |diffs|
  {
    if |diffs| > 0 {
      var d, rest := diffs[0], diffs[1..];
      ExecuteAppend(fs, PairWrites(d), AllPairWrites(rest));
      var mid := Execute(fs, PairWrites(d)).value;
      ExecuteAddsOnlyNamedPaths(fs, PairWrites(d));
      AllPairWritesOnlyPairPaths(mid, rest);
      forall p | Exists(Execute(fs, AllPairWrites(diffs)).value, p) && !Exists(fs, p)
        ensures WrittenBy(p, diffs)
      {
        if Exists(mid, p) {
          var j :| 0 <= j < 3 && PairWrites(d)[j].path == p;
          assert PairPath(p, diffs[0]);
        } else {
          var k :| 0 <= k < |rest| && PairPath(p, rest[k]);
          assert rest[k] == diffs[k + 1];
        }
      }
    }
  }

  /** A name `Path.resolve` treats as one new component: not empty, not `.` or `..`, and without `/`. */
  ghost predicate PlainName(name: string)
  {
    |name| > 0 && name != "." && name != ".." && '/' !in name
  }

  /**
   * With no `method_pairs` yet and distinct method names, saving succeeds:
   * `method_pairs/<name>/` holds each pair's prev and updated texts, and
   * nothing outside `method_pairs` changes.
   */
  lemma SaveSucceeds(fs: FileSystem, diffs: seq<MethodDiff>)
    requires |diffs| > 0 && Absent(fs, [METHOD_PAIRS_DIR]) && DistinctNames(diffs)
    requires forall k :: 0 <= k < |diffs| ==> PlainName(diffs[k].methodName)
    ensures Execute(fs, SavePlan(diffs)).Ok?
    ensures forall k :: 0 <= k < |diffs| ==> HoldsPair(Execute(fs, SavePlan(diffs)).value, diffs[k])
    ensures forall p :: !([METHOD_PAIRS_DIR] <= p) ==> SameAt(fs, Execute(fs, SavePlan(diffs)).value, p)
    ensures forall p :: [METHOD_PAIRS_DIR] <= p && Exists(Execute(fs, SavePlan(diffs)).value, p) ==>
      p == [METHOD_PAIRS_DIR] || WrittenBy(p, diffs)
  {
    var mp: Path := [METHOD_PAIRS_DIR];
    assert mp <= mp;
    assert mp !in fs.dirs && mp !in fs.files;
    var fs1 := fs.(dirs := fs.dirs + {mp});
    assert Apply(fs, CreateDirectory(mp)) == Ok(fs1);
    assert SavePlan(diffs) == [CreateDirectory(mp)] + AllPairWrites(diffs);
    ExecuteAppend(fs, [CreateDirectory(mp)], AllPairWrites(diffs));
    assert [CreateDirectory(mp)][1..] == [];
    assert Execute(fs, [CreateDirectory(mp)]) == Ok(fs1);
    forall k | 0 <= k < |diffs|
      ensures Absent(fs1, PairDir(diffs[k]))
    {
      forall q | q in fs1.dirs || q in fs1.files
        ensures !(PairDir(diffs[k]) <= q)
      {
        if PairDir(diffs[k]) <= q {
          PairDirInMethodPairs(diffs[k], q);
        }
      }
    }
    AllPairWritesEffect(fs1, diffs);
    var after := Execute(fs1, AllPairWrites(diffs)).value;
    forall p | !(mp <= p)
      ensures SameAt(fs, after, p)
    {
      assert OutsidePairs(p, diffs) by {
        forall k | 0 <= k < |diffs|
          ensures !(PairDir(diffs[k]) <= p)
        {
          if PairDir(diffs[k]) <= p {
            PairDirInMethodPairs(diffs[k], p);
          }
        }
      }
      assert SameAt(fs1, after, p);
    }
    AllPairWritesOnlyPairPaths(fs1, diffs);
    forall p | mp <= p && Exists(after, p)
      ensures p == mp || WrittenBy(p, diffs)
    {
      if Exists(fs1, p) {
        assert !Exists(fs, p);
      }
    }
  }

  /** Writing a pair whose directory already exists fails at once, whatever follows. */
  lemma {:induction false} ExistingPairDirFails(fs: FileSystem, diffs: seq<MethodDiff>, k: nat)
    requires k < |diffs| && PairDir(diffs[k]) in fs.dirs
    ensures Execute(fs, AllPairWrites(diffs)).Err?
    decreases k
  {
    var d, rest := diffs[0], diffs[1..];
    ExecuteAppend(fs, PairWrites(d), AllPairWrites(rest));
    if k == 0 {
      assert Apply(fs, CreateDirectory(PairDir(d))).Err?;
    } else if Execute(fs, PairWrites(d)).Ok? {
      assert rest[k - 1] == diffs[k];
      ExistingPairDirFails(Execute(fs, PairWrites(d)).value, rest, k - 1);
    }
  }

  /** A pair's writes that succeed leave its directory in place. */
  lemma PairWritesCreateDir(fs: FileSystem, d: MethodDiff)
    requires Execute(fs, PairWrites(d)).Ok?
    ensures PairDir(d) in Execute(fs, PairWrites(d)).value.dirs
  {
    var next := Apply(fs, CreateDirectory(PairDir(d)));
    assert next.Ok? && PairDir(d) in next.value.dirs;
    assert Execute(fs, PairWrites(d)) == Execute(next.value, PairWrites(d)[1..]);
  }

  lemma {:induction false} DuplicateNameFails(fs: FileSystem, diffs: seq<MethodDiff>, i: nat, j: nat)
    requires i < j < |diffs| && diffs[i].methodName == diffs[j].methodName
    ensures Execute(fs, AllPairWrites(diffs)).Err?
    decreases i
  {
    var d, rest := diffs[0], diffs[1..];
    ExecuteAppend(fs, PairWrites(d), AllPairWrites(rest));
    if Execute(fs, PairWrites(d)).Ok? {
      var mid := Execute(fs, PairWrites(d)).value;
      assert rest[j - 1] == diffs[j];
      if i == 0 {
        PairWritesCreateDir(fs, d);
        assert PairDir(rest[j - 1]) == PairDir(d);
        ExistingPairDirFails(mid, rest, j - 1);
      } else {
        assert rest[i - 1] == diffs[i];
        DuplicateNameFails(mid, rest, i - 1, j - 1);
      }
    }
  }

  /** Two pairs with the same method name (overloads, say) make saving fail: the second directory already exists. */
  lemma SaveFailsOnDuplicateName(fs: FileSystem, diffs: seq<MethodDiff>, i: nat, j: nat)
    requires i < j < |diffs| && diffs[i].methodName == diffs[j].methodName
    ensures Execute(fs, SavePlan(diffs)).Err?
  {
    var mp: Path := [METHOD_PAIRS_DIR];
    assert SavePlan(diffs) == [CreateDirectory(mp)] + AllPairWrites(diffs);
    ExecuteAppend(fs, [CreateDirectory(mp)], AllPairWrites(diffs));
    if Execute(fs, [CreateDirectory(mp)]).Ok? {
      DuplicateNameFails(Execute(fs, [CreateDirectory(mp)]).value, diffs, i, j);
    }
  }

  /** A `method_pairs` left over from an earlier run makes saving fail before anything is written. */
  lemma SaveFailsOnExistingMethodPairs(fs: FileSystem, diffs: seq<MethodDiff>)
    requires |diffs| > 0 && [METHOD_PAIRS_DIR] in fs.dirs
    ensures Execute(fs, SavePlan(diffs)) == Err(FileAlreadyExists([METHOD_PAIRS_DIR]))
  {
  }
}
