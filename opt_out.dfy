/**
  The opt-out visitor of the class-member rewrite (src/babel/index.ts:60-76)
  and the walk that runs it over one class property (line 229). Inside an
  arrow function `arguments` and `new.target` mean those of the enclosing
  function; inside a method they would mean the method's own, so a property
  whose subtree mentions either anywhere is never lifted.
 */
module OptOut {
  import opened Ast

  /** The two visitor cases: the meta-property `new.target`, or a reference to `arguments`. */
  predicate IsOptOutNode(n: Node)
  {
    || (n.MetaProperty? && n.meta == "new" && n.property == "target")
    || (n.Identifier? && n.name == "arguments")
  }

  /**
    The visitor's cases on small trees: `new.target` and `arguments` opt out;
    `this.arguments` is a member access, and neither `new.foo` nor
    `import.meta` is `new.target`, so none of those does.
   */
  lemma OptOutExamples()
    ensures IsOptOutNode(MetaProperty("new", "target"))
    ensures IsOptOutNode(Identifier("arguments"))
    ensures !IsOptOutNode(MemberExpression(ThisExpression, "arguments"))
    ensures ContainsOptOut(MemberExpression(Identifier("arguments"), "length"))
    ensures !ContainsOptOut(MemberExpression(ThisExpression, "arguments"))
    ensures !IsOptOutNode(MetaProperty("new", "foo")) && !IsOptOutNode(MetaProperty("import", "meta"))
    ensures !IsOptOutNode(Identifier("args"))
  {
    assert Children(MemberExpression(Identifier("arguments"), "length"))[0] == Identifier("arguments");
    assert Children(MemberExpression(ThisExpression, "arguments")) == [ThisExpression];
  }

  /** Does the tree rooted at `n` contain an opt-out node anywhere? */
  predicate ContainsOptOut(n: Node)
  {
    || IsOptOutNode(n)
    || exists i | 0 <= i < |Children(n)| :: ContainsOptOut(Children(n)[i])
  }

  /**
    Does a node strictly below `n` opt out? A traversal started at a path
    visits the descendants of its node, not the node itself.
   */
  predicate DescendantOptsOut(n: Node)
  {
    exists i | 0 <= i < |Children(n)| :: ContainsOptOut(Children(n)[i])
  }

  lemma WorklistStepForward(n: Node, rest: seq<Node>, i: nat)
    requires i < |[n] + rest| && ContainsOptOut(([n] + rest)[i])
    ensures IsOptOutNode(n) || exists j | 0 <= j < |Children(n) + rest| :: ContainsOptOut((Children(n) + rest)[j])
  {
    var next := Children(n) + rest;
    if i > 0 {
      assert next[|Children(n)| + i - 1] == rest[i - 1];
    } else if !IsOptOutNode(n) {
      var j :| 0 <= j < |Children(n)| && ContainsOptOut(Children(n)[j]);
      assert next[j] == Children(n)[j];
    }
  }

  lemma WorklistStepBackward(n: Node, rest: seq<Node>, i: nat)
    requires i < |Children(n) + rest| && ContainsOptOut((Children(n) + rest)[i])
    ensures exists j | 0 <= j < |[n] + rest| :: ContainsOptOut(([n] + rest)[j])
  {
    var work, next := [n] + rest, Children(n) + rest;
    if i < |Children(n)| {
      assert Children(n)[i] == next[i];
      assert ContainsOptOut(work[0]);
    } else {
      assert work[i - |Children(n)| + 1] == next[i];
    }
  }

  /** Visiting the head of a worklist and replacing it by its children keeps what remains to be found. */
  lemma WorklistStep(n: Node, rest: seq<Node>)
    ensures (exists i | 0 <= i < |[n] + rest| :: ContainsOptOut(([n] + rest)[i]))
        <==> IsOptOutNode(n) || exists i | 0 <= i < |Children(n) + rest| :: ContainsOptOut((Children(n) + rest)[i])
  {
    var work, next := [n] + rest, Children(n) + rest;
    if i :| 0 <= i < |work| && ContainsOptOut(work[i]) {
      WorklistStepForward(n, rest, i);
    }
    if IsOptOutNode(n) {
      assert ContainsOptOut(work[0]);
    }
    if i :| 0 <= i < |next| && ContainsOptOut(next[i]) {
      WorklistStepBackward(n, rest, i);
    }
  }

  /**
    `path.traverse(classPropertyOptOutVistor, state)`: a depth-first walk over
    the descendants of `root` that sets `optOut` whenever it visits an opt-out
    node. Like the traversal, it does not stop once the flag is set.
   */
  method ScanOptOut(root: Node) returns (optOut: bool)
    ensures optOut == DescendantOptsOut(root)
  {
    optOut := false;
    var work := Children(root);
    while work != []
      invariant DescendantOptsOut(root) <==> optOut || exists i | 0 <= i < |work| :: ContainsOptOut(work[i])
      decreases ForestSize(work)
    {
      var n := work[0];
      if IsOptOutNode(n) {
        optOut := true;
      }
      var next := Children(n) + work[1..];
      assert work == [n] + work[1..];
      ForestSizeCons(n, work[1..]);
      SizeUnfold(n);
      ForestSizeAppend(Children(n), work[1..]);
      WorklistStep(n, work[1..]);
      work := next;
    }
  }
}
