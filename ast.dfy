/**
  The syntax tree the transform rewrites. As in the parser's own tree, one
  node type covers expressions, statements and class members; each
  constructor is named after the node type it stands for. Names in binding or
  property position (declarator ids, parameter names, non-computed member
  properties, class keys) are plain strings, so an `Identifier` node always
  stands in a referencing position.
 */
module Ast {

  datatype Option<+T> = None | Some(value: T)

  /** `var`, `let` or `const`. */
  datatype DeclarationKind = Var | Let | Const

  /** The `kind` of a class method. */
  datatype MethodKind = Constructor | Method | Get | Set

  /** A function parameter: a plain binding `name` or a rest element `...name`. */
  datatype Param = Param(name: string, isRest: bool)

  datatype Node =
    // expressions
    | Identifier(name: string)
    | ThisExpression
    | StringLiteral(literal: string)
    | MetaProperty(meta: string, property: string)
    | MemberExpression(receiver: Node, property: string)
    | CallExpression(callee: Node, arguments: seq<Node>)
    | SpreadElement(argument: Node)
    | AwaitExpression(argument: Node)
    | UnaryExpression(operator: string, argument: Node)
    | BinaryExpression(operator: string, left: Node, right: Node)
    | AssignmentExpression(left: Node, right: Node, replaced: bool)
    | ArrowFunctionExpression(params: seq<Param>, body: Node, isAsync: bool)
    | FunctionExpression(id: Option<string>, params: seq<Param>, body: Node, isAsync: bool)
    | ClassExpression(id: Option<string>, superClass: Option<Node>, members: seq<Node>)
    // statements and declarations
    | ExpressionStatement(expression: Node)
    | BlockStatement(statements: seq<Node>)
    | ReturnStatement(returned: Option<Node>)
    | IfStatement(test: Node, consequent: Node, alternate: Option<Node>)
    | EmptyStatement
    | VariableDeclaration(declarationKind: DeclarationKind, declarations: seq<Node>)
    | VariableDeclarator(binding: string, init: Option<Node>)
    | FunctionDeclaration(id: Option<string>, params: seq<Param>, body: Node, isAsync: bool)
    | ClassDeclaration(id: Option<string>, superClass: Option<Node>, members: seq<Node>)
    | ExportDefaultDeclaration(declaration: Node)
    // class members
    | ClassProperty(key: string, value: Option<Node>, isStatic: bool)
    | ClassMethod(kind: MethodKind, key: string, params: seq<Param>, body: Node,
                  isAsync: bool, isStatic: bool, replaced: bool)

  /** The node types the parser counts as expressions. */
  predicate IsExpression(n: Node)
  {
    || n.Identifier? || n.ThisExpression? || n.StringLiteral? || n.MetaProperty?
    || n.MemberExpression? || n.CallExpression? || n.AwaitExpression?
    || n.UnaryExpression? || n.BinaryExpression? || n.AssignmentExpression?
    || n.ArrowFunctionExpression? || n.FunctionExpression? || n.ClassExpression?
  }

  /** Is `n` a class, declared or as an expression? */
  predicate IsClass(n: Node)
  {
    n.ClassDeclaration? || n.ClassExpression?
  }

  function OptionalChild(o: Option<Node>): (r: seq<Node>)
    ensures |r| <= 1
    ensures o.Some? ==> r == [o.value]
    ensures o.None? ==> r == []
  {
    if o.Some? then [o.value] else []
  }

  /**
    The child nodes a traversal visits, in the order it visits them: for a
    class, the members come before the superclass, as in the parser's
    visitor keys (`id`, `body`, `superClass`).
   */
  function Children(n: Node): seq<Node>
  {
    match n
    case Identifier(_) => []
    case ThisExpression => []
    case StringLiteral(_) => []
    case MetaProperty(_, _) => []
    case MemberExpression(o, _) => [o]
    case CallExpression(c, args) => [c] + args
    case SpreadElement(a) => [a]
    case AwaitExpression(a) => [a]
    case UnaryExpression(_, a) => [a]
    case BinaryExpression(_, l, r) => [l, r]
    case AssignmentExpression(l, r, _) => [l, r]
    case ArrowFunctionExpression(_, b, _) => [b]
    case FunctionExpression(_, _, b, _) => [b]
    case ClassExpression(_, sc, ms) => ms + OptionalChild(sc)
    case ExpressionStatement(e) => [e]
    case BlockStatement(ss) => ss
    case ReturnStatement(a) => OptionalChild(a)
    case IfStatement(t, c, a) => [t, c] + OptionalChild(a)
    case EmptyStatement => []
    case VariableDeclaration(_, ds) => ds
    case VariableDeclarator(_, init) => OptionalChild(init)
    case FunctionDeclaration(_, _, b, _) => [b]
    case ClassDeclaration(_, sc, ms) => ms + OptionalChild(sc)
    case ExportDefaultDeclaration(d) => [d]
    case ClassProperty(_, v, _) => OptionalChild(v)
    case ClassMethod(_, _, _, b, _, _, _) => [b]
  }

  /** Is `n` a statement or a class member rather than an expression? */
  predicate IsStatementOrMember(n: Node)
  {
    || n.ExpressionStatement? || n.BlockStatement? || n.ReturnStatement? || n.IfStatement?
    || n.EmptyStatement? || n.VariableDeclaration? || n.VariableDeclarator? || n.FunctionDeclaration?
    || n.ClassDeclaration? || n.ExportDefaultDeclaration? || n.ClassProperty? || n.ClassMethod?
  }

  /**
    `n` with its children replaced, in order, by `cs`; everything that is
    not a child node (names, flags, markers) is kept.
   */
  function WithChildren(n: Node, cs: seq<Node>): (r: Node)
    requires |cs| == |Children(n)|
    ensures Children(r) == cs
    ensures r.ThisExpression? == n.ThisExpression?
    ensures r.MemberExpression? == n.MemberExpression?
    ensures r.ArrowFunctionExpression? == n.ArrowFunctionExpression?
    ensures n.MemberExpression? ==> r == MemberExpression(cs[0], n.property)
    ensures n.AssignmentExpression? ==> r == AssignmentExpression(cs[0], cs[1], n.replaced)
    ensures !n.AssignmentExpression? ==> !r.AssignmentExpression?
  {
    if IsStatementOrMember(n) then WithStatementChildren(n, cs) else WithExpressionChildren(n, cs)
  }

  function WithExpressionChildren(n: Node, cs: seq<Node>): (r: Node)
    requires !IsStatementOrMember(n)
    requires |cs| == |Children(n)|
    ensures Children(r) == cs
    ensures !IsStatementOrMember(r) && IsClass(r) == IsClass(n)
    ensures r.ThisExpression? == n.ThisExpression?
    ensures r.MemberExpression? == n.MemberExpression?
    ensures r.ArrowFunctionExpression? == n.ArrowFunctionExpression?
    ensures n.MemberExpression? ==> r == MemberExpression(cs[0], n.property)
    ensures n.AssignmentExpression? ==> r == AssignmentExpression(cs[0], cs[1], n.replaced)
    ensures !n.AssignmentExpression? ==> !r.AssignmentExpression?
  {
    match n
    case Identifier(_) => n
    case ThisExpression => n
    case StringLiteral(_) => n
    case MetaProperty(_, _) => n
    case MemberExpression(_, p) => MemberExpression(cs[0], p)
    case CallExpression(_, _) => CallExpression(cs[0], cs[1..])
    case SpreadElement(_) => SpreadElement(cs[0])
    case AwaitExpression(_) => AwaitExpression(cs[0])
    case UnaryExpression(op, _) => UnaryExpression(op, cs[0])
    case BinaryExpression(op, _, _) => BinaryExpression(op, cs[0], cs[1])
    case AssignmentExpression(_, _, m) => AssignmentExpression(cs[0], cs[1], m)
    case ArrowFunctionExpression(ps, _, a) => ArrowFunctionExpression(ps, cs[0], a)
    case FunctionExpression(id, ps, _, a) => FunctionExpression(id, ps, cs[0], a)
    case ClassExpression(_, _, _) => WithClassChildren(n, cs)
  }

  function WithStatementChildren(n: Node, cs: seq<Node>): (r: Node)
    requires IsStatementOrMember(n)
    requires |cs| == |Children(n)|
    ensures Children(r) == cs
    ensures IsStatementOrMember(r) && IsClass(r) == IsClass(n)
  {
    match n
    case ExpressionStatement(_) => ExpressionStatement(cs[0])
    case BlockStatement(_) => BlockStatement(cs)
    case ReturnStatement(a) => if a.Some? then ReturnStatement(Some(cs[0])) else n
    case IfStatement(_, _, a) => IfStatement(cs[0], cs[1], if a.Some? then Some(cs[2]) else None)
    case EmptyStatement => n
    case VariableDeclaration(k, _) => VariableDeclaration(k, cs)
    case VariableDeclarator(b, init) => if init.Some? then VariableDeclarator(b, Some(cs[0])) else n
    case FunctionDeclaration(id, ps, _, a) => FunctionDeclaration(id, ps, cs[0], a)
    case ClassDeclaration(_, _, _) => WithClassChildren(n, cs)
    case ExportDefaultDeclaration(_) => ExportDefaultDeclaration(cs[0])
    case ClassProperty(k, v, s) => if v.Some? then ClassProperty(k, Some(cs[0]), s) else n
    case ClassMethod(kd, k, ps, _, a, s, m) => ClassMethod(kd, k, ps, cs[0], a, s, m)
  }

  function WithClassChildren(n: Node, cs: seq<Node>): (r: Node)
    requires IsClass(n)
    requires |cs| == |Children(n)|
    ensures Children(r) == cs
    ensures r.ClassDeclaration? == n.ClassDeclaration? && r.ClassExpression? == n.ClassExpression?
  {
    var k := |n.members|;
    var members := cs[..k];
    var superClass := if n.superClass.Some? then Some(cs[k]) else None;
    assert members + OptionalChild(superClass) == cs;
    if n.ClassDeclaration? then ClassDeclaration(n.id, superClass, members)
    else ClassExpression(n.id, superClass, members)
  }

  lemma WithOwnChildren(n: Node)
    ensures WithChildren(n, Children(n)) == n
  {
  }

  /** Replacing the children twice is replacing them once with the second list. */
  lemma WithChildrenTwice(n: Node, cs: seq<Node>, ds: seq<Node>)
    requires |cs| == |Children(n)| && |ds| == |Children(n)|
    ensures WithChildren(WithChildren(n, cs), ds) == WithChildren(n, ds)
  {
    if IsClass(n) {
      var m := WithChildren(n, cs);
      assert m == WithClassChildren(n, cs);
      assert WithChildren(m, ds) == WithClassChildren(m, ds);
      assert WithChildren(n, ds) == WithClassChildren(n, ds);
      WithClassChildrenTwice(n, cs, ds);
    } else if IsStatementOrMember(n) {
      WithStatementChildrenTwice(n, cs, ds);
    } else {
      WithExpressionChildrenTwice(n, cs, ds);
    }
  }

  lemma WithClassChildrenTwice(n: Node, cs: seq<Node>, ds: seq<Node>)
    requires IsClass(n) && |cs| == |Children(n)| && |ds| == |Children(n)|
    ensures WithClassChildren(WithClassChildren(n, cs), ds) == WithClassChildren(n, ds)
  {
  }

  lemma WithStatementChildrenTwice(n: Node, cs: seq<Node>, ds: seq<Node>)
    requires IsStatementOrMember(n) && !IsClass(n) && |cs| == |Children(n)| && |ds| == |Children(n)|
    ensures WithStatementChildren(WithStatementChildren(n, cs), ds) == WithStatementChildren(n, ds)
  {
  }

  lemma WithExpressionChildrenTwice(n: Node, cs: seq<Node>, ds: seq<Node>)
    requires !IsStatementOrMember(n) && !IsClass(n) && |cs| == |Children(n)| && |ds| == |Children(n)|
    ensures WithExpressionChildren(WithExpressionChildren(n, cs), ds) == WithExpressionChildren(n, ds)
  {
  }

  /** Does `x` occur in the tree rooted at `n`, at the root or below it? */
  predicate Occurs(x: Node, n: Node)
  {
    x == n || exists i | 0 <= i < |Children(n)| :: Occurs(x, Children(n)[i])
  }

  function Sum(xs: seq<nat>): nat
  {
    if xs == [] then 0 else xs[0] + Sum(xs[1..])
  }

  lemma {:induction false} SumAppend(xs: seq<nat>, ys: seq<nat>)
    ensures Sum(xs + ys) == Sum(xs) + Sum(ys)
  {
    if xs == [] {
      assert xs + ys == ys;
    } else {
      assert (xs + ys)[1..] == xs[1..] + ys;
      SumAppend(xs[1..], ys);
    }
  }

  /** The number of nodes in the tree rooted at `n`. */
  function Size(n: Node): nat
  {
    1 + Sum(seq(|Children(n)|, i requires 0 <= i < |Children(n)| => Size(Children(n)[i])))
  }

  /** The number of nodes in a forest. */
  function ForestSize(ns: seq<Node>): nat
  {
    Sum(seq(|ns|, i requires 0 <= i < |ns| => Size(ns[i])))
  }

  lemma ForestSizeAppend(xs: seq<Node>, ys: seq<Node>)
    ensures ForestSize(xs + ys) == ForestSize(xs) + ForestSize(ys)
  {
    var a := seq(|xs|, i requires 0 <= i < |xs| => Size(xs[i]));
    var b := seq(|ys|, i requires 0 <= i < |ys| => Size(ys[i]));
    assert seq(|xs + ys|, i requires 0 <= i < |xs + ys| => Size((xs + ys)[i])) == a + b;
    SumAppend(a, b);
  }

  lemma SizeUnfold(n: Node)
    ensures Size(n) == 1 + ForestSize(Children(n))
  {
    var cs := Children(n);
    var a := seq(|Children(n)|, i requires 0 <= i < |Children(n)| => Size(Children(n)[i]));
    var b := seq(|cs|, i requires 0 <= i < |cs| => Size(cs[i]));
    assert a == b;
  }

  lemma ForestSizeCons(n: Node, rest: seq<Node>)
    ensures ForestSize([n] + rest) == Size(n) + ForestSize(rest)
  {
    ForestSizeAppend([n], rest);
    var a := seq(|[n]|, i requires 0 <= i < |[n]| => Size([n][i]));
    assert a == [Size(n)];
    assert Sum(a) == Size(n) + Sum([]);
  }

  lemma {:induction false} SumElement(xs: seq<nat>, i: nat)
    requires i < |xs|
    ensures xs[i] <= Sum(xs)
  {
    if i > 0 {
      SumElement(xs[1..], i - 1);
    }
  }

  /** A child is smaller than its parent: the measure for walks over `Children`. */
  lemma ChildSmaller(n: Node, i: nat)
    requires i < |Children(n)|
    ensures Size(Children(n)[i]) < Size(n)
  {
    var a := seq(|Children(n)|, j requires 0 <= j < |Children(n)| => Size(Children(n)[j]));
    SumElement(a, i);
  }

  /** Concatenation of a sequence of sequences. */
  function Flatten<T>(ss: seq<seq<T>>): seq<T>
  {
    if ss == [] then [] else ss[0] + Flatten(ss[1..])
  }

  /** An element of one part is an element of the concatenation. */
  lemma {:induction false} FlattenContains<T>(ss: seq<seq<T>>, i: nat, x: T)
    requires i < |ss| && x in ss[i]
    ensures x in Flatten(ss)
  {
    if i > 0 {
      FlattenContains(ss[1..], i - 1, x);
    }
  }

  /** Parts related elementwise by `f` concatenate to sequences related elementwise by `f`. */
  lemma {:induction false} FlattenPointwise<T, U>(f: T -> U, parts: seq<seq<T>>, qs: seq<seq<U>>)
    requires |qs| == |parts|
    requires forall i | 0 <= i < |parts| :: |qs[i]| == |parts[i]|
    requires forall i, j | 0 <= i < |parts| && 0 <= j < |parts[i]| :: qs[i][j] == f(parts[i][j])
    ensures |Flatten(qs)| == |Flatten(parts)|
    ensures forall k | 0 <= k < |Flatten(parts)| :: Flatten(qs)[k] == f(Flatten(parts)[k])
  {
    if parts != [] {
      FlattenPointwise(f, parts[1..], qs[1..]);
      forall k | 0 <= k < |Flatten(parts)| ensures Flatten(qs)[k] == f(Flatten(parts)[k]) {
        if k >= |parts[0]| {
          assert Flatten(parts)[k] == Flatten(parts[1..])[k - |parts[0]|];
          assert Flatten(qs)[k] == Flatten(qs[1..])[k - |qs[0]|];
        } else {
          assert Flatten(qs)[k] == qs[0][k];
        }
      }
    }
  }

  /** `f` applied to each element in turn, the results concatenated. */
  function ConcatMap<T, U>(f: T -> seq<U>, xs: seq<T>): seq<U>
  {
    if xs == [] then [] else ConcatMap(f, xs[..|xs| - 1]) + f(xs[|xs| - 1])
  }

  lemma ConcatMapSnoc<T, U>(f: T -> seq<U>, xs: seq<T>, x: T)
    ensures ConcatMap(f, xs + [x]) == ConcatMap(f, xs) + f(x)
  {
    var all := xs + [x];
    assert all[..|all| - 1] == xs;
  }

  lemma ConcatMapSingle<T, U>(f: T -> seq<U>, x: T)
    ensures ConcatMap(f, [x]) == f(x)
  {
    assert [x][..0] == [];
  }

  lemma {:induction false} ConcatMapAppend<T, U>(f: T -> seq<U>, a: seq<T>, b: seq<T>)
    ensures ConcatMap(f, a + b) == ConcatMap(f, a) + ConcatMap(f, b)
    decreases |b|
  {
    if b == [] {
      assert a + b == a;
    } else {
      var init, last := b[..|b| - 1], b[|b| - 1];
      assert b == init + [last];
      assert a + b == (a + init) + [last];
      ConcatMapSnoc(f, a + init, last);
      ConcatMapSnoc(f, init, last);
      ConcatMapAppend(f, a, init);
    }
  }

  /** Elements that `f` maps to themselves alone are left as they are. */
  lemma {:induction false} ConcatMapFixed<T>(f: T -> seq<T>, xs: seq<T>)
    requires forall i | 0 <= i < |xs| :: f(xs[i]) == [xs[i]]
    ensures ConcatMap(f, xs) == xs
  {
    if xs != [] {
      var init := xs[..|xs| - 1];
      assert forall i | 0 <= i < |init| :: init[i] == xs[i];
      ConcatMapFixed(f, init);
      assert xs == init + [xs[|xs| - 1]];
    }
  }

  function Reverse<T>(s: seq<T>): (r: seq<T>)
    ensures |r| == |s|
    ensures forall i | 0 <= i < |s| :: r[i] == s[|s| - 1 - i]
  {
    if s == [] then [] else Reverse(s[1..]) + [s[0]]
  }
}
