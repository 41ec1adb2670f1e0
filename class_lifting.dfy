/**
  The `Class` visitor (src/babel/index.ts:212-324). It walks the members of
  one class body. A non-static property whose value is a synchronous arrow
  function, and that mentions neither `arguments` nor `new.target`, is split
  into a forwarding property and a new method `__<key>__RLYEH__` placed
  directly after it. In a constructor, every `this.<key> = <arrow>`
  assignment anywhere in its body is replaced by a forwarding assignment and
  its arrow becomes a method placed directly after the constructor; both
  carry the replaced marker so that a later walk leaves them alone.
 */
module ClassLifting {
  import opened Ast
  import opened Templates
  import opened OptOut

  // ---------------------------------------------------------------------------
  // Constructor form (lines 276-321)
  // ---------------------------------------------------------------------------

  /** `this.<key> = <arrow>` without the replaced marker (lines 279-284). */
  predicate IsLiftableAssignment(n: Node)
  {
    && n.AssignmentExpression? && !n.replaced
    && n.left.MemberExpression? && n.left.receiver.ThisExpression?
    && n.right.ArrowFunctionExpression?
  }

  /** Does a liftable assignment occur anywhere in the tree rooted at `n`? */
  predicate HasLiftableAssignment(n: Node)
  {
    || IsLiftableAssignment(n)
    || exists i | 0 <= i < |Children(n)| :: HasLiftableAssignment(Children(n)[i])
  }

  /** The forwarding assignment that replaces a liftable assignment (lines 311-318). */
  function AssignmentShim(a: Node): Node
    requires IsLiftableAssignment(a)
  {
    BuildNewAssignmentExpression(a.left.property, LiftedMethodName(a.left.property), a.right.isAsync)
  }

  /** The arrow `f` with its body as a block, as a lifted method holds it. */
  function NormalizedArrow(f: Node): Node
    requires f.ArrowFunctionExpression?
  {
    ArrowFunctionExpression(f.params, NormalizedBody(f.body), f.isAsync)
  }

  /** The method lifted out of a liftable assignment, async as its arrow and marked (lines 288-307). */
  function AssignmentMethod(a: Node): Node
    requires IsLiftableAssignment(a)
  {
    BuildLiftedMethod(LiftedMethodName(a.left.property), a.right.params, a.right.body, a.right.isAsync, true)
  }

  lemma ShimHasNoLiftableAssignment(key: string, name: string, isAsync: bool)
    ensures !HasLiftableAssignment(BuildNewAssignmentExpression(key, name, isAsync))
  {
    var member := MemberExpression(ThisExpression, name);
    var spread := SpreadElement(Identifier(ShimParam));
    var call := CallExpression(member, [spread]);
    assert !HasLiftableAssignment(ThisExpression);
    assert !HasLiftableAssignment(Identifier(ShimParam));
    assert Children(member) == [ThisExpression];
    assert !HasLiftableAssignment(member);
    assert !HasLiftableAssignment(spread);
    assert Children(call) == [member, spread];
    assert !HasLiftableAssignment(call);
    assert !HasLiftableAssignment(AwaitExpression(call));
    assert !HasLiftableAssignment(ForwardingArrow(name, isAsync));
    assert !HasLiftableAssignment(MemberExpression(ThisExpression, key));
  }

  /**
    The constructor body after the walk of lines 277-321: each liftable
    assignment is replaced by its forwarding assignment, whose children hold
    nothing to lift, so the walk does not go further into it; every other
    node keeps its place with its children rewritten. Afterwards nothing is
    left to lift.
   */
  function RewriteAssignments(n: Node): (r: Node)
    ensures !HasLiftableAssignment(r)
    ensures r.ThisExpression? == n.ThisExpression?
    ensures r.MemberExpression? == n.MemberExpression?
    ensures n.MemberExpression? ==> r.receiver.ThisExpression? == n.receiver.ThisExpression?
    ensures r.ArrowFunctionExpression? == n.ArrowFunctionExpression?
  {
    if IsLiftableAssignment(n) then
      ShimHasNoLiftableAssignment(n.left.property, LiftedMethodName(n.left.property), n.right.isAsync);
      AssignmentShim(n)
    else
      var cs := seq(|Children(n)|, i requires 0 <= i < |Children(n)| => RewriteAssignments(Children(n)[i]));
      var r := WithChildren(n, cs);
      assert forall i | 0 <= i < |Children(r)| :: !HasLiftableAssignment(Children(r)[i]);
      r
  }

  lemma FlattenMember<T>(ss: seq<seq<T>>, x: T)
    requires x in Flatten(ss)
    ensures exists i | 0 <= i < |ss| :: x in ss[i]
  {
    if x !in ss[0] {
      FlattenMember(ss[1..], x);
      var i :| 0 <= i < |ss[1..]| && x in ss[1..][i];
      assert x in ss[i + 1];
    }
  }

  lemma FlattenEmpty<T>(ss: seq<seq<T>>)
    requires forall i | 0 <= i < |ss| :: ss[i] == []
    ensures Flatten(ss) == []
  {
    if ss != [] {
      FlattenEmpty(ss[1..]);
    }
  }

  /**
    The sites of the walk of lines 277-321: the liftable assignments it
    meets, in traversal order. It does not look inside a site, which it
    replaces by its forwarding assignment.
   */
  function Sites(n: Node): (sites: seq<Node>)
    ensures forall a | a in sites :: IsLiftableAssignment(a)
  {
    if IsLiftableAssignment(n) then [n]
    else
      var parts := seq(|Children(n)|, i requires 0 <= i < |Children(n)| => Sites(Children(n)[i]));
      forall a | a in Flatten(parts) ensures IsLiftableAssignment(a) {
        FlattenMember(parts, a);
      }
      Flatten(parts)
  }

  /** Every site is an assignment of the tree walked. */
  lemma {:induction false} SitesOccur(n: Node, a: Node)
    requires a in Sites(n)
    ensures Occurs(a, n)
    decreases Size(n)
  {
    if !IsLiftableAssignment(n) {
      var j := SiteInChild(n, a);
      ChildSmaller(n, j);
      SitesOccur(Children(n)[j], a);
    }
  }

  /**
    The walk misses no liftable assignment: each one in the tree is a site
    or lies inside one, whose arrow the walk turns into a method.
   */
  lemma {:induction false} SitesComplete(n: Node, a: Node)
    requires Occurs(a, n) && IsLiftableAssignment(a)
    ensures exists s | s in Sites(n) :: Occurs(a, s)
    decreases Size(n)
  {
    if !IsLiftableAssignment(n) {
      var i :| 0 <= i < |Children(n)| && Occurs(a, Children(n)[i]);
      ChildSmaller(n, i);
      SitesComplete(Children(n)[i], a);
      var s :| s in Sites(Children(n)[i]) && Occurs(a, s);
      var parts := seq(|Children(n)|, j requires 0 <= j < |Children(n)| => Sites(Children(n)[j]));
      FlattenContains(parts, i, s);
      assert Sites(n) == Flatten(parts);
    }
  }

  /** A site below a node that is not one itself is a site of one of its children. */
  lemma SiteInChild(n: Node, a: Node) returns (j: nat)
    requires !IsLiftableAssignment(n) && a in Sites(n)
    ensures j < |Children(n)| && a in Sites(Children(n)[j])
  {
    var parts := seq(|Children(n)|, i requires 0 <= i < |Children(n)| => Sites(Children(n)[i]));
    FlattenMember(parts, a);
    var i :| 0 <= i < |parts| && a in parts[i];
    j := i;
  }

  /** The method lifted from each site, in the order of the sites. */
  function MethodsOf(sites: seq<Node>): (ms: seq<Node>)
    requires forall a | a in sites :: IsLiftableAssignment(a)
    ensures |ms| == |sites|
    ensures forall i | 0 <= i < |sites| :: ms[i] == AssignmentMethod(sites[i])
  {
    if sites == [] then [] else [AssignmentMethod(sites[0])] + MethodsOf(sites[1..])
  }

  lemma MethodsOfAppend(a: seq<Node>, b: seq<Node>)
    requires forall x | x in a + b :: IsLiftableAssignment(x)
    ensures MethodsOf(a + b) == MethodsOf(a) + MethodsOf(b)
  {
    var l, r := MethodsOf(a + b), MethodsOf(a) + MethodsOf(b);
    forall i | 0 <= i < |l| ensures l[i] == r[i] {
      if i >= |a| {
        assert (a + b)[i] == b[i - |a|];
      }
    }
  }

  /** Lifting the sites part by part and flattening gives the methods of the flattened sites. */
  lemma {:induction false} MethodsOfFlatten(parts: seq<seq<Node>>, ss: seq<seq<Node>>)
    requires forall i, a | 0 <= i < |parts| && a in parts[i] :: IsLiftableAssignment(a)
    requires |ss| == |parts| && forall i | 0 <= i < |parts| :: ss[i] == MethodsOf(parts[i])
    ensures forall a | a in Flatten(parts) :: IsLiftableAssignment(a)
    ensures Flatten(ss) == MethodsOf(Flatten(parts))
  {
    forall a | a in Flatten(parts) ensures IsLiftableAssignment(a) {
      FlattenMember(parts, a);
    }
    if parts != [] {
      MethodsOfFlatten(parts[1..], ss[1..]);
      MethodsOfAppend(parts[0], Flatten(parts[1..]));
    }
  }

  /**
    The methods the walk of lines 277-321 creates, in the order it meets the
    assignments.
   */
  function LiftedMethods(n: Node): (ms: seq<Node>)
    ensures forall m | m in ms ::
      && m.ClassMethod? && m.kind == Method && m.replaced && !m.isStatic
      && LiftedKey(m.key).Some? && m.body.BlockStatement?
  {
    if IsLiftableAssignment(n) then
      [AssignmentMethod(n)]
    else
      var ss := seq(|Children(n)|, i requires 0 <= i < |Children(n)| => LiftedMethods(Children(n)[i]));
      var ms := Flatten(ss);
      forall m | m in ms
        ensures && m.ClassMethod? && m.kind == Method && m.replaced && !m.isStatic
                && LiftedKey(m.key).Some? && m.body.BlockStatement?
      {
        FlattenMember(ss, m);
      }
      ms
  }

  /**
    The walk creates exactly one method per site, in the order of the
    sites, and it is the one lifted from that site: it holds the site's
    parameters, body and async flag under the site's marked name.
   */
  lemma {:induction false} LiftedMethodsPerSite(n: Node)
    ensures LiftedMethods(n) == MethodsOf(Sites(n))
  {
    if !IsLiftableAssignment(n) {
      var parts := seq(|Children(n)|, i requires 0 <= i < |Children(n)| => Sites(Children(n)[i]));
      var ss := seq(|Children(n)|, i requires 0 <= i < |Children(n)| => LiftedMethods(Children(n)[i]));
      forall i | 0 <= i < |Children(n)| ensures ss[i] == MethodsOf(parts[i]) {
        LiftedMethodsPerSite(Children(n)[i]);
      }
      MethodsOfFlatten(parts, ss);
    }
  }

  /** The forwarding assignment of a site stands in the rewritten tree. */
  lemma {:induction false} ShimInRewrite(n: Node, a: Node)
    requires a in Sites(n)
    ensures Occurs(AssignmentShim(a), RewriteAssignments(n))
    decreases Size(n)
  {
    if !IsLiftableAssignment(n) {
      var j := SiteInChild(n, a);
      var child := Children(n)[j];
      ChildSmaller(n, j);
      ShimInRewrite(child, a);
      var cs := seq(|Children(n)|, i requires 0 <= i < |Children(n)| => RewriteAssignments(Children(n)[i]));
      var r := WithChildren(n, cs);
      assert RewriteAssignments(n) == r;
      assert Children(r)[j] == RewriteAssignments(child);
    }
  }

  /**
    Every forwarding assignment left in the constructor calls a method the
    walk created under the name it forwards to: the site at index `i`
    becomes the shim calling `LiftedMethods(n)[i]`.
   */
  lemma ShimsCallLiftedMethods(n: Node, i: nat)
    requires i < |Sites(n)|
    ensures Occurs(AssignmentShim(Sites(n)[i]), RewriteAssignments(n))
    ensures i < |LiftedMethods(n)|
    ensures var a := Sites(n)[i];
      ShimTarget(AssignmentShim(a).right) == Some(Forward(LiftedMethods(n)[i].key, a.right.isAsync))
  {
    ShimInRewrite(n, Sites(n)[i]);
    LiftedMethodsPerSite(n);
  }

  /** A tree with nothing to lift is left exactly as it was. */
  lemma {:induction false} NothingToRewriteIsFixed(n: Node)
    requires !HasLiftableAssignment(n)
    ensures RewriteAssignments(n) == n
  {
    assert !IsLiftableAssignment(n);
    var cs := seq(|Children(n)|, i requires 0 <= i < |Children(n)| => RewriteAssignments(Children(n)[i]));
    forall i | 0 <= i < |Children(n)| ensures cs[i] == Children(n)[i] {
      NothingToRewriteIsFixed(Children(n)[i]);
    }
    assert cs == Children(n);
    assert RewriteAssignments(n) == WithChildren(n, cs);
    WithOwnChildren(n);
  }

  /** A tree with nothing to lift yields no methods. */
  lemma {:induction false} NothingToLiftYieldsNothing(n: Node)
    requires !HasLiftableAssignment(n)
    ensures LiftedMethods(n) == []
  {
    var ss := seq(|Children(n)|, i requires 0 <= i < |Children(n)| => LiftedMethods(Children(n)[i]));
    forall i | 0 <= i < |Children(n)| ensures ss[i] == [] {
      NothingToLiftYieldsNothing(Children(n)[i]);
    }
    FlattenEmpty(ss);
  }

  /** A second walk over a rewritten constructor body changes nothing and creates nothing. */
  lemma RewriteIdempotent(n: Node)
    ensures RewriteAssignments(RewriteAssignments(n)) == RewriteAssignments(n)
    ensures LiftedMethods(RewriteAssignments(n)) == []
  {
    NothingToRewriteIsFixed(RewriteAssignments(n));
    NothingToLiftYieldsNothing(RewriteAssignments(n));
  }

  /** `this.<key> = <arrow>`, marked or not: the shape the walk tests for. */
  predicate IsArrowAssignment(n: Node)
  {
    && n.AssignmentExpression? && n.left.MemberExpression? && n.left.receiver.ThisExpression?
    && n.right.ArrowFunctionExpression?
  }

  /**
    The tree with the arrow and the marker of every `this.<key> = <arrow>`
    assignment blanked out; everything else, the assigned member included,
    is kept.
   */
  function Mask(n: Node): Node
  {
    if IsArrowAssignment(n) then AssignmentExpression(Mask(n.left), EmptyStatement, false)
    else WithChildren(n, seq(|Children(n)|, i requires 0 <= i < |Children(n)| => Mask(Children(n)[i])))
  }

  /**
    The walk changes nothing but the arrows and markers of the assignments:
    every other node of the constructor body keeps its place, and each
    forwarding assignment stands where its site stood, assigning the same
    member.
   */
  lemma {:induction false} RewriteKeepsRest(n: Node)
    ensures Mask(RewriteAssignments(n)) == Mask(n)
    decreases Size(n)
  {
    if IsLiftableAssignment(n) {
      assert RewriteAssignments(n) == AssignmentShim(n);
      ShimMasksLikeSite(n);
    } else {
      var cs := seq(|Children(n)|, i requires 0 <= i < |Children(n)| => RewriteAssignments(Children(n)[i]));
      assert RewriteAssignments(n) == WithChildren(n, cs);
      forall i | 0 <= i < |Children(n)| ensures Mask(cs[i]) == Mask(Children(n)[i]) {
        ChildSmaller(n, i);
        RewriteKeepsRest(Children(n)[i]);
      }
      MaskOfNewChildren(n, cs);
    }
  }

  /** A site and its forwarding assignment differ only in the arrow and the marker. */
  lemma ShimMasksLikeSite(a: Node)
    requires IsLiftableAssignment(a)
    ensures Mask(AssignmentShim(a)) == Mask(a)
  {
    var shim := AssignmentShim(a);
    assert IsArrowAssignment(shim) && shim.left == a.left;
  }

  /** Children with the same mask, in a node whose arrow-assignment shape they keep, give the same mask. */
  lemma MaskOfNewChildren(n: Node, cs: seq<Node>)
    requires |cs| == |Children(n)|
    requires forall i | 0 <= i < |cs| :: Mask(cs[i]) == Mask(Children(n)[i])
    requires n.AssignmentExpression? ==>
      && cs[0].MemberExpression? == n.left.MemberExpression?
      && (n.left.MemberExpression? ==> cs[0].receiver.ThisExpression? == n.left.receiver.ThisExpression?)
      && cs[1].ArrowFunctionExpression? == n.right.ArrowFunctionExpression?
    ensures Mask(WithChildren(n, cs)) == Mask(n)
  {
    var r := WithChildren(n, cs);
    if IsArrowAssignment(n) {
      assert r == AssignmentExpression(cs[0], cs[1], n.replaced);
      assert Mask(r.left) == Mask(cs[0]) == Mask(n.left);
    } else {
      assert !IsArrowAssignment(r);
      MaskOfOtherNode(n, cs);
    }
  }

  lemma MaskOfOtherNode(n: Node, cs: seq<Node>)
    requires |cs| == |Children(n)| && !IsArrowAssignment(n) && !IsArrowAssignment(WithChildren(n, cs))
    requires forall i | 0 <= i < |cs| :: Mask(cs[i]) == Mask(Children(n)[i])
    ensures Mask(WithChildren(n, cs)) == Mask(n)
  {
    var r := WithChildren(n, cs);
    assert Children(r) == cs;
    var ms := seq(|Children(n)|, i requires 0 <= i < |Children(n)| => Mask(Children(n)[i]));
    var rs := seq(|Children(r)|, i requires 0 <= i < |Children(r)| => Mask(Children(r)[i]));
    assert rs == ms by {
      forall i | 0 <= i < |cs| ensures rs[i] == ms[i] {
        assert rs[i] == Mask(cs[i]);
      }
    }
    assert Mask(n) == WithChildren(n, ms);
    assert Mask(r) == WithChildren(r, ms);
    WithChildrenTwice(n, cs, ms);
  }

  /**
    The `this.<key> = <arrow>` assignments of a tree, marked or not, in
    traversal order, without looking inside one: the positions `Mask`
    blanks out.
   */
  function ArrowAssignments(n: Node): (r: seq<Node>)
    ensures forall a | a in r :: IsArrowAssignment(a)
  {
    if IsArrowAssignment(n) then [n]
    else
      var parts := seq(|Children(n)|, i requires 0 <= i < |Children(n)| => ArrowAssignments(Children(n)[i]));
      forall a | a in Flatten(parts) ensures IsArrowAssignment(a) {
        FlattenMember(parts, a);
      }
      Flatten(parts)
  }

  /** The walk keeps a node a `this.<key> = <arrow>` assignment exactly when it was one. */
  lemma RewriteKeepsArrowAssignment(n: Node)
    ensures IsArrowAssignment(RewriteAssignments(n)) == IsArrowAssignment(n)
  {
    if IsLiftableAssignment(n) {
      assert RewriteAssignments(n) == AssignmentShim(n);
    } else {
      var cs := seq(|Children(n)|, i requires 0 <= i < |Children(n)| => RewriteAssignments(Children(n)[i]));
      assert RewriteAssignments(n) == WithChildren(n, cs);
    }
  }

  /**
    The walk replaces each site where it stands: the `this.<key> = <arrow>`
    assignments of the rewritten body are, one for one and in order, those
    of the original body rewritten, so an unmarked one is now exactly its
    own forwarding assignment. With `RewriteKeepsRest`, which fixes every
    other node, this pins the whole rewritten body.
   */
  lemma {:induction false} RewriteInPlace(n: Node)
    ensures var a, b := ArrowAssignments(n), ArrowAssignments(RewriteAssignments(n));
      && |b| == |a|
      && (forall i | 0 <= i < |a| :: b[i] == RewriteAssignments(a[i]))
      && (forall i | 0 <= i < |a| && IsLiftableAssignment(a[i]) :: b[i] == AssignmentShim(a[i]))
    decreases Size(n)
  {
    RewriteKeepsArrowAssignment(n);
    if !IsArrowAssignment(n) {
      var cs := seq(|Children(n)|, i requires 0 <= i < |Children(n)| => RewriteAssignments(Children(n)[i]));
      var r := WithChildren(n, cs);
      assert RewriteAssignments(n) == r;
      var parts := seq(|Children(n)|, i requires 0 <= i < |Children(n)| => ArrowAssignments(Children(n)[i]));
      var qs := seq(|Children(r)|, i requires 0 <= i < |Children(r)| => ArrowAssignments(Children(r)[i]));
      forall i | 0 <= i < |parts|
        ensures |qs[i]| == |parts[i]|
        ensures forall j | 0 <= j < |parts[i]| :: qs[i][j] == RewriteAssignments(parts[i][j])
      {
        ChildSmaller(n, i);
        RewriteInPlace(Children(n)[i]);
      }
      FlattenPointwise(RewriteAssignments, parts, qs);
      assert ArrowAssignments(n) == Flatten(parts);
      assert ArrowAssignments(r) == Flatten(qs);
    }
  }

  /**
    The forwarding assignment and the method lifted from one assignment fit
    together: the shim assigns the same member and calls the new method,
    awaiting it exactly when the original arrow was async; the method is
    async exactly then too, and holds the arrow's parameters and its body as
    a block. Putting the method's parameters and body back into an arrow
    gives the original assignment (its body normalised).
   */
  lemma AssignmentLiftForwards(a: Node)
    requires IsLiftableAssignment(a)
    ensures AssignmentShim(a).left == a.left
    ensures AssignmentMethod(a).key == LiftedMethodName(a.left.property)
    ensures ShimTarget(AssignmentShim(a).right) == Some(Forward(AssignmentMethod(a).key, a.right.isAsync))
    ensures AssignmentMethod(a).isAsync == a.right.isAsync
    ensures AssignmentShim(a).right.isAsync == a.right.isAsync
    ensures AssignmentExpression(AssignmentShim(a).left,
              ArrowFunctionExpression(AssignmentMethod(a).params, AssignmentMethod(a).body, AssignmentMethod(a).isAsync),
              false)
         == AssignmentExpression(a.left, NormalizedArrow(a.right), a.replaced)
  {
  }

  // ---------------------------------------------------------------------------
  // Property form (lines 217-275)
  // ---------------------------------------------------------------------------

  /**
    A property the visitor lifts: not static (line 221), no opt-out node
    below it (lines 225-233), its value an arrow function (line 236) that is
    not async (line 244).
   */
  predicate IsLiftableProperty(p: Node)
  {
    && p.ClassProperty? && !p.isStatic && !DescendantOptsOut(p)
    && p.value.Some? && p.value.value.ArrowFunctionExpression? && !p.value.value.isAsync
  }

  /** The forwarding property that replaces a lifted one (lines 272-274). */
  function PropertyShim(p: Node): Node
    requires IsLiftableProperty(p)
  {
    BuildNewClassProperty(p.key, LiftedMethodName(p.key), p.value.value.isAsync)
  }

  /** The method lifted out of a property (lines 248-268); it carries no marker. */
  function PropertyMethod(p: Node): Node
    requires IsLiftableProperty(p)
  {
    var arrow := p.value.value;
    BuildLiftedMethod(LiftedMethodName(p.key), arrow.params, arrow.body, arrow.isAsync, false)
  }

  /** A constructor the visitor walks (line 276): not marked, of kind `constructor`. */
  predicate IsWalkedConstructor(m: Node)
  {
    m.ClassMethod? && !m.replaced && m.kind == Constructor
  }

  /** The constructor `c` with its body rewritten (lines 277-321). */
  function RewrittenConstructor(c: Node): Node
    requires c.ClassMethod?
  {
    ClassMethod(c.kind, c.key, c.params, RewriteAssignments(c.body), c.isAsync, c.isStatic, c.replaced)
  }

  /**
    What one member of the class body becomes. A lifted property becomes its
    shim followed by its method; a walked constructor becomes the rewritten
    constructor followed by the lifted methods, the last one met first, since
    each is inserted directly after the constructor; any other member stays.
   */
  function LiftMember(m: Node): (r: seq<Node>)
    ensures |r| >= 1
    ensures IsLiftableProperty(m) ==> |r| == 2 && r[0].ClassProperty? && r[0].key == m.key && r[1].ClassMethod?
    ensures m.ClassProperty? && !IsLiftableProperty(m) ==> r == [m]
    ensures !m.ClassProperty? && !IsWalkedConstructor(m) ==> r == [m]
    ensures IsWalkedConstructor(m) ==>
      && r[0] == RewrittenConstructor(m)
      && r[1..] == Reverse(LiftedMethods(m.body))
  {
    if IsLiftableProperty(m) then
      [PropertyShim(m), PropertyMethod(m)]
    else if IsWalkedConstructor(m) then
      [RewrittenConstructor(m)] + Reverse(LiftedMethods(m.body))
    else
      [m]
  }

  /** The class body after the visitor: each member in turn replaced by what it becomes. */
  function LiftClassBody(ms: seq<Node>): seq<Node>
  {
    ConcatMap(LiftMember, ms)
  }

  /** Members are rewritten independently and in place: the visitor distributes over concatenation. */
  lemma LiftClassBodyAppend(a: seq<Node>, b: seq<Node>)
    ensures LiftClassBody(a + b) == LiftClassBody(a) + LiftClassBody(b)
  {
    ConcatMapAppend(LiftMember, a, b);
  }

  /**
    A lifted property becomes a forwarding property with the same key and a
    method named after that key, directly after it: the class gains exactly
    one member. The shim calls that method and is synchronous like the
    method; the method holds the arrow's parameters and its body as a block,
    so putting them back into an arrow gives the original property.
   */
  lemma LiftedPropertyForwards(p: Node)
    requires IsLiftableProperty(p)
    ensures |LiftMember(p)| == 2
    ensures LiftMember(p)[1].key == LiftedMethodName(p.key)
    ensures LiftMember(p)[1].kind == Method && !LiftMember(p)[1].isAsync && !LiftMember(p)[1].isStatic
    ensures ShimTarget(LiftMember(p)[0].value.value) == Some(Forward(LiftMember(p)[1].key, false))
    ensures ClassProperty(LiftMember(p)[0].key,
              Some(ArrowFunctionExpression(LiftMember(p)[1].params, LiftMember(p)[1].body, LiftMember(p)[1].isAsync)),
              LiftMember(p)[0].isStatic)
         == ClassProperty(p.key, Some(NormalizedArrow(p.value.value)), p.isStatic)
  {
  }

  /**
    Within a class, a lifted property is replaced where it stands by its
    shim, with the new method directly after it, so it accounts for one
    member more than it was; the members around it are visited as they
    would be without it.
   */
  lemma LiftedPropertyInPlace(a: seq<Node>, p: Node, b: seq<Node>)
    requires IsLiftableProperty(p)
    ensures LiftClassBody(a + [p] + b) == LiftClassBody(a) + [PropertyShim(p), PropertyMethod(p)] + LiftClassBody(b)
    ensures |LiftClassBody(a + [p] + b)| == |LiftClassBody(a + b)| + 2
  {
    LiftClassBodyAppend(a + [p], b);
    LiftClassBodyAppend(a, [p]);
    LiftClassBodyAppend(a, b);
    ConcatMapSingle(LiftMember, p);
    assert LiftMember(p) == [PropertyShim(p), PropertyMethod(p)];
    assert LiftClassBody(a + [p] + b) == LiftClassBody(a) + LiftMember(p) + LiftClassBody(b);
    assert |LiftClassBody(a + b)| == |LiftClassBody(a)| + |LiftClassBody(b)|;
  }

  lemma ForwardingArrowHasNoOptOut(name: string, isAsync: bool)
    ensures !ContainsOptOut(ForwardingArrow(name, isAsync))
  {
    var member := MemberExpression(ThisExpression, name);
    var spread := SpreadElement(Identifier(ShimParam));
    var call := CallExpression(member, [spread]);
    assert !ContainsOptOut(ThisExpression);
    assert !ContainsOptOut(Identifier(ShimParam));
    assert Children(member) == [ThisExpression];
    assert !ContainsOptOut(member);
    assert !ContainsOptOut(spread);
    assert Children(call) == [member, spread];
    assert !ContainsOptOut(call);
    assert !ContainsOptOut(AwaitExpression(call));
  }

  /**
    The forwarding property carries no marker and is itself a liftable
    property: a second visit of the same class would lift it again into a
    method of the same name. Only the constructor form is protected.
   */
  lemma PropertyShimIsLiftableAgain(p: Node)
    requires IsLiftableProperty(p)
    ensures IsLiftableProperty(LiftMember(p)[0])
    ensures LiftMember(LiftMember(p)[0])[1].key == LiftMember(p)[1].key
  {
    ForwardingArrowHasNoOptOut(LiftedMethodName(p.key), false);
    assert Children(LiftMember(p)[0]) == [ForwardingArrow(LiftedMethodName(p.key), false)];
  }

  /**
    A walked constructor keeps its place; the class gains one member per
    liftable assignment, all marked; a second visit leaves the rewritten
    constructor as it is and creates nothing.
   */
  lemma ConstructorLiftIsIdempotent(c: Node)
    requires IsWalkedConstructor(c)
    ensures |LiftMember(c)| == 1 + |LiftedMethods(c.body)|
    ensures forall m | m in LiftMember(c)[1..] :: m.ClassMethod? && m.replaced && m.kind == Method
    ensures LiftMember(LiftMember(c)[0]) == [LiftMember(c)[0]]
  {
    RewriteIdempotent(c.body);
  }

  /**
    Site by site: the rewritten constructor holds the forwarding assignment
    of every site, and the class gains exactly the method lifted from each
    site, the site met first ending up last.
   */
  lemma ConstructorLiftPerSite(c: Node)
    requires IsWalkedConstructor(c)
    ensures var sites, r := Sites(c.body), LiftMember(c);
      && |r| == 1 + |sites|
      && (forall a | a in sites :: Occurs(AssignmentShim(a), r[0].body))
      && (forall i | 0 <= i < |sites| :: r[|r| - 1 - i] == AssignmentMethod(sites[i]))
  {
    var sites, r := Sites(c.body), LiftMember(c);
    var lifted := LiftedMethods(c.body);
    LiftedMethodsPerSite(c.body);
    assert r[0].body == RewriteAssignments(c.body);
    assert r[1..] == Reverse(lifted) && |lifted| == |sites|;
    forall a | a in sites ensures Occurs(AssignmentShim(a), r[0].body) {
      ShimInRewrite(c.body, a);
    }
    forall i | 0 <= i < |sites| ensures r[|r| - 1 - i] == AssignmentMethod(sites[i]) {
      assert r[|r| - 1 - i] == Reverse(lifted)[|lifted| - 1 - i] == lifted[i];
    }
  }

  /** Plain methods are left where they are. */
  lemma MethodsStay(ms: seq<Node>)
    requires forall m | m in ms :: m.ClassMethod? && m.kind == Method
    ensures LiftClassBody(ms) == ms
  {
    forall i | 0 <= i < |ms| ensures LiftMember(ms[i]) == [ms[i]] {
      assert ms[i] in ms;
    }
    ConcatMapFixed(LiftMember, ms);
  }

  lemma ConstructorIsStable(c: Node)
    requires IsWalkedConstructor(c)
    ensures LiftClassBody(LiftMember(c)) == LiftMember(c)
  {
    var r := LiftMember(c);
    ConstructorLiftIsIdempotent(c);
    assert r == [r[0]] + r[1..];
    LiftClassBodyAppend([r[0]], r[1..]);
    ConcatMapSingle(LiftMember, r[0]);
    MethodsStay(r[1..]);
  }

  lemma MemberIsStable(m: Node)
    requires !IsLiftableProperty(m)
    ensures LiftClassBody(LiftMember(m)) == LiftMember(m)
  {
    if IsWalkedConstructor(m) {
      ConstructorIsStable(m);
    } else {
      ConcatMapSingle(LiftMember, m);
    }
  }

  /**
    Visiting a class twice gives the same body as visiting it once, as long
    as the first visit lifted no property: the constructor form is protected
    by its marker, the property form is not (see PropertyShimIsLiftableAgain).
   */
  lemma {:induction false} LiftClassBodyIdempotent(ms: seq<Node>)
    requires forall i | 0 <= i < |ms| :: !IsLiftableProperty(ms[i])
    ensures LiftClassBody(LiftClassBody(ms)) == LiftClassBody(ms)
  {
    if ms != [] {
      var init, last := ms[..|ms| - 1], ms[|ms| - 1];
      LiftClassBodyIdempotent(init);
      LiftClassBodyAppend(LiftClassBody(init), LiftMember(last));
      MemberIsStable(last);
    }
  }

  // ---------------------------------------------------------------------------
  // The visitor, acting on the class body in place
  // ---------------------------------------------------------------------------

  /** Inserting directly after `m` puts the newest method first. */
  lemma InsertedFirst(before: seq<Node>, m: Node, done: seq<Node>, x: Node, after: seq<Node>)
    ensures var ms := before + [m] + Reverse(done) + after;
      ms[..|before| + 1] + [x] + ms[|before| + 1..] == before + [m] + Reverse(done + [x]) + after
  {
    var ms := before + [m] + Reverse(done) + after;
    assert ms[..|before| + 1] == before + [m];
    assert ms[|before| + 1..] == Reverse(done) + after;
    assert Reverse(done + [x]) == [x] + Reverse(done);
  }

  /** The walk's next member stands right after the members already lifted. */
  lemma NextMember(snapshot: seq<Node>, i: nat)
    requires i < |snapshot|
    ensures var done := LiftClassBody(snapshot[..i]); var ms := done + snapshot[i..];
      && |done| < |ms| && ms[|done|] == snapshot[i]
      && ms[..|done|] == done && ms[|done| + 1..] == snapshot[i + 1..]
      && LiftClassBody(snapshot[..i + 1]) == done + LiftMember(snapshot[i])
  {
    assert snapshot[..i + 1] == snapshot[..i] + [snapshot[i]];
    ConcatMapSnoc(LiftMember, snapshot[..i], snapshot[i]);
  }

  /** The body of one class, whose member list the visitor edits in place. */
  class ClassBody {
    var members: seq<Node>

    constructor (members: seq<Node>)
      ensures this.members == members
    {
      this.members := members;
    }

    /** `path.insertAfter(m)` on the member at `pos`. */
    method InsertAfter(pos: nat, m: Node)
      requires pos < |members|
      modifies this
      ensures members == old(members)[..pos + 1] + [m] + old(members)[pos + 1..]
    {
      members := members[..pos + 1] + [m] + members[pos + 1..];
    }

    /** `path.replaceWith(m)` on the member at `pos`. */
    method ReplaceWith(pos: nat, m: Node)
      requires pos < |members|
      modifies this
      ensures members == old(members)[pos := m]
    {
      members := members[pos := m];
    }

    /**
      Lines 217-275 on the property at `pos`: a liftable property is replaced
      by its shim, with the lifted method inserted directly after it; any
      other property stays.
     */
    method VisitProperty(pos: nat)
      requires pos < |members| && members[pos].ClassProperty?
      modifies this
      ensures members == old(members[..pos]) + LiftMember(old(members[pos])) + old(members[pos + 1..])
    {
      var m := members[pos];
      assert members == members[..pos] + [m] + members[pos + 1..];
      if m.isStatic {
        return;
      }
      var optOut := ScanOptOut(m);
      if optOut || m.value.None? || !m.value.value.ArrowFunctionExpression? {
        return;
      }
      var arrow := m.value.value;
      if arrow.isAsync {
        return;
      }
      var name := LiftedMethodName(m.key);
      InsertAfter(pos, BuildLiftedMethod(name, arrow.params, arrow.body, arrow.isAsync, false));
      ReplaceWith(pos, BuildNewClassProperty(m.key, name, arrow.isAsync));
    }

    /**
      Lines 276-321 on the walked constructor at `pos`: each lifted method is
      inserted directly after the constructor as its assignment is met, so
      the last one met ends up first; the constructor keeps its place with
      its assignments replaced by their shims.
     */
    method VisitConstructor(pos: nat)
      requires pos < |members| && IsWalkedConstructor(members[pos])
      modifies this
      ensures members == old(members[..pos]) + LiftMember(old(members[pos])) + old(members[pos + 1..])
    {
      var m := members[pos];
      InsertEachAfter(pos, LiftedMethods(m.body));
      ReplaceWith(pos, RewrittenConstructor(m));
    }

    /** `path.insertAfter` with each of `ms` in turn on the member at `pos`: the last one ends up first. */
    method InsertEachAfter(pos: nat, ms: seq<Node>)
      requires pos < |members|
      modifies this
      ensures members == old(members[..pos + 1]) + Reverse(ms) + old(members[pos + 1..])
    {
      var m := members[pos];
      ghost var before, after := members[..pos], members[pos + 1..];
      assert members == before + [m] + after;
      var k := 0;
      while k < |ms|
        invariant 0 <= k <= |ms|
        invariant members == before + [m] + Reverse(ms[..k]) + after
      {
        InsertAfter(pos, ms[k]);
        InsertedFirst(before, m, ms[..k], ms[k], after);
        assert ms[..k + 1] == ms[..k] + [ms[k]];
        k := k + 1;
      }
      assert ms[..k] == ms;
      assert old(members[..pos + 1]) == before + [m];
    }

    /** The callback of the walk on the member at `pos`. */
    method VisitMember(pos: nat)
      requires pos < |members|
      modifies this
      ensures members == old(members[..pos]) + LiftMember(old(members[pos])) + old(members[pos + 1..])
    {
      var m := members[pos];
      if m.ClassProperty? {
        VisitProperty(pos);
      } else if IsWalkedConstructor(m) {
        VisitConstructor(pos);
      } else {
        assert members == members[..pos] + [m] + members[pos + 1..];
      }
    }

    /**
      `classBody.get('body').forEach(...)` (lines 216-322): the members
      present when the walk starts are visited in order, each at its current
      position; members the walk inserts are not visited.
     */
    method Visit()
      modifies this
      ensures members == LiftClassBody(old(members))
    {
      var snapshot := members;
      var i, pos := 0, 0;
      while i < |snapshot|
        invariant 0 <= i <= |snapshot|
        invariant members == LiftClassBody(snapshot[..i]) + snapshot[i..]
        invariant pos == |LiftClassBody(snapshot[..i])|
      {
        ghost var done := LiftClassBody(snapshot[..i]);
        NextMember(snapshot, i);
        VisitMember(pos);
        assert members == done + LiftMember(snapshot[i]) + snapshot[i + 1..];
        pos := pos + |LiftMember(snapshot[i])|;
        i := i + 1;
      }
      assert snapshot[..i] == snapshot;
    }
  }
}
