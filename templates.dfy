/**
  The nodes the transform synthesises (src/babel/index.ts): the forwarding
  shims and lifted methods of the class-member rewrite, and the registration
  calls and guarded initializer of the declaration registration. Six builders
  are paired with a recogniser that reads their data back out of the tree,
  and their contracts are the round trip: `LiftedMethodName` (`LiftedKey`),
  `ForwardingArrow`, `BuildNewClassProperty` and `BuildNewAssignmentExpression`
  (`ShimTarget`), `BuildRegistration` (`ParseRegistration`) and `BuildTagger`
  (`TaggerParts`). The others state the shape they build.
 */
module Templates {
  import opened Ast

  /** The global the registration runtime installs. */
  const RuntimeGlobal: string := "__RLYEH__"

  /** The rest parameter of every forwarding shim, spread into the forwarded call. */
  const ShimParam: string := "params"

  const LiftedPrefix: string := "__"
  const LiftedSuffix: string := "__RLYEH__"

  /** The key a lifted method's name was derived from, if `name` has the lifted shape. */
  function LiftedKey(name: string): Option<string>
  {
    if |name| >= |LiftedPrefix| + |LiftedSuffix|
       && name[..|LiftedPrefix|] == LiftedPrefix
       && name[|name| - |LiftedSuffix|..] == LiftedSuffix
    then Some(name[|LiftedPrefix|..|name| - |LiftedSuffix|])
    else None
  }

  /** `__<key>__RLYEH__`: the name of the method lifted out of member `key`. */
  function LiftedMethodName(key: string): (name: string)
    ensures LiftedKey(name) == Some(key)
    ensures name != key
  {
    var name := LiftedPrefix + key + LiftedSuffix;
    assert name[..|LiftedPrefix|] == LiftedPrefix;
    assert name[|name| - |LiftedSuffix|..] == LiftedSuffix;
    assert name[|LiftedPrefix|..|name| - |LiftedSuffix|] == key;
    name
  }

  /** Members with different keys are lifted into methods with different names. */
  lemma LiftedMethodNameInjective(a: string, b: string)
    requires LiftedMethodName(a) == LiftedMethodName(b)
    ensures a == b
  {
    assert Some(a) == LiftedKey(LiftedMethodName(a)) == LiftedKey(LiftedMethodName(b)) == Some(b);
  }

  /** `this.<methodName>(...params)`, awaited when `isAsync`. */
  function ForwardingCall(methodName: string, isAsync: bool): Node
  {
    var call := CallExpression(MemberExpression(ThisExpression, methodName),
                               [SpreadElement(Identifier(ShimParam))]);
    if isAsync then AwaitExpression(call) else call
  }

  /** What a forwarding shim does: which method it calls, and whether it awaits. */
  datatype Forward = Forward(methodName: string, isAsync: bool)

  /** Is `call` the call `this.<m>(...params)`, and if so, which `m`? */
  function ForwardedMethod(call: Node): Option<string>
  {
    if && call.CallExpression?
       && call.callee.MemberExpression? && call.callee.receiver.ThisExpression?
       && call.arguments == [SpreadElement(Identifier(ShimParam))]
    then Some(call.callee.property)
    else None
  }

  /**
    Recognises `[async] (...params) => [await] this.<m>(...params)`: an arrow
    whose only parameter is the rest element, whose body is the forwarded call,
    awaited exactly when the arrow is async.
   */
  function ShimTarget(arrow: Node): Option<Forward>
  {
    if arrow.ArrowFunctionExpression? && arrow.params == [Param(ShimParam, true)] then
      var body := arrow.body;
      if arrow.isAsync && body.AwaitExpression? && ForwardedMethod(body.argument).Some? then
        Some(Forward(ForwardedMethod(body.argument).value, true))
      else if !arrow.isAsync && ForwardedMethod(body).Some? then
        Some(Forward(ForwardedMethod(body).value, false))
      else None
    else None
  }

  /** `[async] (...params) => [await] this.<methodName>(...params)`. */
  function ForwardingArrow(methodName: string, isAsync: bool): (r: Node)
    ensures ShimTarget(r) == Some(Forward(methodName, isAsync))
  {
    ArrowFunctionExpression([Param(ShimParam, true)], ForwardingCall(methodName, isAsync), isAsync)
  }

  /**
    buildNewClassProperty: the instance property `key` whose value forwards to
    `methodName`, asynchronously exactly when `isAsync`.
   */
  function BuildNewClassProperty(key: string, methodName: string, isAsync: bool): (r: Node)
    ensures r.ClassProperty? && r.key == key && !r.isStatic && r.value.Some?
    ensures ShimTarget(r.value.value) == Some(Forward(methodName, isAsync))
  {
    ClassProperty(key, Some(ForwardingArrow(methodName, isAsync)), false)
  }

  /**
    buildNewAssignmentExpression: `this.<key> = <shim forwarding to methodName>`,
    carrying the replaced marker.
   */
  function BuildNewAssignmentExpression(key: string, methodName: string, isAsync: bool): (r: Node)
    ensures r.AssignmentExpression? && r.replaced
    ensures r.left == MemberExpression(ThisExpression, key)
    ensures ShimTarget(r.right) == Some(Forward(methodName, isAsync))
  {
    AssignmentExpression(MemberExpression(ThisExpression, key), ForwardingArrow(methodName, isAsync), true)
  }

  /** An arrow body as a block: a block stays, an expression `e` becomes `{ return e; }`. */
  function NormalizedBody(body: Node): (r: Node)
    ensures r.BlockStatement?
    ensures body.BlockStatement? ==> r == body
    ensures !body.BlockStatement? ==> r.statements == [ReturnStatement(Some(body))]
  {
    if body.BlockStatement? then body else BlockStatement([ReturnStatement(Some(body))])
  }

  /** The non-static method `name(params) { body' }` that a lifted arrow becomes. */
  function BuildLiftedMethod(name: string, params: seq<Param>, body: Node, isAsync: bool, replaced: bool): (r: Node)
    ensures r.ClassMethod? && r.kind == Method && r.key == name && !r.isStatic
    ensures r.params == params && r.isAsync == isAsync && r.replaced == replaced
    ensures r.body == NormalizedBody(body)
  {
    ClassMethod(Method, name, params, NormalizedBody(body), isAsync, false, replaced)
  }

  /** The arguments of one `__RLYEH__.register(ID, NAME, FILENAME)` call. */
  datatype RegistrationEntry = RegistrationEntry(id: Node, name: string, filename: string)

  /** Reads the arguments back out of a registration statement. */
  function ParseRegistration(s: Node): Option<RegistrationEntry>
  {
    if && s.ExpressionStatement?
       && s.expression.CallExpression?
       && s.expression.callee == MemberExpression(Identifier(RuntimeGlobal), "register")
       && |s.expression.arguments| == 3
       && s.expression.arguments[1].StringLiteral?
       && s.expression.arguments[2].StringLiteral?
    then
      var args := s.expression.arguments;
      Some(RegistrationEntry(args[0], args[1].literal, args[2].literal))
    else None
  }

  /** buildRegistration: the statement `__RLYEH__.register(ID, "NAME", "FILENAME");`. */
  function BuildRegistration(id: Node, name: string, filename: string): (r: Node)
    ensures ParseRegistration(r) == Some(RegistrationEntry(id, name, filename))
  {
    ExpressionStatement(CallExpression(MemberExpression(Identifier(RuntimeGlobal), "register"),
                                       [id, StringLiteral(name), StringLiteral(filename)]))
  }

  /** `if (typeof __RLYEH__ === 'undefined') { return; }` */
  function RuntimeGuard(): Node
  {
    IfStatement(BinaryExpression("===", UnaryExpression("typeof", Identifier(RuntimeGlobal)),
                                 StringLiteral("undefined")),
                BlockStatement([ReturnStatement(None)]),
                None)
  }

  /**
    Recognises `var <unused> = (function () { <guard> ...registrations })();`
    and returns the unused name and the registration statements.
   */
  function TaggerParts(s: Node): Option<(string, seq<Node>)>
  {
    if && s.VariableDeclaration? && s.declarationKind == Var && |s.declarations| == 1
       && s.declarations[0].VariableDeclarator? && s.declarations[0].init.Some?
    then
      var call := s.declarations[0].init.value;
      if && call.CallExpression? && call.arguments == []
         && call.callee.FunctionExpression? && call.callee.id == None
         && call.callee.params == [] && !call.callee.isAsync
         && call.callee.body.BlockStatement?
         && |call.callee.body.statements| >= 1
         && call.callee.body.statements[0] == RuntimeGuard()
      then Some((s.declarations[0].binding, call.callee.body.statements[1..]))
      else None
    else None
  }

  /**
    buildTagger: the guarded initializer. An immediately invoked function that
    returns at once when the runtime global is undefined and otherwise runs
    the registrations in order; its value is bound to the unused `unused`.
   */
  function BuildTagger(unused: string, registrations: seq<Node>): (r: Node)
    ensures TaggerParts(r) == Some((unused, registrations))
  {
    var iife := FunctionExpression(None, [], BlockStatement([RuntimeGuard()] + registrations), false);
    var r := VariableDeclaration(Var, [VariableDeclarator(unused, Some(CallExpression(iife, [])))]);
    assert ([RuntimeGuard()] + registrations)[1..] == registrations;
    r
  }
}
