/**
  Declaration registration (src/babel/index.ts:114-211): every reasonable
  top-level binding, and the hoisted unnamed default export, is recorded as a
  `__RLYEH__.register(ID, NAME, FILENAME)` statement; on leaving the program
  the statements are appended inside a guarded initializer.
 */
module Registration {
  import opened Ast
  import opened Templates

  /**
    The type of the node that declares a binding (`binding.path.type`); for
    a declarator, also its initializer, which line 126 inspects.
   */
  datatype DeclaringNode =
    | FunctionDeclarationPath
    | ClassDeclarationPath
    | VariableDeclarationPath
    | VariableDeclaratorPath(init: Option<Node>)
    | OtherPath(nodeType: string)

  /** One entry of the program scope's bindings: its name and its declaring node. */
  datatype Binding = Binding(name: string, path: DeclaringNode)

  /** The scope's bindings are keyed by name, so no name occurs twice. */
  predicate UniqueNames(bindings: seq<Binding>)
  {
    forall i, j | 0 <= i < j < |bindings| :: bindings[i].name != bindings[j].name
  }

  /** `init` is a call whose callee is the identifier `require` (line 126). */
  predicate IsRequireCall(init: Option<Node>)
  {
    init.Some? && init.value.CallExpression? && init.value.callee == Identifier("require")
  }

  /** shouldRegisterBinding (lines 117-134). */
  predicate ShouldRegisterBinding(b: Binding)
  {
    match b.path
    case FunctionDeclarationPath => true
    case ClassDeclarationPath => true
    case VariableDeclarationPath => true
    case VariableDeclaratorPath(init) => !IsRequireCall(init)
    case OtherPath(_) => false
  }

  /**
    The classification on the cases that matter: a plain `require(...)` is
    rejected, while a call of its result, a `require` reached through a
    member, another call, a literal or no initializer at all is accepted;
    imports are rejected.
   */
  lemma RequireExamples()
    ensures !ShouldRegisterBinding(Binding("x", VariableDeclaratorPath(
              Some(CallExpression(Identifier("require"), [StringLiteral("x")])))))
    ensures ShouldRegisterBinding(Binding("x", VariableDeclaratorPath(
              Some(CallExpression(CallExpression(Identifier("require"), [StringLiteral("x")]), [])))))
    ensures ShouldRegisterBinding(Binding("x", VariableDeclaratorPath(
              Some(CallExpression(MemberExpression(Identifier("module"), "require"), [StringLiteral("x")])))))
    ensures ShouldRegisterBinding(Binding("x", VariableDeclaratorPath(
              Some(CallExpression(Identifier("requireX"), [])))))
    ensures ShouldRegisterBinding(Binding("x", VariableDeclaratorPath(Some(StringLiteral("x")))))
    ensures ShouldRegisterBinding(Binding("x", VariableDeclaratorPath(None)))
    ensures !ShouldRegisterBinding(Binding("x", OtherPath("ImportSpecifier")))
  {
  }

  /** The registration of one binding: its identifier, its name and the file name (lines 182-186). */
  function BindingRegistration(b: Binding, filename: string): (r: Node)
    ensures ParseRegistration(r) == Some(RegistrationEntry(Identifier(b.name), b.name, filename))
  {
    BuildRegistration(Identifier(b.name), b.name, filename)
  }

  /**
    The registrations `Program.enter` collects (lines 178-189): one per
    accepted binding, in the order of the bindings, and nothing else.
   */
  function Registrations(bindings: seq<Binding>, filename: string): (rs: seq<Node>)
    ensures forall r | r in rs :: exists b | b in bindings :: ShouldRegisterBinding(b) && r == BindingRegistration(b, filename)
    ensures forall b | b in bindings && ShouldRegisterBinding(b) :: BindingRegistration(b, filename) in rs
  {
    if bindings == [] then []
    else
      var init, last := bindings[..|bindings| - 1], bindings[|bindings| - 1];
      var rs := Registrations(init, filename)
                + (if ShouldRegisterBinding(last) then [BindingRegistration(last, filename)] else []);
      assert bindings == init + [last];
      rs
  }

  /**
    Each accepted binding is registered once: with the scope's unique names
    no registration is collected twice, so together with the contract of
    `Registrations` there is exactly one per accepted binding.
   */
  lemma {:induction false} RegistrationsDistinct(bindings: seq<Binding>, filename: string)
    requires UniqueNames(bindings)
    ensures var rs := Registrations(bindings, filename);
      forall i, j | 0 <= i < j < |rs| :: rs[i] != rs[j]
  {
    if bindings != [] {
      var init, last := bindings[..|bindings| - 1], bindings[|bindings| - 1];
      assert UniqueNames(init) by {
        forall i, j | 0 <= i < j < |init| ensures init[i].name != init[j].name {
          assert init[i] == bindings[i] && init[j] == bindings[j];
        }
      }
      RegistrationsDistinct(init, filename);
      var done := Registrations(init, filename);
      if ShouldRegisterBinding(last) {
        var rs := Registrations(bindings, filename);
        assert rs == done + [BindingRegistration(last, filename)];
        forall i | 0 <= i < |done| ensures done[i] != BindingRegistration(last, filename) {
          NotLastRegistration(bindings, filename, done[i]);
        }
      }
    }
  }

  /** With unique names, the last binding's registration is not among those of the others. */
  lemma NotLastRegistration(bindings: seq<Binding>, filename: string, r: Node)
    requires bindings != [] && UniqueNames(bindings)
    requires r in Registrations(bindings[..|bindings| - 1], filename)
    ensures r != BindingRegistration(bindings[|bindings| - 1], filename)
  {
    var init, last := bindings[..|bindings| - 1], bindings[|bindings| - 1];
    var b :| b in init && ShouldRegisterBinding(b) && r == BindingRegistration(b, filename);
    var i :| 0 <= i < |init| && init[i] == b;
    assert bindings[i] == b && bindings[|bindings| - 1] == last;
    assert ParseRegistration(r).value.name == b.name != last.name;
  }

  /** Registrations keep the order of the bindings: those of `a` come before those of `b`. */
  lemma {:induction false} RegistrationsAppend(a: seq<Binding>, b: seq<Binding>, filename: string)
    ensures Registrations(a + b, filename) == Registrations(a, filename) + Registrations(b, filename)
    decreases |b|
  {
    if b == [] {
      assert a + b == a;
    } else {
      var init, last := b[..|b| - 1], b[|b| - 1];
      assert (a + b)[..|a + b| - 1] == a + init;
      assert (a + b)[|a + b| - 1] == last;
      RegistrationsAppend(a, init, filename);
    }
  }

  /** A binding of the scope is registered exactly when shouldRegisterBinding accepts it. */
  lemma RegisteredIff(bindings: seq<Binding>, filename: string, b: Binding)
    requires UniqueNames(bindings) && b in bindings
    ensures BindingRegistration(b, filename) in Registrations(bindings, filename) <==> ShouldRegisterBinding(b)
  {
    if BindingRegistration(b, filename) in Registrations(bindings, filename) {
      var b' :| b' in bindings && ShouldRegisterBinding(b') && BindingRegistration(b, filename) == BindingRegistration(b', filename);
      assert b'.name == b.name by {
        assert ParseRegistration(BindingRegistration(b, filename)) == ParseRegistration(BindingRegistration(b', filename));
      }
      var i :| 0 <= i < |bindings| && bindings[i] == b;
      var j :| 0 <= j < |bindings| && bindings[j] == b';
      assert i == j;
    }
  }

  /** No binding is registered under a name no binding has. */
  lemma UnboundNameNotRegistered(bindings: seq<Binding>, filename: string, r: Node, name: string)
    requires forall b | b in bindings :: b.name != name
    requires r in Registrations(bindings, filename)
    ensures ParseRegistration(r).Some? && ParseRegistration(r).value.name != name
  {
  }

  // ---------------------------------------------------------------------------
  // Default exports (lines 140-169)
  // ---------------------------------------------------------------------------

  /** What may follow `export default`: a function or class declaration, or an expression. */
  predicate ExportableDeclaration(d: Node)
  {
    d.FunctionDeclaration? || d.ClassDeclaration? || IsExpression(d)
  }

  /**
    Line 143 as written: `declaration.hasOwnProperty('id')`. The parser
    gives every function and class node an `id` key, set to null when the
    node is anonymous, so the test holds for each of them, named or not.
   */
  predicate HasIdProperty(d: Node)
  {
    || d.FunctionDeclaration? || d.ClassDeclaration?
    || d.FunctionExpression? || d.ClassExpression? || d.ArrowFunctionExpression?
  }

  /**
    The test line 143 evidently means: the declaration has a name, so it is
    already a binding of the module scope. The name of a function or class
    expression is bound only inside it, so such an export is hoisted.
   */
  predicate IsNamedDeclaration(d: Node)
  {
    (d.FunctionDeclaration? || d.ClassDeclaration?) && d.id.Some?
  }

  /** `t.toExpression`: a declaration becomes the matching expression; an expression stays. */
  function ToExpression(d: Node): (r: Node)
    requires ExportableDeclaration(d)
    ensures IsExpression(r)
    ensures Children(r) == Children(d)
    ensures IsExpression(d) ==> r == d
    ensures d.FunctionDeclaration? ==> r.FunctionExpression? && r.id == d.id && r.params == d.params && r.isAsync == d.isAsync
    ensures d.ClassDeclaration? ==> r.ClassExpression? && r.id == d.id && r.superClass == d.superClass
  {
    match d
    case FunctionDeclaration(id, ps, b, a) => FunctionExpression(id, ps, b, a)
    case ClassDeclaration(id, sc, ms) => ClassExpression(id, sc, ms)
    case _ => d
  }

  /**
    `const <uid> = <declaration as an expression>;` (lines 150-157): one
    constant declarator binding `uid`, initialised by the declaration turned
    into the matching expression, with its name, parameters, async flag,
    superclass and children kept.
   */
  function HoistedDefault(uid: string, d: Node): (r: Node)
    requires ExportableDeclaration(d)
    ensures r.VariableDeclaration? && r.declarationKind == Const && |r.declarations| == 1
    ensures r.declarations[0].VariableDeclarator? && r.declarations[0].binding == uid
    ensures r.declarations[0].init.Some? && IsExpression(r.declarations[0].init.value)
    ensures Children(r.declarations[0].init.value) == Children(d)
    ensures r.declarations[0].init.value == ToExpression(d)
    ensures IsExpression(d) ==> r.declarations[0].init.value == d
    ensures d.FunctionDeclaration? ==>
      var f := r.declarations[0].init.value;
      f.FunctionExpression? && f.id == d.id && f.params == d.params && f.isAsync == d.isAsync && f.body == d.body
    ensures d.ClassDeclaration? ==>
      var c := r.declarations[0].init.value;
      c.ClassExpression? && c.id == d.id && c.superClass == d.superClass && c.members == d.members
  {
    VariableDeclaration(Const, [VariableDeclarator(uid, Some(ToExpression(d)))])
  }

  /** The registration of the hoisted default export (lines 162-168). */
  function DefaultRegistration(uid: string, filename: string): (r: Node)
    ensures ParseRegistration(r) == Some(RegistrationEntry(Identifier(uid), "default", filename))
  {
    BuildRegistration(Identifier(uid), "default", filename)
  }

  /**
    As written, the guard lets only declarations without an `id` key
    through, and none of those is a declaration: the conversion of lines
    150-152 never applies.
   */
  lemma AsWrittenNeverConverts(d: Node)
    requires ExportableDeclaration(d) && !HasIdProperty(d)
    ensures IsExpression(d) && ToExpression(d) == d
  {
  }

  /**
    As written, anonymous functions, classes and arrows all have an `id`
    key, so `export default function () {}`, `export default class {}` and
    `export default () => {}` are left alone and never registered, although
    none of them has a name the scope could register.
   */
  lemma AsWrittenSkipsAnonymous()
    ensures var f := FunctionDeclaration(None, [], BlockStatement([]), false);
      HasIdProperty(f) && !IsNamedDeclaration(f)
    ensures var c := ClassDeclaration(None, None, []);
      HasIdProperty(c) && !IsNamedDeclaration(c)
    ensures var a := ArrowFunctionExpression([], BlockStatement([]), false);
      HasIdProperty(a) && !IsNamedDeclaration(a)
  {
  }

  /** The corrected guard skips exactly what is named, and so lets the conversion apply. */
  lemma CorrectedGuardConverts()
    ensures var f := FunctionDeclaration(None, [], BlockStatement([]), false);
      !IsNamedDeclaration(f) && ToExpression(f) == FunctionExpression(None, [], BlockStatement([]), false)
    ensures forall d | ExportableDeclaration(d) && IsNamedDeclaration(d) :: HasIdProperty(d)
  {
  }

  // ---------------------------------------------------------------------------
  // The program node
  // ---------------------------------------------------------------------------

  /**
    The program being transformed: its statements, edited in place, and the
    registrations collected on it (`node[REGISTRATIONS]`), absent before
    `enter` and after `exit`.
   */
  class ProgramNode {
    var body: seq<Node>
    var registrations: Option<seq<Node>>

    constructor (body: seq<Node>)
      ensures this.body == body && registrations == None
    {
      this.body := body;
      registrations := None;
    }

    /** `Program.enter` (lines 172-191): collect one registration per accepted binding. */
    method Enter(bindings: seq<Binding>, filename: string)
      modifies this
      ensures body == old(body)
      ensures registrations == Some(Registrations(bindings, filename))
    {
      registrations := Some([]);
      var i := 0;
      while i < |bindings|
        invariant 0 <= i <= |bindings| && body == old(body)
        invariant registrations == Some(Registrations(bindings[..i], filename))
      {
        var binding := bindings[i];
        assert bindings[..i + 1][..i] == bindings[..i];
        assert bindings[..i + 1][|bindings[..i + 1]| - 1] == binding;
        if ShouldRegisterBinding(binding) {
          registrations := Some(registrations.value + [BindingRegistration(binding, filename)]);
        } else {
          ghost var done := Registrations(bindings[..i], filename);
          assert Registrations(bindings[..i + 1], filename) == done + [];
          assert done + [] == done;
        }
        assert registrations == Some(Registrations(bindings[..i + 1], filename));
        i := i + 1;
      }
      assert bindings[..i] == bindings;
    }

    /**
      The ExportDefaultDeclaration visitor (lines 140-169) on the statement
      at `index`, with the guard of line 143 corrected: a named declaration
      is left alone; otherwise `const <uid> = <expression>` is inserted
      before the export, the export now refers to `uid`, and the default
      registration is collected after the others.
     */
    method VisitExportDefault(index: nat, uid: string, filename: string)
      requires index < |body| && body[index].ExportDefaultDeclaration?
      requires ExportableDeclaration(body[index].declaration)
      requires registrations.Some?
      modifies this
      ensures IsNamedDeclaration(old(body[index].declaration)) ==>
        body == old(body) && registrations == old(registrations)
      ensures !IsNamedDeclaration(old(body[index].declaration)) ==>
        && body == old(body[..index])
                   + [HoistedDefault(uid, old(body[index].declaration)), ExportDefaultDeclaration(Identifier(uid))]
                   + old(body[index + 1..])
        && registrations == Some(old(registrations.value) + [DefaultRegistration(uid, filename)])
    {
      var declaration := body[index].declaration;
      if IsNamedDeclaration(declaration) {
        return;
      }
      var expression := if IsExpression(declaration) then declaration else ToExpression(declaration);
      body := body[..index] + [VariableDeclaration(Const, [VariableDeclarator(uid, Some(expression))])] + body[index..];
      body := body[index + 1 := ExportDefaultDeclaration(Identifier(uid))];
      registrations := Some(registrations.value + [DefaultRegistration(uid, filename)]);
    }

    /** Replace the statement at `index`, as a visitor further down the tree does. */
    method ReplaceStatement(index: nat, s: Node)
      requires index < |body|
      modifies this
      ensures body == old(body)[index := s] && registrations == old(registrations)
    {
      body := body[index := s];
    }

    /**
      `Program.exit` (lines 193-210): append an empty statement, the guarded
      initializer bound to the unused `unused` and holding the collected
      registrations in order, and another empty statement.
     */
    method Exit(unused: string)
      requires registrations.Some?
      modifies this
      ensures registrations == None
      ensures body == old(body) + [EmptyStatement, BuildTagger(unused, old(registrations.value)), EmptyStatement]
    {
      var collected := registrations.value;
      registrations := None;
      body := body + [EmptyStatement];
      body := body + [BuildTagger(unused, collected)];
      body := body + [EmptyStatement];
    }
  }
}
