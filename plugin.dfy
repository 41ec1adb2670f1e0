/**
  The plugin as a whole (src/babel/index.ts:78-328): in production it
  returns an empty visitor; otherwise it enters the program, visits its
  statements in order (the default export, top-level classes), and exits the
  program. The result is stated by `Transform`, and `Run` drives the
  visitors over the program node and is proved to produce it.
 */
module Plugin {
  import opened Ast
  import opened Templates
  import opened ClassLifting
  import opened Registration

  /**
    What the grammar of a module guarantees: at most one `export default`,
    followed by a function or class declaration or an expression.
   */
  predicate WellFormedProgram(body: seq<Node>)
  {
    && (forall i, j | 0 <= i < j < |body| :: !(body[i].ExportDefaultDeclaration? && body[j].ExportDefaultDeclaration?))
    && (forall i | 0 <= i < |body| && body[i].ExportDefaultDeclaration? :: ExportableDeclaration(body[i].declaration))
  }

  /** A class with its member list rewritten by the Class visitor. */
  function LiftClass(c: Node): Node
    requires IsClass(c)
  {
    if c.ClassDeclaration? then ClassDeclaration(c.id, c.superClass, LiftClassBody(c.members))
    else ClassExpression(c.id, c.superClass, LiftClassBody(c.members))
  }

  /** A declaration, with the Class visitor applied when it is a class. */
  function LiftIfClass(d: Node): Node
  {
    if IsClass(d) then LiftClass(d) else d
  }

  /** An `export default` of an unnamed declaration, which the visitor hoists. */
  predicate IsHoistedExport(s: Node)
  {
    s.ExportDefaultDeclaration? && ExportableDeclaration(s.declaration) && !IsNamedDeclaration(s.declaration)
  }

  /**
    What one top-level statement becomes: a class declaration has its body
    lifted; an unnamed default export becomes the hoisted constant followed
    by the export of its name; a named one keeps its place (its class, if it
    is one, lifted); any other statement stays.
   */
  function TransformStatement(s: Node, uid: string): seq<Node>
  {
    if s.ClassDeclaration? then [LiftClass(s)]
    else if IsHoistedExport(s) then
      [HoistedDefault(uid, LiftIfClass(s.declaration)), ExportDefaultDeclaration(Identifier(uid))]
    else if s.ExportDefaultDeclaration? && ExportableDeclaration(s.declaration) then
      [ExportDefaultDeclaration(LiftIfClass(s.declaration))]
    else [s]
  }

  /** The registration a statement adds after the bindings': one for a hoisted default export. */
  function DefaultHit(s: Node, uid: string, filename: string): seq<Node>
  {
    if IsHoistedExport(s) then [DefaultRegistration(uid, filename)] else []
  }

  function TransformStatements(body: seq<Node>, uid: string): seq<Node>
  {
    ConcatMap(s => TransformStatement(s, uid), body)
  }

  function DefaultRegistrations(body: seq<Node>, uid: string, filename: string): seq<Node>
  {
    ConcatMap(s => DefaultHit(s, uid, filename), body)
  }

  /** The registrations in the guarded initializer: the bindings', then the default export's. */
  function TaggerRegistrations(body: seq<Node>, bindings: seq<Binding>, filename: string, uid: string): seq<Node>
  {
    Registrations(bindings, filename) + DefaultRegistrations(body, uid, filename)
  }

  /** The three statements `Program.exit` appends. */
  function Epilogue(unused: string, registrations: seq<Node>): seq<Node>
  {
    [EmptyStatement, BuildTagger(unused, registrations), EmptyStatement]
  }

  /**
    The program after the plugin. `uid` is the fresh name generated for the
    default export, `unused` the fresh name of the initializer's variable.
   */
  function Transform(body: seq<Node>, production: bool, bindings: seq<Binding>, filename: string,
                     uid: string, unused: string): seq<Node>
  {
    if production then body
    else TransformStatements(body, uid) + Epilogue(unused, TaggerRegistrations(body, bindings, filename, uid))
  }

  // ---------------------------------------------------------------------------
  // Properties of the result
  // ---------------------------------------------------------------------------

  /**
    Outside production, exactly three statements follow the rewritten
    statements: an empty statement, the guarded initializer bound to
    `unused` that runs the registrations in order, and an empty statement.
    The statements before them are the program's own, rewritten one by one
    in place.
   */
  lemma EpilogueAppended(body: seq<Node>, bindings: seq<Binding>, filename: string, uid: string, unused: string)
    ensures var r := Transform(body, false, bindings, filename, uid, unused);
      && |r| == |TransformStatements(body, uid)| + 3
      && r[..|r| - 3] == TransformStatements(body, uid)
      && r[|r| - 3] == EmptyStatement && r[|r| - 1] == EmptyStatement
      && TaggerParts(r[|r| - 2]) == Some((unused, TaggerRegistrations(body, bindings, filename, uid)))
  {
    var r := Transform(body, false, bindings, filename, uid, unused);
    assert r[..|r| - 3] == TransformStatements(body, uid);
  }

  /** Rewriting the statements distributes over concatenation, so each statement is rewritten where it stands. */
  lemma TransformStatementsAppend(a: seq<Node>, b: seq<Node>, uid: string)
    ensures TransformStatements(a + b, uid) == TransformStatements(a, uid) + TransformStatements(b, uid)
  {
    ConcatMapAppend(s => TransformStatement(s, uid), a, b);
  }

  /** Does a class, declared or as an expression, occur anywhere in `n`? */
  predicate ContainsClass(n: Node)
  {
    IsClass(n) || exists i | 0 <= i < |Children(n)| :: ContainsClass(Children(n)[i])
  }

  /**
    Statements that are not default exports and hold no class anywhere give
    the Class visitor nothing to do, so they are left exactly as they were.
   */
  lemma OtherStatementsStay(body: seq<Node>, uid: string)
    requires forall i | 0 <= i < |body| :: !body[i].ExportDefaultDeclaration? && !ContainsClass(body[i])
    ensures TransformStatements(body, uid) == body
  {
    ConcatMapFixed(s => TransformStatement(s, uid), body);
  }

  lemma {:induction false} NoHoistNoDefault(body: seq<Node>, uid: string, filename: string)
    requires forall i | 0 <= i < |body| :: !IsHoistedExport(body[i])
    ensures DefaultRegistrations(body, uid, filename) == []
  {
    if body != [] {
      var init := body[..|body| - 1];
      assert forall i | 0 <= i < |init| :: init[i] == body[i];
      NoHoistNoDefault(init, uid, filename);
    }
  }

  /**
    An unnamed default export at `k`: it is replaced, where it stands, by
    `const <uid> = <its declaration as an expression>` and `export default
    <uid>`, and the guarded initializer holds exactly one registration named
    "default", the last one, whose ID is `uid`. No binding can be named
    `default`, a reserved word.
   */
  lemma DefaultExportRegistered(body: seq<Node>, bindings: seq<Binding>, filename: string, uid: string, k: nat)
    requires WellFormedProgram(body)
    requires k < |body| && body[k].ExportDefaultDeclaration? && !IsNamedDeclaration(body[k].declaration)
    requires forall b | b in bindings :: b.name != "default"
    ensures TransformStatements(body, uid)
         == TransformStatements(body[..k], uid)
            + [HoistedDefault(uid, LiftIfClass(body[k].declaration)), ExportDefaultDeclaration(Identifier(uid))]
            + TransformStatements(body[k + 1..], uid)
    ensures var rs := TaggerRegistrations(body, bindings, filename, uid);
      && |rs| == |Registrations(bindings, filename)| + 1
      && ParseRegistration(rs[|rs| - 1]) == Some(RegistrationEntry(Identifier(uid), "default", filename))
      && forall j | 0 <= j < |rs| - 1 :: ParseRegistration(rs[j]).Some? && ParseRegistration(rs[j]).value.name != "default"
  {
    var before, s, after := body[..k], body[k], body[k + 1..];
    assert body == before + [s] + after;
    TransformStatementsAppend(before + [s], after, uid);
    TransformStatementsAppend(before, [s], uid);
    ConcatMapSingle(t => TransformStatement(t, uid), s);
    forall i | 0 <= i < |before| ensures !IsHoistedExport(before[i]) {
      assert before[i] == body[i];
    }
    forall i | 0 <= i < |after| ensures !IsHoistedExport(after[i]) {
      assert after[i] == body[k + 1 + i];
    }
    NoHoistNoDefault(before, uid, filename);
    NoHoistNoDefault(after, uid, filename);
    var hit := t => DefaultHit(t, uid, filename);
    ConcatMapAppend(hit, before + [s], after);
    ConcatMapAppend(hit, before, [s]);
    ConcatMapSingle(hit, s);
    assert DefaultRegistrations(body, uid, filename) == [DefaultRegistration(uid, filename)];
    var regs := Registrations(bindings, filename);
    forall j | 0 <= j < |regs|
      ensures ParseRegistration(regs[j]).Some? && ParseRegistration(regs[j]).value.name != "default"
    {
      UnboundNameNotRegistered(bindings, filename, regs[j], "default");
    }
  }

  /**
    A default export of a named declaration stays where it is, and no
    default registration is added.
   */
  lemma NamedDefaultExportKept(body: seq<Node>, bindings: seq<Binding>, filename: string, uid: string, k: nat)
    requires WellFormedProgram(body)
    requires k < |body| && body[k].ExportDefaultDeclaration? && IsNamedDeclaration(body[k].declaration)
    ensures TransformStatement(body[k], uid) == [ExportDefaultDeclaration(LiftIfClass(body[k].declaration))]
    ensures TaggerRegistrations(body, bindings, filename, uid) == Registrations(bindings, filename)
  {
    NoHoistNoDefault(body, uid, filename);
  }

  // ---------------------------------------------------------------------------
  // The visitors at work
  // ---------------------------------------------------------------------------

  /** The Class visitor on one class: its body is walked in place. */
  method VisitClass(c: Node) returns (r: Node)
    requires IsClass(c)
    ensures r == LiftClass(c)
  {
    var classBody := new ClassBody(c.members);
    classBody.Visit();
    if c.ClassDeclaration? {
      r := ClassDeclaration(c.id, c.superClass, classBody.members);
    } else {
      r := ClassExpression(c.id, c.superClass, classBody.members);
    }
  }

  /**
    The visitors that fire on the top-level statement at `pos`: the default
    export visitor, then the Class visitor on the class it holds; or the
    Class visitor on a class declaration.
   */
  method VisitStatement(program: ProgramNode, pos: nat, uid: string, filename: string)
    requires pos < |program.body| && program.registrations.Some?
    modifies program
    ensures program.body
         == old(program.body[..pos]) + TransformStatement(old(program.body[pos]), uid) + old(program.body[pos + 1..])
    ensures program.registrations
         == Some(old(program.registrations.value) + DefaultHit(old(program.body[pos]), uid, filename))
  {
    var s := program.body[pos];
    assert program.body == program.body[..pos] + [s] + program.body[pos + 1..];
    assert program.registrations.value + [] == program.registrations.value;
    if s.ClassDeclaration? {
      var lifted := VisitClass(s);
      program.ReplaceStatement(pos, lifted);
    } else if s.ExportDefaultDeclaration? && ExportableDeclaration(s.declaration) {
      VisitDefaultExport(program, pos, uid, filename);
    }
  }

  /**
    The default export visitor on the statement at `pos`, then the Class
    visitor on the class it holds, if it holds one.
   */
  method VisitDefaultExport(program: ProgramNode, pos: nat, uid: string, filename: string)
    requires pos < |program.body| && program.registrations.Some?
    requires program.body[pos].ExportDefaultDeclaration? && ExportableDeclaration(program.body[pos].declaration)
    modifies program
    ensures program.body
         == old(program.body[..pos]) + TransformStatement(old(program.body[pos]), uid) + old(program.body[pos + 1..])
    ensures program.registrations
         == Some(old(program.registrations.value) + DefaultHit(old(program.body[pos]), uid, filename))
  {
    var s := program.body[pos];
    ghost var before, after, registered := program.body[..pos], program.body[pos + 1..], program.registrations.value;
    assert program.body == before + [s] + after;
    DefaultExportShape(s, uid, filename);
    if IsNamedDeclaration(s.declaration) {
      VisitNamedDefault(program, pos, uid, filename);
      assert registered + [] == registered;
    } else {
      VisitHoistedDefault(program, pos, uid, filename);
    }
  }

  /** A named default export keeps its place; a class it holds is lifted. */
  method VisitNamedDefault(program: ProgramNode, pos: nat, uid: string, filename: string)
    requires pos < |program.body| && program.registrations.Some?
    requires program.body[pos].ExportDefaultDeclaration? && ExportableDeclaration(program.body[pos].declaration)
    requires IsNamedDeclaration(program.body[pos].declaration)
    modifies program
    ensures program.body == old(program.body)[pos := ExportDefaultDeclaration(LiftIfClass(old(program.body[pos].declaration)))]
    ensures program.registrations == old(program.registrations)
  {
    var s := program.body[pos];
    var d := s.declaration;
    program.VisitExportDefault(pos, uid, filename);
    if IsClass(d) {
      var lifted := VisitClass(d);
      program.ReplaceStatement(pos, ExportDefaultDeclaration(lifted));
    } else {
      assert program.body[pos] == ExportDefaultDeclaration(d);
    }
  }

  /** An unnamed default export is hoisted and registered; a class it holds is lifted. */
  method VisitHoistedDefault(program: ProgramNode, pos: nat, uid: string, filename: string)
    requires pos < |program.body| && program.registrations.Some?
    requires program.body[pos].ExportDefaultDeclaration? && ExportableDeclaration(program.body[pos].declaration)
    requires !IsNamedDeclaration(program.body[pos].declaration)
    modifies program
    ensures program.body
         == old(program.body[..pos])
            + [HoistedDefault(uid, LiftIfClass(old(program.body[pos].declaration))), ExportDefaultDeclaration(Identifier(uid))]
            + old(program.body[pos + 1..])
    ensures program.registrations == Some(old(program.registrations.value) + [DefaultRegistration(uid, filename)])
  {
    var d := program.body[pos].declaration;
    ghost var before, after := program.body[..pos], program.body[pos + 1..];
    var exported := ExportDefaultDeclaration(Identifier(uid));
    program.VisitExportDefault(pos, uid, filename);
    assert program.body == before + [HoistedDefault(uid, d), exported] + after;
    if IsClass(d) {
      var lifted := VisitClass(d);
      program.ReplaceStatement(pos, HoistedDefault(uid, lifted));
      assert program.body == before + [HoistedDefault(uid, lifted), exported] + after;
    }
  }

  /** What a default export becomes, and the registration it adds, by whether its declaration is named. */
  lemma DefaultExportShape(s: Node, uid: string, filename: string)
    requires s.ExportDefaultDeclaration? && ExportableDeclaration(s.declaration)
    ensures IsNamedDeclaration(s.declaration) ==>
      && TransformStatement(s, uid) == [ExportDefaultDeclaration(LiftIfClass(s.declaration))]
      && DefaultHit(s, uid, filename) == []
    ensures !IsNamedDeclaration(s.declaration) ==>
      && TransformStatement(s, uid)
         == [HoistedDefault(uid, LiftIfClass(s.declaration)), ExportDefaultDeclaration(Identifier(uid))]
      && DefaultHit(s, uid, filename) == [DefaultRegistration(uid, filename)]
  {
  }

  lemma PrefixStep(body: seq<Node>, i: nat, uid: string, filename: string)
    requires i < |body|
    ensures TransformStatements(body[..i + 1], uid) == TransformStatements(body[..i], uid) + TransformStatement(body[i], uid)
    ensures DefaultRegistrations(body[..i + 1], uid, filename)
         == DefaultRegistrations(body[..i], uid, filename) + DefaultHit(body[i], uid, filename)
  {
    assert body[..i + 1] == body[..i] + [body[i]];
    ConcatMapSnoc(t => TransformStatement(t, uid), body[..i], body[i]);
    ConcatMapSnoc(t => DefaultHit(t, uid, filename), body[..i], body[i]);
  }

  /** The loop step of Run: the statement `body[i]`, found at `pos`, is visited. */
  method VisitNext(program: ProgramNode, body: seq<Node>, i: nat, pos: nat,
                   bindings: seq<Binding>, uid: string, filename: string) returns (next: nat)
    requires i < |body|
    requires program.body == TransformStatements(body[..i], uid) + body[i..]
    requires pos == |TransformStatements(body[..i], uid)|
    requires program.registrations == Some(Registrations(bindings, filename) + DefaultRegistrations(body[..i], uid, filename))
    modifies program
    ensures program.body == TransformStatements(body[..i + 1], uid) + body[i + 1..]
    ensures next == |TransformStatements(body[..i + 1], uid)|
    ensures program.registrations
         == Some(Registrations(bindings, filename) + DefaultRegistrations(body[..i + 1], uid, filename))
  {
    var s := body[i];
    ghost var done, rest := TransformStatements(body[..i], uid), body[i + 1..];
    ghost var before, registered := program.body, program.registrations.value;
    assert body[i..] == [s] + rest;
    assert before == done + [s] + rest;
    assert before[..pos] == done && before[pos] == s && before[pos + 1..] == rest;
    PrefixStep(body, i, uid, filename);
    VisitStatement(program, pos, uid, filename);
    ghost var t := TransformStatement(s, uid);
    assert program.body == done + t + rest;
    ghost var defaults := DefaultRegistrations(body[..i], uid, filename);
    assert registered + DefaultHit(s, uid, filename)
        == Registrations(bindings, filename) + (defaults + DefaultHit(s, uid, filename));
    next := pos + |TransformStatement(s, uid)|;
  }

  /**
    The plugin on one program: nothing at all in production (lines
    109-112); otherwise `Program.enter`, the statements visited in order,
    and `Program.exit`.
   */
  method Run(body: seq<Node>, production: bool, bindings: seq<Binding>, filename: string,
             uid: string, unused: string) returns (result: seq<Node>)
    requires WellFormedProgram(body)
    ensures production ==> result == body
    ensures result == Transform(body, production, bindings, filename, uid, unused)
  {
    if production {
      return body;
    }
    var program := new ProgramNode(body);
    program.Enter(bindings, filename);
    var i, pos := 0, 0;
    assert Registrations(bindings, filename) + [] == Registrations(bindings, filename);
    while i < |body|
      invariant 0 <= i <= |body|
      invariant program.body == TransformStatements(body[..i], uid) + body[i..]
      invariant pos == |TransformStatements(body[..i], uid)|
      invariant program.registrations
             == Some(Registrations(bindings, filename) + DefaultRegistrations(body[..i], uid, filename))
    {
      pos := VisitNext(program, body, i, pos, bindings, uid, filename);
      i := i + 1;
    }
    assert body[..i] == body;
    program.Exit(unused);
    result := program.body;
  }
}
