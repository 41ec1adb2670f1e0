# rlyeh Babel plugin: a Dafny model

This project models the Babel plugin of rlyeh (`src/babel/index.ts`). The
plugin prepares a module for hot reloading:

- **Registration.** Every reasonable top-level binding, and an unnamed
  `export default`, is registered with the runtime through a
  `__RLYEH__.register(ID, NAME, FILENAME)` statement. The statements are
  collected while the program is entered. On exit they are appended inside a
  guarded immediately invoked function, between two empty statements.
- **Class-member lifting.** A class property holding a synchronous arrow
  function, and every `this.x = <arrow>` assignment inside a constructor,
  becomes a method `__x__RLYEH__`. The original site becomes a shim that
  forwards to that method. A method can be replaced at run time; a
  per-instance arrow cannot.
- **Opt-out.** A property that mentions `arguments` or `new.target`
  anywhere is never lifted.

The syntax tree is one datatype, `Ast.Node`, with a constructor per node
type the plugin reads or builds. `Children`/`WithChildren` give a generic
traversal. The node builders are functions in `Templates`. Six of them have
a recogniser and a round-trip contract: `LiftedMethodName` (read back by
`LiftedKey`), `ForwardingArrow`, `BuildNewClassProperty` and
`BuildNewAssignmentExpression` (read back by `ShimTarget`), `BuildRegistration`
(read back by `ParseRegistration`) and `BuildTagger` (read back by
`TaggerParts`). The others, such as `NormalizedBody` and `BuildLiftedMethod`,
state the shape they build. The visitors that edit the tree in place are
classes:

- `ClassLifting.ClassBody` is the member list of one class, which the Class
  visitor walks.
- `Registration.ProgramNode` holds the program's statements and the
  collected registrations.

Each method is proved against a function on values:

| method | spec function |
|---|---|
| `ClassBody.Visit` | `LiftClassBody` |
| `ProgramNode.Enter` | `Registrations` |
| `Plugin.Run` | `Transform` |

The properties of the plugin are proved about those functions.

Host facilities are inputs:

- the production flag is a boolean;
- the scope's bindings are a sequence of `Binding` values;
- the file name is a string;
- the fresh names `generateUidIdentifier` would return are parameters.

## Model

| member | source | states |
|---|---|---|
| Templates.LiftedMethodName | src/babel/index.ts:249-251 | the key can be read back from the generated `__<key>__RLYEH__` name (built the same way for assignments at lines 290-292), and the name never equals the key |
| Templates.LiftedMethodNameInjective | src/babel/index.ts:249-251 | members with different keys are lifted into methods with different names, for properties and for assignments (lines 290-292) alike |
| Templates.ForwardingArrow | src/babel/index.ts:12-25 | the shim is `(...params) => this.m(...params)`, async and awaited exactly when asked, and recognisably forwards to `m` |
| Templates.BuildNewClassProperty | src/babel/index.ts:6-27 | a non-static property with the original key whose arrow forwards to the new method, awaiting it exactly when async |
| Templates.BuildNewAssignmentExpression | src/babel/index.ts:29-58 | a marked assignment to `this.<key>` whose arrow forwards to the new method, awaiting it exactly when async |
| Templates.NormalizedBody | src/babel/index.ts:253-257 | the method body is always a block: a block body is kept, an expression `e` becomes `{ return e; }` (the same normalisation as lines 294-298) |
| Templates.BuildLiftedMethod | src/babel/index.ts:259-267 | a non-static method of kind `method` with the lifted name, the arrow's parameters, its async flag and the normalised body (built the same way at lines 300-307) |
| Templates.BuildRegistration | src/babel/index.ts:93-95 | the statement calls `__RLYEH__.register`, and its ID, NAME and FILENAME arguments read back unchanged |
| Templates.BuildTagger | src/babel/index.ts:99-107 | a `var` bound to the unused name, initialised by an argument-free call of an anonymous function that starts with the runtime guard and then runs exactly the given registrations, in order |
| OptOut.IsOptOutNode | src/babel/index.ts:60-76 | the visitor's two cases: the meta-property `new.target`, or an identifier `arguments` |
| OptOut.OptOutExamples | src/babel/index.ts:60-76 | `new.target` and `arguments` opt out, also below a member access; `this.arguments`, `new.foo`, `import.meta` and other names do not |
| OptOut.ScanOptOut | src/babel/index.ts:225-233 | the worklist walk over the property's descendants sets the flag exactly when a `new.target` or an `arguments` reference occurs strictly below the property |
| ClassLifting.IsLiftableAssignment | src/babel/index.ts:279-284 | the constructor walk lifts an assignment exactly when it is not marked replaced, its left side is `this.<key>` and its right side an arrow function |
| ClassLifting.RewriteAssignments | src/babel/index.ts:277-321 | after the constructor walk no unmarked `this.x = <arrow>` remains anywhere; node kinds that the lifting test reads are preserved |
| ClassLifting.Sites | src/babel/index.ts:277-284 | the assignments the constructor walk lifts, in traversal order, are all unmarked `this.x = <arrow>` assignments; the walk does not look inside one it replaces |
| ClassLifting.SitesOccur | src/babel/index.ts:277-284 | every site is an assignment that occurs in the walked body |
| ClassLifting.SitesComplete | src/babel/index.ts:277-284 | the walk misses no unmarked `this.x = <arrow>`: each one in the body is a site or lies inside one |
| ClassLifting.MethodsOf | src/babel/index.ts:285-307 | one method per site, in the order of the sites, each the method lifted from its site |
| ClassLifting.LiftedMethods | src/babel/index.ts:288-307 | every method lifted from a constructor is a non-static, marked method of kind `method` with a lifted name and a block body |
| ClassLifting.LiftedMethodsPerSite | src/babel/index.ts:277-307 | the walk creates exactly one method per site, in site order, holding that site's parameters, normalised body, async flag and the name `__<key>__RLYEH__` |
| ClassLifting.RewriteKeepsRest | src/babel/index.ts:277-321 | the constructor walk changes nothing outside the `this.<key> = <arrow>` assignments: with their arrows and markers blanked out, the body before and after the walk is the same tree, so every other node keeps its place and each such assignment still assigns the same member |
| ClassLifting.RewriteInPlace | src/babel/index.ts:309-317 | the walk replaces each site where it stands: the `this.<key> = <arrow>` assignments of the rewritten body are, one for one and in order, the original ones rewritten, so each unmarked one is now exactly its own forwarding assignment |
| ClassLifting.ShimInRewrite | src/babel/index.ts:309-317 | the forwarding assignment of every site stands in the rewritten constructor body |
| ClassLifting.ShimsCallLiftedMethods | src/babel/index.ts:285-317 | the shim left at the i-th site forwards, async exactly when the arrow was, to the name of the i-th method the walk creates |
| ClassLifting.NothingToRewriteIsFixed | src/babel/index.ts:279-284 | a constructor body with nothing unmarked to lift is left exactly as it is |
| ClassLifting.NothingToLiftYieldsNothing | src/babel/index.ts:279-284 | a constructor body with nothing unmarked to lift adds no method |
| ClassLifting.RewriteIdempotent | src/babel/index.ts:276-321 | a second constructor walk changes nothing and creates nothing, thanks to the replaced marker |
| ClassLifting.AssignmentLiftForwards | src/babel/index.ts:285-318 | the shim assigns the same member and calls the lifted method; shim and method are async exactly when the arrow was; putting the method's parameters and body back into an arrow gives the original assignment |
| ClassLifting.IsLiftableProperty | src/babel/index.ts:221-246 | a property is lifted exactly when it is not static, nothing below it opts out, and its value is an arrow function that is not async |
| ClassLifting.LiftMember | src/babel/index.ts:217-321 | a liftable property becomes two members; any other property, and any member that is neither a property nor an unmarked constructor, stays as it is; a constructor becomes its rewritten self followed by its lifted methods, the last one met first |
| ClassLifting.LiftClassBody | src/babel/index.ts:216-322 | the class body after the visitor: each member replaced, in place, by what `LiftMember` makes of it |
| ClassLifting.LiftClassBodyAppend | src/babel/index.ts:216-322 | the visitor treats members independently and in place: it distributes over concatenation |
| ClassLifting.LiftedPropertyForwards | src/babel/index.ts:248-274 | a lifted property becomes a shim with the same key, forwarding synchronously to a non-static method `__key__RLYEH__` that holds the arrow's parameters and body; restoring the arrow gives the original property |
| ClassLifting.LiftedPropertyInPlace | src/babel/index.ts:268-274 | the shim takes the property's place and the method sits directly after it, one member more than before |
| ClassLifting.PropertyShimIsLiftableAgain | src/babel/index.ts:272-274 | the property shim carries no marker and is itself liftable: a second visit would lift it into a method of the same name |
| ClassLifting.ConstructorLiftIsIdempotent | src/babel/index.ts:276-321 | the constructor keeps its place followed by the lifted methods, all marked methods, and a second visit of the rewritten constructor leaves it alone |
| ClassLifting.ConstructorLiftPerSite | src/babel/index.ts:276-321 | the class gains exactly one member per site: the rewritten constructor holds every site's shim, and the method lifted from the site met first ends up last |
| ClassLifting.MethodsStay | src/babel/index.ts:276 | plain methods are never touched by the visitor |
| ClassLifting.LiftClassBodyIdempotent | src/babel/index.ts:216-322 | visiting a class twice gives the same member list as visiting it once, when the first visit lifted no property |
| ClassLifting.ClassBody.InsertAfter | src/babel/index.ts:268 | `path.insertAfter` places the node directly after the given member and moves nothing else (used again at line 308) |
| ClassLifting.ClassBody.ReplaceWith | src/babel/index.ts:272-274 | `path.replaceWith` changes only the given member |
| ClassLifting.ClassBody.VisitProperty | src/babel/index.ts:217-275 | visiting a property in place gives exactly what `LiftMember` states, at the property's position |
| ClassLifting.ClassBody.InsertEachAfter | src/babel/index.ts:308 | inserting each lifted method directly after the constructor, in the order they are met, leaves them after it in reverse order and moves nothing else |
| ClassLifting.ClassBody.VisitConstructor | src/babel/index.ts:276-321 | inserting each lifted method directly after the constructor, then rewriting it, gives exactly what `LiftMember` states |
| ClassLifting.ClassBody.VisitMember | src/babel/index.ts:217-321 | the callback on one member gives exactly what `LiftMember` states, at the member's position |
| ClassLifting.ClassBody.Visit | src/babel/index.ts:216-322 | the in-place walk over the members present at the start yields `LiftClassBody` of the original members |
| Registration.ShouldRegisterBinding | src/babel/index.ts:117-134 | function, class and variable declarations are registered, a declarator unless it is initialised by a bare `require` call, any other binding never |
| Registration.RequireExamples | src/babel/index.ts:124-130 | `require('x')` is rejected; `require('x')()`, `module.require('x')`, other calls, literals and missing initialisers are accepted; imports are rejected |
| Registration.BindingRegistration | src/babel/index.ts:181-187 | a binding's registration carries its identifier, its name and the file name |
| Registration.Registrations | src/babel/index.ts:178-189 | every collected registration belongs to an accepted binding, and every accepted binding is registered |
| Registration.RegistrationsDistinct | src/babel/index.ts:178-189 | with the scope's unique binding names, no registration is collected twice: there is exactly one per accepted binding |
| Registration.RegistrationsAppend | src/babel/index.ts:178-189 | registrations follow the order of the scope's bindings |
| Registration.RegisteredIff | src/babel/index.ts:117-134 | a binding is registered if and only if it is a function, class or variable declaration, or a declarator not initialised by a bare `require` call |
| Registration.UnboundNameNotRegistered | src/babel/index.ts:178-189 | no registration carries a name that no binding has |
| Registration.HasIdProperty | src/babel/index.ts:143 | the guard as written: function, class and arrow nodes always carry an `id` key, named or not |
| Registration.IsNamedDeclaration | src/babel/index.ts:141-143 | the guard as the comment means it: a function or class declaration with a name, which is already a module binding |
| Registration.ToExpression | src/babel/index.ts:150-152 | a function or class declaration becomes the matching expression with the same name and children; an expression is unchanged |
| Registration.HoistedDefault | src/babel/index.ts:147-157 | a `const` declaration with one declarator binding `uid`, initialised by `ToExpression` of the declaration: the declaration itself when it already is an expression, otherwise the matching expression with the same name, parameters, async flag, body, superclass and members |
| Registration.DefaultRegistration | src/babel/index.ts:162-168 | the default export's registration has ID `uid`, NAME `"default"` and the file name |
| Registration.AsWrittenNeverConverts | src/babel/index.ts:143-152 | as written, whatever passes the guard is already an expression, so the conversion of lines 150-152 never applies |
| Registration.AsWrittenSkipsAnonymous | src/babel/index.ts:143-145 | as written, anonymous function and class declarations and arrows pass the `id` test and are left unregistered |
| Registration.CorrectedGuardConverts | src/babel/index.ts:143-152 | the corrected guard lets an anonymous function declaration through and converts it, and skips only what the written guard skips |
| Registration.ProgramNode.Enter | src/babel/index.ts:172-191 | entering leaves the statements alone and collects exactly `Registrations(bindings)` |
| Registration.ProgramNode.VisitExportDefault | src/babel/index.ts:140-169 | a named default export is untouched; otherwise `const uid = <expression>` is inserted before it, the export refers to `uid`, and the default registration is collected after the others |
| Registration.ProgramNode.Exit | src/babel/index.ts:193-210 | the statements gain exactly an empty statement, the tagger with the collected registrations, and an empty statement; the collection is cleared |
| Plugin.TransformStatement | src/babel/index.ts:139-169 | one top-level statement after the visitors: a class has its members lifted, an unnamed default export becomes the hoisted constant and `export default uid`, a named one keeps its place with its class lifted, any other statement stays |
| Plugin.Transform | src/babel/index.ts:139-211 | in production the program unchanged; otherwise the statements rewritten one by one, then the epilogue holding the bindings' registrations and the default one |
| Plugin.EpilogueAppended | src/babel/index.ts:193-210 | outside production the output is the rewritten statements followed by exactly three statements, the middle one the tagger with the bindings' registrations, then the default one |
| Plugin.TransformStatementsAppend | src/babel/index.ts:139-211 | each top-level statement is rewritten where it stands, independently of the others |
| Plugin.OtherStatementsStay | src/babel/index.ts:139-324 | statements that are not default exports and hold no class anywhere come out unchanged |
| Plugin.NoHoistNoDefault | src/babel/index.ts:162-168 | without an unnamed default export no default registration is added |
| Plugin.DefaultExportRegistered | src/babel/index.ts:143-168 | an unnamed default export is replaced in place by the hoisted constant and `export default uid`, and exactly one registration, the last, is named "default", with ID `uid` |
| Plugin.NamedDefaultExportKept | src/babel/index.ts:143-145 | a named default export keeps its place, and only the bindings are registered |
| Plugin.VisitClass | src/babel/index.ts:212-324 | running the Class visitor on a class yields that class with `LiftClassBody` of its members |
| Plugin.VisitStatement | src/babel/index.ts:140-169 | the visitors firing on one statement replace it by `TransformStatement` of it and collect its default registration, if any |
| Plugin.VisitDefaultExport | src/babel/index.ts:140-169 | the default export visitor, then the Class visitor on its class, give `TransformStatement` of the export and collect its registration, if any |
| Plugin.VisitNamedDefault | src/babel/index.ts:143-145 | a named default export keeps its place, with its class lifted if it is one, and nothing is registered |
| Plugin.VisitHoistedDefault | src/babel/index.ts:146-168 | an unnamed default export becomes `const uid = <declaration, class lifted>; export default uid`, and the default registration is collected last |
| Plugin.Run | src/babel/index.ts:109-211 | in production the program comes out unchanged; otherwise enter, the statement visits and exit together produce `Transform` |

## Left out

- The Webpack loader (`src/webpack/index.ts`) is not part of this model: it is file and source-map plumbing.
- The check at lines 80-90 that throws when the plugin is loaded as a Webpack loader is not modelled. It inspects the host.
- Babel's traversal machinery is modelled only as far as the plugin relies on it: sequence operations for `insertBefore`, `insertAfter`, `replaceWith` and `push`, and a worklist for `path.traverse`. Its re-queueing of replaced and inserted nodes is not modelled.
- `process.env.NODE_ENV` is the `production` parameter.
- `scope.generateUidIdentifier` is modelled by the `uid` and `unused` parameters. Their freshness is assumed, not checked.
- The runtime behind `__RLYEH__.register` is not modelled; only the shape of the generated calls is.
- The `replaced` and `REGISTRATIONS` symbols are a boolean field on nodes and an `Option` field on the program node.
- Plugin.Run: the Class visitor runs on every class in the file. `Run` applies it to top-level class declarations and to the class of the default export only. Nested classes and class expressions elsewhere are left as they are, because a tree-wide walk that also visits the members it inserts needs a termination argument over a growing tree. `ClassBody.Visit` models one class fully.
- Member keys are plain names. The source also lifts a computed key, `[k] = () => …` or `this[k] = () => …`, naming the method after `key.name` and rebuilding the shim as a non-computed `k = …` or `this.k = …` (lines 26 and 49-52). A string-literal key has no `name`, so its method is called `__undefined__RLYEH__`. Neither is modelled.
- The assignment operator is not modelled. Lines 279-284 never read it, so `this.x += () => …` is lifted too and its shim is written with `=`.
- Plugin.VisitStatement: only the Class visitor runs on top-level class declarations and on the class of a default export. A class nested in a function or held by an expression, such as `const C = class { f = () => 1 }`, is lifted by the source but left as it is by the model (see Plugin.Run).
- Plugin.TransformStatement: only a top-level class declaration and the class of a default export have their members lifted. A class held by any other statement, such as `const C = class { f = () => 1 }` or a class declared inside a function, comes back unchanged, although the source's Class visitor lifts it. Named exports such as `export class Foo extends Component { … }` cannot be written at all, because `Ast.Node` has no `ExportNamedDeclaration`.
- Plugin.Transform: rewrites each statement with `TransformStatement`, so it leaves the same classes unlifted: classes nested in other statements, and classes under `export class`, which `Ast.Node` cannot express.
- Plugin.OtherStatementsStay requires that no class occurs anywhere in the statements, since the source lifts nested classes and class expressions that the model does not visit.
- Parameters are names with a rest flag. Destructuring patterns, default values, type annotations and decorators are not modelled.
- Node types the plugin never reads or builds (loops, object literals, JSX and so on) are not in `Ast.Node`.
- ClassLifting.ClassBody.VisitConstructor: the source replaces each assignment as it meets it, interleaved with the insertions. The model inserts all the lifted methods and then writes the rewritten constructor once. The final member list is the same.
- Registration.ProgramNode.VisitExportDefault requires the declaration to be a function or class declaration or an expression. `t.toExpression` throws for anything else. `Plugin.WellFormedProgram` also assumes at most one `export default`, which the module grammar guarantees.
- Registration.RegisteredIff assumes binding names are unique, as the keys of `scope.bindings` are.
- Plugin.DefaultExportRegistered assumes no binding is named `default`, which is a reserved word.

## Findings

| source | as written | input that shows it | evidently intended | confidence | as-written member | corrected member |
|---|---|---|---|---|---|---|
| src/babel/index.ts:143 | `declaration.hasOwnProperty('id')` holds for every function, class and arrow node, because the parser always creates the `id` key (null when anonymous). Every such default export is skipped and never registered, and the `t.toExpression` branch at lines 150-152 can never run | `export default function () {}`, `export default class {}` or `export default () => {}` | skip only declarations with a non-null `id`, as the comment at lines 141-142 says; this is also the plugin's documented behaviour for `export default () => {}` | not executed; rests on the parser giving every function and class node an `id` key | Registration.AsWrittenSkipsAnonymous | Plugin.DefaultExportRegistered |

The as-written guard is `Registration.HasIdProperty`, and
`Registration.AsWrittenNeverConverts` shows that the conversion branch is
dead under it. The corrected guard is `Registration.IsNamedDeclaration`.
`Registration.ProgramNode.VisitExportDefault` and `Plugin.Run` use it, and
`Registration.CorrectedGuardConverts` shows that the conversion now applies.
