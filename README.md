# ast_names in Dafny

A model of `ast_names`, which collects the top-level names a Python module
binds. It takes the parsed syntax tree and walks it with a visitor object
(`NameListener`) that owns a mutable set of names:

- imports add the name each alias binds: the `as` name, or else the imported
  name as written, dotted paths included;
- function, async function and class definitions add only their own name,
  and their body, arguments, decorators and bases are never visited;
- an identifier adds itself in store context, is ignored in load context and
  is removed in delete context;
- every other node kind is walked through, children in field order.

The walk is depth-first and in source order, so the last event on a name
decides whether it is in the result.

The project has five modules:

- `Syntax` (`syntax.dfy`) holds the tree. It keeps only the node kinds the
  listener tells apart, plus `Other(children)` for everything else.
- `NameEvents` (`events.dfy`) is the specification. It flattens a tree into
  its sequence of name events (`Events`), folds them over a set (`Replay`)
  and proves "last event wins" against a separate back-to-front reading
  (`LastWins`).
- `Listener` (`listener.dfy`) is the imperative model. It has the
  `NameListener` class with a `names: set<string>` field, one visit method
  per handler, the generic child loop, the import-name loop and the
  `AstNames` entry point. Each is proved against `NameEvents`.
- `NameTree` (`tree.dfy`) states properties against definitions that read
  the tree directly (`Binders`, `NoDeletes`, `OnlyLoads`, `Hollow`).
- `Scenarios` (`scenarios.dfy`) holds the repository's test sources, plus the
  unbound-deletion case, as trees, with the results the code gives.

**Deleting an unbound name.** The code removes a deleted identifier with
`set.remove`, which raises `KeyError` when the name is absent (`_main.py:75`).
Deleting an unbound name is therefore an error, not a no-op:

- `Replay` stops and records the key;
- `NameListener.VisitName` reports it in `raised` and leaves the set as it
  was;
- `AstNames` returns `KeyError(key)`.

## Model

| member | source | states |
|---|---|---|
| `Listener.CollectImportNames` | ast_names/_main.py:11-22 | one entry per alias, in alias order: the `as` name when present, otherwise the name as written |
| `Listener.NameListener.constructor` | ast_names/_main.py:44-46 | a new listener starts with the empty set |
| `Listener.NameListener.VisitImport` | ast_names/_main.py:48-51 | the set grows by exactly the names the aliases bind; nothing else changes and no child is visited |
| `Listener.NameListener.VisitImportFrom` | ast_names/_main.py:53-56 | the same for a from-import |
| `Listener.NameListener.VisitFunctionDef` | ast_names/_main.py:58-60 | adds exactly the function's name |
| `Listener.NameListener.VisitAsyncFunctionDef` | ast_names/_main.py:62-64 | adds exactly the async function's name |
| `Listener.NameListener.VisitClassDef` | ast_names/_main.py:66-68 | adds exactly the class's name |
| `Listener.NameListener.VisitName` | ast_names/_main.py:70-79 | load: no change; store: adds the id; delete: removes the id when bound, otherwise raises `KeyError(id)` with the set unchanged |
| `Listener.NameListener.GenericVisit` | ast_names/_main.py:25 | visits the children of a handler-less node in order; the new set is the fold of their events; a raised error stops the walk |
| `Listener.NameListener.Visit` | ast_names/_main.py:25-79 | dispatch by node kind; the effect of any visit is `Replay` of the node's events on the old set |
| `Listener.AliasNames` | ast_names/_main.py:51 | a list holding each alias's bound name, position by position, holds exactly the names the aliases bind, so `set.update` adds those names |
| `Listener.ReplayImport` | ast_names/_main.py:48-56 | an import's events add exactly its alias names and never raise |
| `Listener.AstNames` | ast_names/_main.py:82-97 | one fresh listener and one visit give `Collect(tree)`: the fold from the empty set, or the `KeyError` |
| `NameEvents.ReplayBinds` | ast_names/_main.py:51 | adding names one by one equals adding the whole list at once, as `set.update` does |
| `NameEvents.ReplayLastEventWins` | ast_names/_main.py:70-79 | the fold raises iff some deletion meets an unbound name, and the key raised is the first such deletion's; without a raise, a name is in the result iff its last event is a binding, or it was bound before and never mentioned |
| `NameEvents.RebindIdempotent` | ast_names/_main.py:79 | binding a name already present changes nothing |
| `NameTree.CollectWithinBinders` | ast_names/_main.py:58-68 | the result never holds a name outside the tree's binders, so a name found only inside a definition's body, arguments or bases never enters |
| `NameTree.CollectIgnoresDefinitionBodies` | ast_names/_main.py:58-68 | cutting away every definition's inner nodes leaves the result unchanged |
| `NameTree.NoDeletesAddsBinders` | ast_names/_main.py:45-79 | without deletions the walk never raises and adds exactly the binders, at any depth under handler-less nodes |
| `NameTree.OnlyLoadsUnchanged` | ast_names/_main.py:71-72 | a tree of load references leaves the set unchanged |
| `NameTree.DeleteUnboundRaises` | ast_names/_main.py:73-76 | a `del` statement for a name that no earlier statement binds makes the collector raise `KeyError` for it, whatever follows, when the earlier statements raised nothing themselves |
| `Scenarios.BasicExpressions` | tests/test_ast_names.py:16-24 | `bar()`, `x`, `3 * y` give the empty set |
| `Scenarios.PuttingItAllTogether` | tests/test_ast_names.py:305-334 | mixed imports, aliases, a function, a class and a constant give exactly their eight names |
| `Scenarios.FromImportAlias` | tests/test_ast_names.py:75-81 | `from foo import bar as baz` gives `{baz}` |
| `Scenarios.FunctionWithLocals` | tests/test_ast_names.py:104-114 | a function with a local and a nested function gives only its own name |
| `Scenarios.ClassWithParents` | tests/test_ast_names.py:137-144 | a class with bases gives only its own name |
| `Scenarios.ClassWithLocals` | tests/test_ast_names.py:147-156 | a class with a local and a method gives only its own name |
| `Scenarios.AugmentedAssignment` | tests/test_ast_names.py:168-174 | `foo += 1` on its own gives `{foo}` |
| `Scenarios.AnnotatedAssignment` | tests/test_ast_names.py:177-183 | `foo: int = 1` on its own gives `{foo}`; the annotation `int` is a load and binds nothing |
| `Scenarios.WalrusAssignment` | tests/test_ast_names.py:186-196 | walrus targets in `if` and `while` tests are bound |
| `Scenarios.ForTarget` | tests/test_ast_names.py:199-216 | a for-loop target is bound |
| `Scenarios.WithTarget` | tests/test_ast_names.py:250-267 | a with-statement target is bound |
| `Scenarios.ComprehensionLeaks` | tests/test_ast_names.py:219-226 | a comprehension's target appears in the result, as the code behaves; the test marks the opposite as expected to fail |
| `Scenarios.IfFalseStillBinds` | tests/test_ast_names.py:239-247 | a binding under `if False` still appears, as the code behaves; the test marks the opposite as expected to fail |
| `Scenarios.BasicDelete` | tests/test_ast_names.py:270-277 | `x = 1; del x` gives the empty set |
| `Scenarios.DeleteThenReassign` | tests/test_ast_names.py:280-288 | `x = 1; del x; x = 1` gives `{x}` |
| `Scenarios.DeleteUnbound` | ast_names/_main.py:73-76 | `del x` with nothing bound raises `KeyError("x")` |

## Left out

- Parsing (`ast.parse`, `_main.py:92`) and its `SyntaxError`. It is a library call, so the model takes the parsed tree as input.
- Logging (`_logger.info`) and line numbers. They have no effect on the result.
- The full Python grammar. Only the node kinds the listener tells apart are modelled. Every other node is `Other(children)`, with its AST children listed in the order `generic_visit` reaches them.
- Identifiers the grammar stores as plain strings are not `Name` nodes, so they bind nothing here, as in the code. Examples are `global` names, exception-handler names, `match` capture names and function parameters.
- The dispatch machinery of `ast.NodeVisitor` (`visit`, `generic_visit`) as library code. Its effect is modelled directly as `Visit` and `GenericVisit`.
- Python's recursion limit. `NodeVisitor.visit` and `generic_visit` use two interpreter frames per tree level, so `listener.visit(tree)` (`_main.py:95`) raises `RecursionError` on a tree a few hundred levels deep, such as a long left-deep `a + a + ... + a` chain. The model's `Visit` has no depth bound and always returns a result there.
- The `module` and `level` fields of a from-import. The collector never reads them.
- The case `tests/test_ast_names.py:291-302`, a `global x` / `del x` inside a function. Definition bodies are never visited, so it is a case of `NameTree.CollectIgnoresDefinitionBodies`.
- The test file's decorator plumbing and `xfail` markers. The scenarios state what the code does.
- On a `KeyError`, the model returns the state the set had when the error was raised. It does not unwind the partly updated listener, because `ast_names` discards the listener when the exception propagates.
