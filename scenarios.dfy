/** The repository's test sources, plus the unbound-deletion case, written
    out as the trees the parser gives for them. Constants, operators, argument lists and other nodes
    without children of interest appear as `Other([])` where the visit
    reaches them. */
module Scenarios {
  import opened Syntax
  import opened NameEvents
  import opened NameTree

  lemma EventsOfPair(a: Node, b: Node)
    ensures Events(Other([a, b])) == Events(a) + Events(b)
  {
    assert [a, b][1..] == [b];
    assert [b][1..] == [];
    assert EventsSeq([b]) == Events(b) + EventsSeq([]);
    assert Events(b) + [] == Events(b);
  }

  // bar()
  // x
  // 3 * y
  lemma BasicExpressions()
    ensures Collect(Other([Other([Other([Name("bar", Load)])]), Other([Name("x", Load)]),
                            Other([Other([Other([]), Other([]), Name("y", Load)])])])) == Ok({})
  {
    var tree := Other([Other([Other([Name("bar", Load)])]), Other([Name("x", Load)]),
                        Other([Other([Other([]), Other([]), Name("y", Load)])])]);
    OnlyLoadsUnchanged({}, tree);
  }

  // import sys, os
  // import sys as foo
  // from foo import (bar as baz, alpha)
  // def my_func(): ...
  // class MyClass: ...
  // MYCONSTANT = 1
  const AllImports: seq<Node> := [
    Import([Alias("sys", None), Alias("os", None)]),
    Import([Alias("sys", Some("foo"))]),
    ImportFrom([Alias("bar", Some("baz")), Alias("alpha", None)])]
  const AllDefinitions: seq<Node> := [
    FunctionDef("my_func", [Other([]), Other([Other([])])]),
    ClassDef("MyClass", [Other([Other([])])]),
    Other([Name("MYCONSTANT", Store), Other([])])]

  lemma AllTogetherEvents()
    ensures Events(Other(AllImports + AllDefinitions)) ==
            [Bind("sys"), Bind("os"), Bind("foo"), Bind("baz"), Bind("alpha"),
             Bind("my_func"), Bind("MyClass"), Bind("MYCONSTANT")]
  {
    EventsSeqAppend(AllImports, AllDefinitions);
    assert EventsSeq(AllImports) == [Bind("sys"), Bind("os"), Bind("foo"), Bind("baz"), Bind("alpha")];
    assert EventsSeq(AllDefinitions) == [Bind("my_func"), Bind("MyClass"), Bind("MYCONSTANT")];
  }

  lemma PuttingItAllTogether()
    ensures Collect(Other(AllImports + AllDefinitions))
            == Ok({"sys", "os", "foo", "baz", "alpha", "my_func", "MyClass", "MYCONSTANT"})
  {
    AllTogetherEvents();
    assert Replay({}, [Bind("sys"), Bind("os"), Bind("foo"), Bind("baz"), Bind("alpha"),
                       Bind("my_func"), Bind("MyClass"), Bind("MYCONSTANT")]).names
           == {"sys", "os", "foo", "baz", "alpha", "my_func", "MyClass", "MYCONSTANT"};
  }

  // from foo import bar as baz
  lemma FromImportAlias()
    ensures Collect(Other([ImportFrom([Alias("bar", Some("baz"))])])) == Ok({"baz"})
  {
  }

  // def foo():
  //     x = 10
  //     def bar(): ...
  lemma FunctionWithLocals()
    ensures Collect(Other([FunctionDef("foo", [Other([]), Other([Name("x", Store), Other([])]),
                                                FunctionDef("bar", [Other([]), Other([Other([])])])])]))
            == Ok({"foo"})
  {
  }

  // class Foo(Bar, Baz):
  //     ...
  lemma ClassWithParents()
    ensures Collect(Other([ClassDef("Foo", [Name("Bar", Load), Name("Baz", Load), Other([Other([])])])]))
            == Ok({"Foo"})
  {
  }

  // class Foo:
  //     x = 10
  //     def bar(self):
  //         y = 2
  lemma ClassWithLocals()
    ensures Collect(Other([ClassDef("Foo", [Other([Name("x", Store), Other([])]),
                                            FunctionDef("bar", [Other([]), Other([Name("y", Store), Other([])])])])]))
            == Ok({"Foo"})
  {
  }

  // foo += 1
  lemma AugmentedAssignment()
    ensures Collect(Other([Other([Name("foo", Store), Other([]), Other([])])])) == Ok({"foo"})
  {
  }

  // foo: int = 1
  lemma AnnotatedAssignment()
    ensures Collect(Other([Other([Name("foo", Store), Name("int", Load), Other([])])])) == Ok({"foo"})
  {
  }

  // if (foo := bar()): ...
  lemma WalrusInIf()
    ensures Events(Other([Other([Name("foo", Store), Other([Name("bar", Load)])]), Other([Other([])])]))
            == [Bind("foo")]
  {
  }

  // while (baz := bar()): ...
  lemma WalrusInWhile()
    ensures Events(Other([Other([Name("baz", Store), Other([Name("bar", Load)])]), Other([Other([])])]))
            == [Bind("baz")]
  {
  }

  lemma WalrusAssignment()
    ensures Collect(Other([Other([Other([Name("foo", Store), Other([Name("bar", Load)])]), Other([Other([])])]),
                           Other([Other([Name("baz", Store), Other([Name("bar", Load)])]), Other([Other([])])])]))
            == Ok({"foo", "baz"})
  {
    WalrusInIf();
    WalrusInWhile();
    EventsOfPair(Other([Other([Name("foo", Store), Other([Name("bar", Load)])]), Other([Other([])])]),
                 Other([Other([Name("baz", Store), Other([Name("bar", Load)])]), Other([Other([])])]));
    assert Replay({}, [Bind("foo"), Bind("baz")]) == Outcome({"foo", "baz"}, None);
  }

  // for foo in bar: ...   (the async form gives the same tree shape)
  lemma ForTarget()
    ensures Collect(Other([Other([Name("foo", Store), Name("bar", Load), Other([Other([])])])])) == Ok({"foo"})
  {
  }

  // with foo() as bar: ...   (the async form gives the same tree shape)
  lemma WithTarget()
    ensures Collect(Other([Other([Other([Other([Name("foo", Load)]), Name("bar", Store)]), Other([Other([])])])])) == Ok({"bar"})
  {
  }

  // [foo for foo in bar]   -- the comprehension's target leaks out
  lemma ComprehensionLeaks()
    ensures Collect(Other([Other([Other([Name("foo", Load),
                                          Other([Name("foo", Store), Name("bar", Load)])])])]))
            == Ok({"foo"})
  {
  }

  // if False:
  //     foo = 1            -- the branch is not evaluated, so foo is bound
  lemma IfFalseStillBinds()
    ensures Collect(Other([Other([Other([]), Other([Name("foo", Store), Other([])])])])) == Ok({"foo"})
  {
  }

  // x = 1
  // del x
  lemma BasicDelete()
    ensures Collect(Other([Other([Name("x", Store), Other([])]), Other([Name("x", Del)])])) == Ok({})
  {
  }

  // x = 1
  // del x
  // x = 1
  lemma DeleteThenReassign()
    ensures Collect(Other([Other([Name("x", Store), Other([])]), Other([Name("x", Del)]),
                            Other([Name("x", Store), Other([])])])) == Ok({"x"})
  {
  }

  // del x   -- with nothing bound: set.remove raises KeyError
  lemma DeleteUnbound()
    ensures Collect(Other([Other([Name("x", Del)])])) == KeyError("x")
  {
  }
}
