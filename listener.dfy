/** The name collector as `ast_names/_main.py` writes it: a visitor object that owns
    a mutable set of names and changes it in place as it walks the tree. */
module Listener {
  import opened Syntax
  import opened NameEvents

  /** The names an import node binds, built by a loop over its aliases:
      one entry per alias, in alias order, the `as` name when present and
      otherwise the imported name as written (dotted paths included). */
  method CollectImportNames(node: Node) returns (x: seq<string>)
    requires node.Import? || node.ImportFrom?
    ensures |x| == |node.aliases|
    ensures forall i :: 0 <= i < |node.aliases| ==>
              x[i] == if node.aliases[i].asname.Some? then node.aliases[i].asname.value
                      else node.aliases[i].name
  {
    x := [];
    for k := 0 to |node.aliases|
      invariant |x| == k
      invariant forall i :: 0 <= i < k ==> x[i] == node.aliases[i].Bound()
    {
      var alias := node.aliases[k];
      if alias.asname.Some? {
        x := x + [alias.asname.value];
      } else {
        x := x + [alias.name];
      }
    }
  }

  class NameListener {
    /** The names bound so far. */
    var names: set<string>

    constructor ()
      ensures names == {}
    {
      names := {};
    }

    method VisitImport(node: Node)
      requires node.Import?
      modifies this
      ensures names == old(names) + (set a | a in node.aliases :: a.Bound())
    {
      var collected := CollectImportNames(node);
      names := names + (set n | n in collected);
      AliasNames(node.aliases, collected);
    }

    method VisitImportFrom(node: Node)
      requires node.ImportFrom?
      modifies this
      ensures names == old(names) + (set a | a in node.aliases :: a.Bound())
    {
      var collected := CollectImportNames(node);
      names := names + (set n | n in collected);
      AliasNames(node.aliases, collected);
    }

    /** Adds the function's own name; the body is not visited. */
    method VisitFunctionDef(node: Node)
      requires node.FunctionDef?
      modifies this
      ensures names == old(names) + {node.name}
    {
      names := names + {node.name};
    }

    method VisitAsyncFunctionDef(node: Node)
      requires node.AsyncFunctionDef?
      modifies this
      ensures names == old(names) + {node.name}
    {
      names := names + {node.name};
    }

    method VisitClassDef(node: Node)
      requires node.ClassDef?
      modifies this
      ensures names == old(names) + {node.name}
    {
      names := names + {node.name};
    }

    /** A load is ignored, a store adds the identifier, and a deletion
        removes it, raising `KeyError` (reported in `raised`, with the set
        left as it was) when the identifier is not bound. */
    method VisitName(node: Node) returns (raised: Option<string>)
      requires node.Name?
      modifies this
      ensures node.ctx.Load? ==> names == old(names) && raised == None
      ensures node.ctx.Store? ==> names == old(names) + {node.id} && raised == None
      ensures node.ctx.Del? && node.id in old(names) ==>
                names == old(names) - {node.id} && raised == None
      ensures node.ctx.Del? && node.id !in old(names) ==>
                names == old(names) && raised == Some(node.id)
    {
      raised := None;
      if node.ctx.Load? {
        return;
      }
      if node.ctx.Del? {
        if node.id !in names {
          raised := Some(node.id);
          return;
        }
        names := names - {node.id};
        return;
      }
      names := names + {node.id};
    }

    /** Visits the children in order; a raised `KeyError` stops the walk. */
    method GenericVisit(node: Node) returns (raised: Option<string>)
      requires node.Other?
      modifies this
      ensures Replay(old(names), EventsSeq(node.children)) == Outcome(names, raised)
      decreases node, 1
    {
      var children := node.children;
      raised := None;
      for i := 0 to |children|
        invariant raised == None
        invariant Replay(old(names), EventsSeq(children[..i])) == Outcome(names, None)
      {
        ghost var before := names;
        raised := Visit(children[i]);
        assert children[..i + 1] == children[..i] + [children[i]];
        EventsSeqSnoc(children[..i], children[i]);
        ReplayConcat(old(names), EventsSeq(children[..i]), Events(children[i]));
        assert Replay(old(names), EventsSeq(children[..i + 1])) == Outcome(names, raised) by {
          assert Then(Outcome(before, None), Events(children[i])) == Replay(before, Events(children[i]));
        }
        if raised.Some? {
          ReplayConcat(old(names), EventsSeq(children[..i + 1]), EventsSeq(children[i + 1..]));
          assert children == children[..i + 1] + children[i + 1..];
          EventsSeqAppend(children[..i + 1], children[i + 1..]);
          return;
        }
      }
      assert children[..|children|] == children;
    }

    /** Dispatches on the node kind, as the visitor's handler lookup does:
        the effect on `names` is the fold of the node's events. */
    method Visit(node: Node) returns (raised: Option<string>)
      modifies this
      ensures Replay(old(names), Events(node)) == Outcome(names, raised)
      decreases node, 2
    {
      raised := None;
      match node
      case Import(aliases) =>
        VisitImport(node);
        ReplayImport(old(names), aliases);
      case ImportFrom(aliases) =>
        VisitImportFrom(node);
        ReplayImport(old(names), aliases);
      case FunctionDef(_, _) =>
        VisitFunctionDef(node);
      case AsyncFunctionDef(_, _) =>
        VisitAsyncFunctionDef(node);
      case ClassDef(_, _) =>
        VisitClassDef(node);
      case Name(_, _) =>
        raised := VisitName(node);
      case Other(_) =>
        raised := GenericVisit(node);
    }
  }

  /** A list holding each alias's bound name, position by position, holds
      exactly the names the aliases bind. */
  lemma AliasNames(aliases: seq<Alias>, xs: seq<string>)
    requires |xs| == |aliases|
    requires forall i :: 0 <= i < |aliases| ==> xs[i] == aliases[i].Bound()
    ensures (set x | x in xs) == (set a | a in aliases :: a.Bound())
  {
    forall a | a in aliases ensures a.Bound() in xs {
      var i :| 0 <= i < |aliases| && aliases[i] == a;
      assert xs[i] == a.Bound();
    }
    forall x | x in xs ensures exists a :: a in aliases && a.Bound() == x {
      var i :| 0 <= i < |xs| && xs[i] == x;
      assert aliases[i] in aliases;
    }
  }

  lemma ReplayImport(s: set<string>, aliases: seq<Alias>)
    ensures Replay(s, Binds(ImportNames(aliases))) ==
            Outcome(s + (set a | a in aliases :: a.Bound()), None)
  {
    ReplayBinds(s, ImportNames(aliases));
    AliasNames(aliases, ImportNames(aliases));
  }

  /** The entry point on an already parsed tree: one fresh listener, one
      visit, and its names, or the `KeyError` the visit raised. */
  method AstNames(tree: Node) returns (r: Result)
    ensures r == Collect(tree)
  {
    var listener := new NameListener();
    var raised := listener.Visit(tree);
    if raised.Some? {
      r := KeyError(raised.value);
    } else {
      r := Ok(listener.names);
    }
  }
}
