/** Properties of the collector stated on the tree itself, against
    definitions that read the tree without replaying it. */
module NameTree {
  import opened Syntax
  import opened NameEvents

  /** The names a tree can bind, read off the tree in no particular order:
      import names, the names of definitions (never anything inside them)
      and identifiers in store context, wherever they sit under nodes that
      have no handler of their own. */
  function Binders(n: Node): (names: set<string>)
    decreases n
  {
    match n
    case Import(aliases) => set a | a in aliases :: a.Bound()
    case ImportFrom(aliases) => set a | a in aliases :: a.Bound()
    case FunctionDef(name, _) => {name}
    case AsyncFunctionDef(name, _) => {name}
    case ClassDef(name, _) => {name}
    case Name(id, ctx) => if ctx.Store? then {id} else {}
    case Other(children) => BindersSeq(children)
  }

  function BindersSeq(ns: seq<Node>): (names: set<string>)
    decreases ns
  {
    if ns == [] then {} else Binders(ns[0]) + BindersSeq(ns[1..])
  }

  /** No identifier in delete context is reached by the walk. */
  predicate NoDeletes(n: Node)
    decreases n
  {
    match n
    case Name(_, ctx) => !ctx.Del?
    case Other(children) => forall c | c in children :: NoDeletes(c)
    case _ => true
  }

  /** The tree is made of load references and handler-less nodes only. */
  predicate OnlyLoads(n: Node)
    decreases n
  {
    match n
    case Name(_, ctx) => ctx.Load?
    case Other(children) => forall c | c in children :: OnlyLoads(c)
    case _ => false
  }

  /** The tree with every definition's inner nodes (body, arguments,
      decorators, bases) cut away. */
  function Hollow(n: Node): (h: Node)
    decreases n
  {
    match n
    case FunctionDef(name, _) => FunctionDef(name, [])
    case AsyncFunctionDef(name, _) => AsyncFunctionDef(name, [])
    case ClassDef(name, _) => ClassDef(name, [])
    case Other(children) => Other(HollowSeq(children))
    case _ => n
  }

  function HollowSeq(ns: seq<Node>): (hs: seq<Node>)
    decreases ns
  {
    if ns == [] then [] else [Hollow(ns[0])] + HollowSeq(ns[1..])
  }

  /** The names some event of a run binds. */
  function BindNames(evs: seq<Event>): (names: set<string>)
  {
    set e | e in evs && e.Bind? :: e.name
  }

  // ---------------------------------------------------------------------
  // Event-level facts

  lemma {:induction false} ReplayWithinBinds(s: set<string>, evs: seq<Event>)
    ensures Replay(s, evs).names <= s + BindNames(evs)
    decreases |evs|
  {
    if evs != [] {
      assert forall e | e in evs[1..] :: e in evs;
      match evs[0]
      case Bind(x) =>
        ReplayWithinBinds(s + {x}, evs[1..]);
        assert x in BindNames(evs) by { assert evs[0] in evs; }
      case Unbind(x) =>
        if x in s { ReplayWithinBinds(s - {x}, evs[1..]); }
    }
  }

  lemma {:induction false} ReplayOnlyBinds(s: set<string>, evs: seq<Event>)
    requires forall e | e in evs :: e.Bind?
    ensures Replay(s, evs) == Outcome(s + BindNames(evs), None)
    decreases |evs|
  {
    if evs != [] {
      assert evs[0] in evs;
      assert forall e | e in evs[1..] :: e in evs;
      ReplayOnlyBinds(s + {evs[0].name}, evs[1..]);
      assert evs == [evs[0]] + evs[1..];
      assert BindNames(evs) == {evs[0].name} + BindNames(evs[1..]);
    } else {
      assert BindNames(evs) == {};
    }
  }

  lemma BindNamesAppend(a: seq<Event>, b: seq<Event>)
    ensures BindNames(a + b) == BindNames(a) + BindNames(b)
  {
    assert forall e :: e in a + b <==> e in a || e in b;
  }

  // ---------------------------------------------------------------------
  // Tree-level facts, by induction over the tree and its child lists

  lemma {:induction false} EventsBindNames(n: Node)
    ensures BindNames(Events(n)) == Binders(n)
    decreases n
  {
    match n
    case Import(aliases) => BindsOfImport(aliases);
    case ImportFrom(aliases) => BindsOfImport(aliases);
    case FunctionDef(name, _) => assert Events(n) == [Bind(name)];
    case AsyncFunctionDef(name, _) => assert Events(n) == [Bind(name)];
    case ClassDef(name, _) => assert Events(n) == [Bind(name)];
    case Name(id, ctx) =>
      if ctx.Store? {
        assert Events(n) == [Bind(id)];
      } else if ctx.Del? {
        assert Events(n) == [Unbind(id)];
      }
    case Other(children) => EventsSeqBindNames(children);
  }

  lemma {:induction false} EventsSeqBindNames(ns: seq<Node>)
    ensures BindNames(EventsSeq(ns)) == BindersSeq(ns)
    decreases ns
  {
    if ns != [] {
      EventsBindNames(ns[0]);
      EventsSeqBindNames(ns[1..]);
      BindNamesAppend(Events(ns[0]), EventsSeq(ns[1..]));
    }
  }

  lemma BindsOfImport(aliases: seq<Alias>)
    ensures BindNames(Binds(ImportNames(aliases))) == set a | a in aliases :: a.Bound()
  {
    var evs := Binds(ImportNames(aliases));
    forall a | a in aliases ensures a.Bound() in BindNames(evs) {
      var i :| 0 <= i < |aliases| && aliases[i] == a;
      assert evs[i] == Bind(a.Bound());
    }
    forall e | e in evs && e.Bind? ensures e.name in set a | a in aliases :: a.Bound() {
      var i :| 0 <= i < |evs| && evs[i] == e;
      assert aliases[i] in aliases;
    }
  }

  lemma {:induction false} EventsNoDeletes(n: Node)
    requires NoDeletes(n)
    ensures forall e | e in Events(n) :: e.Bind?
    decreases n
  {
    match n
    case Other(children) => EventsSeqNoDeletes(children);
    case _ =>
  }

  lemma {:induction false} EventsSeqNoDeletes(ns: seq<Node>)
    requires forall c | c in ns :: NoDeletes(c)
    ensures forall e | e in EventsSeq(ns) :: e.Bind?
    decreases ns
  {
    if ns != [] {
      assert ns[0] in ns;
      assert forall c | c in ns[1..] :: c in ns;
      EventsNoDeletes(ns[0]);
      EventsSeqNoDeletes(ns[1..]);
    }
  }

  lemma {:induction false} OnlyLoadsNoEvents(n: Node)
    requires OnlyLoads(n)
    ensures Events(n) == []
    decreases n
  {
    match n
    case Name(_, _) =>
    case Other(children) => OnlyLoadsSeqNoEvents(children);
  }

  lemma {:induction false} OnlyLoadsSeqNoEvents(ns: seq<Node>)
    requires forall c | c in ns :: OnlyLoads(c)
    ensures EventsSeq(ns) == []
    decreases ns
  {
    if ns != [] {
      assert ns[0] in ns;
      assert forall c | c in ns[1..] :: c in ns;
      OnlyLoadsNoEvents(ns[0]);
      OnlyLoadsSeqNoEvents(ns[1..]);
    }
  }

  lemma {:induction false} EventsHollow(n: Node)
    ensures Events(Hollow(n)) == Events(n)
    decreases n
  {
    match n
    case Other(children) => EventsSeqHollow(children);
    case _ =>
  }

  lemma {:induction false} EventsSeqHollow(ns: seq<Node>)
    ensures EventsSeq(HollowSeq(ns)) == EventsSeq(ns)
    decreases ns
  {
    if ns != [] {
      var h := HollowSeq(ns);
      assert h[0] == Hollow(ns[0]) && h[1..] == HollowSeq(ns[1..]);
      EventsHollow(ns[0]);
      EventsSeqHollow(ns[1..]);
    }
  }

  // ---------------------------------------------------------------------
  // The properties

  /** Nothing outside the tree's binders ever enters the set: in particular
      no name that occurs only inside a definition's body, arguments,
      decorators or bases. */
  lemma CollectWithinBinders(s: set<string>, n: Node)
    ensures Replay(s, Events(n)).names <= s + Binders(n)
  {
    ReplayWithinBinds(s, Events(n));
    EventsBindNames(n);
  }

  /** Without deletions the walk never raises and adds exactly the tree's
      binders, whatever their order or nesting under handler-less nodes. */
  lemma NoDeletesAddsBinders(s: set<string>, n: Node)
    requires NoDeletes(n)
    ensures Replay(s, Events(n)) == Outcome(s + Binders(n), None)
  {
    EventsNoDeletes(n);
    ReplayOnlyBinds(s, Events(n));
    EventsBindNames(n);
  }

  /** A tree of load references leaves the set as it was. */
  lemma OnlyLoadsUnchanged(s: set<string>, n: Node)
    requires OnlyLoads(n)
    ensures Replay(s, Events(n)) == Outcome(s, None)
  {
    OnlyLoadsNoEvents(n);
  }

  /** What is inside definitions never matters: cutting away every
      definition's inner nodes gives the same result. */
  lemma CollectIgnoresDefinitionBodies(n: Node)
    ensures Collect(Hollow(n)) == Collect(n)
  {
    EventsHollow(n);
  }

  /** A `del` statement for a name that no earlier statement binds makes
      the whole collector raise `KeyError` for that name, whatever follows,
      provided the earlier statements raised nothing themselves. */
  lemma DeleteUnboundRaises(before: seq<Node>, x: string, after: seq<Node>)
    requires x !in BindersSeq(before)
    requires Replay({}, EventsSeq(before)).raised.None?
    ensures Collect(Other(before + [Other([Name(x, Del)])] + after)) == KeyError(x)
  {
    var pre := EventsSeq(before);
    var o := Replay({}, pre);
    var deletion := Other([Name(x, Del)]);
    assert x !in o.names by {
      ReplayWithinBinds({}, pre);
      EventsSeqBindNames(before);
    }
    assert Events(deletion) == [Unbind(x)] by {
      assert [Name(x, Del)][1..] == [];
      assert EventsSeq([Name(x, Del)]) == Events(Name(x, Del)) + EventsSeq([]);
    }
    assert EventsSeq(before + [deletion] + after) == (pre + [Unbind(x)]) + EventsSeq(after) by {
      EventsSeqAppend(before + [deletion], after);
      EventsSeqSnoc(before, deletion);
    }
    assert Replay({}, pre + [Unbind(x)]) == Outcome(o.names, Some(x)) by {
      ReplayConcat({}, pre, [Unbind(x)]);
    }
    ReplayConcat({}, pre + [Unbind(x)], EventsSeq(after));
  }
}
