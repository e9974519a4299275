/** The collector's meaning as a fold: a tree is flattened into the sequence
    of name events its depth-first, source-order visit meets, and the events
    are applied one by one to the set of bound names. */
module NameEvents {
  import opened Syntax

  /** A name event: a binding (import, definition, store target) or a
      deletion (delete target). Load references produce no event. */
  datatype Event = Bind(name: string) | Unbind(name: string)

  /** The state a run of events leaves: the set of bound names and, when a
      deletion met a name that was not bound, the key of the `KeyError`
      raised there (the set is then the one at the moment of raising). */
  datatype Outcome = Outcome(names: set<string>, raised: Option<string>)

  /** What the whole collector returns: the bound names, or the `KeyError`
      a deletion of an unbound name raised. */
  datatype Result = Ok(names: set<string>) | KeyError(key: string)

  /** Applies `evs` in order to `s`; a deletion of an absent name stops the run. */
  function Replay(s: set<string>, evs: seq<Event>): (o: Outcome)
    decreases |evs|
  {
    if evs == [] then Outcome(s, None)
    else match evs[0]
      case Bind(x) => Replay(s + {x}, evs[1..])
      case Unbind(x) => if x in s then Replay(s - {x}, evs[1..]) else Outcome(s, Some(x))
  }

  /** Continues an outcome with more events, unless it already raised. */
  function Then(o: Outcome, evs: seq<Event>): (r: Outcome)
  {
    if o.raised.Some? then o else Replay(o.names, evs)
  }

  lemma {:induction false} ReplayConcat(s: set<string>, a: seq<Event>, b: seq<Event>)
    ensures Replay(s, a + b) == Then(Replay(s, a), b)
    decreases |a|
  {
    if a != [] {
      assert (a + b)[0] == a[0];
      assert (a + b)[1..] == a[1..] + b;
      match a[0]
      case Bind(x) => ReplayConcat(s + {x}, a[1..], b);
      case Unbind(x) => if x in s { ReplayConcat(s - {x}, a[1..], b); }
    } else {
      assert a + b == b;
    }
  }

  /** One binding event per name, in order. */
  function Binds(xs: seq<string>): (evs: seq<Event>)
  {
    seq(|xs|, i requires 0 <= i < |xs| => Bind(xs[i]))
  }

  /** Binding a list of names one at a time adds exactly those names and
      never raises. */
  lemma {:induction false} ReplayBinds(s: set<string>, xs: seq<string>)
    ensures Replay(s, Binds(xs)) == Outcome(s + (set x | x in xs), None)
    decreases |xs|
  {
    if xs != [] {
      assert Binds(xs)[0] == Bind(xs[0]);
      assert Binds(xs)[1..] == Binds(xs[1..]);
      ReplayBinds(s + {xs[0]}, xs[1..]);
      assert (s + {xs[0]}) + (set x | x in xs[1..]) == s + (set x | x in xs) by {
        assert xs == [xs[0]] + xs[1..];
      }
    } else {
      assert (set x | x in xs) == {};
    }
  }

  /** The events the listener meets on `n`, in visit order. Definitions
      yield only their own name: their inner nodes are never visited. */
  function Events(n: Node): (evs: seq<Event>)
    decreases n
  {
    match n
    case Import(aliases) => Binds(ImportNames(aliases))
    case ImportFrom(aliases) => Binds(ImportNames(aliases))
    case FunctionDef(name, _) => [Bind(name)]
    case AsyncFunctionDef(name, _) => [Bind(name)]
    case ClassDef(name, _) => [Bind(name)]
    case Name(id, ctx) =>
      (match ctx
       case Load => []
       case Store => [Bind(id)]
       case Del => [Unbind(id)])
    case Other(children) => EventsSeq(children)
  }

  /** The events of a list of sibling nodes, first to last. */
  function EventsSeq(ns: seq<Node>): (evs: seq<Event>)
    decreases ns
  {
    if ns == [] then [] else Events(ns[0]) + EventsSeq(ns[1..])
  }

  lemma {:induction false} EventsSeqSnoc(ns: seq<Node>, n: Node)
    ensures EventsSeq(ns + [n]) == EventsSeq(ns) + Events(n)
    decreases |ns|
  {
    if ns == [] {
      assert [] + [n] == [n];
      assert EventsSeq([n]) == Events(n) + EventsSeq([]);
    } else {
      assert (ns + [n])[0] == ns[0];
      assert (ns + [n])[1..] == ns[1..] + [n];
      EventsSeqSnoc(ns[1..], n);
    }
  }

  lemma {:induction false} EventsSeqAppend(a: seq<Node>, b: seq<Node>)
    ensures EventsSeq(a + b) == EventsSeq(a) + EventsSeq(b)
    decreases |a|
  {
    if a == [] {
      assert a + b == b;
    } else {
      assert (a + b)[0] == a[0];
      assert (a + b)[1..] == a[1..] + b;
      EventsSeqAppend(a[1..], b);
    }
  }

  /** The collector run from an empty set over a whole tree. */
  function Collect(tree: Node): (r: Result)
  {
    var o := Replay({}, Events(tree));
    if o.raised.Some? then KeyError(o.raised.value) else Ok(o.names)
  }

  // ---------------------------------------------------------------------
  // An independent reading of the fold, from the back: a name is bound
  // after a run exactly when its LAST event in the run is a binding, or when
  // the run never mentions it and it was bound before.

  function LastWins(s: set<string>, evs: seq<Event>, x: string): (bound: bool)
    decreases |evs|
  {
    if evs == [] then x in s
    else if evs[|evs| - 1].name == x then evs[|evs| - 1].Bind?
    else LastWins(s, evs[..|evs| - 1], x)
  }

  /** Every deletion in the run deletes a name bound at that point. */
  predicate DeletesSafe(s: set<string>, evs: seq<Event>)
  {
    forall i :: 0 <= i < |evs| && evs[i].Unbind? ==> LastWins(s, evs[..i], evs[i].name)
  }

  /** "Last event wins": the fold raises exactly when some deletion meets an
      unbound name, the raised key is the first such deletion's, and when
      nothing is raised the result holds exactly the names whose last event
      is a binding (or that were bound before and never mentioned). */
  lemma {:induction false} ReplayLastEventWins(s: set<string>, evs: seq<Event>)
    ensures Replay(s, evs).raised.None? <==> DeletesSafe(s, evs)
    ensures Replay(s, evs).raised.None? ==>
              forall x :: x in Replay(s, evs).names <==> LastWins(s, evs, x)
    ensures Replay(s, evs).raised.Some? ==>
              exists i :: 0 <= i < |evs| && evs[i] == Unbind(Replay(s, evs).raised.value) &&
                          DeletesSafe(s, evs[..i]) && !LastWins(s, evs[..i], evs[i].name)
    decreases |evs|
  {
    if evs == [] {
      return;
    }
    var p, e := evs[..|evs| - 1], evs[|evs| - 1];
    assert evs == p + [e];
    ReplayLastEventWins(s, p);
    ReplayConcat(s, p, [e]);
    var o := Replay(s, p);
    assert [e][1..] == [];
    forall i | 0 <= i < |p| ensures evs[..i] == p[..i] {}
    assert evs[..|p|] == p;
    if o.raised.Some? {
      var i :| 0 <= i < |p| && p[i] == Unbind(o.raised.value) &&
               DeletesSafe(s, p[..i]) && !LastWins(s, p[..i], p[i].name);
      assert evs[..i] == p[..i];
      assert !DeletesSafe(s, evs);
    } else {
      match e
      case Bind(y) =>
        assert Replay(o.names, [e]) == Replay(o.names + {y}, []);
        assert Replay(s, evs) == Outcome(o.names + {y}, None);
        assert DeletesSafe(s, evs) by {
          forall i | 0 <= i < |evs| && evs[i].Unbind?
            ensures LastWins(s, evs[..i], evs[i].name)
          {
            assert i < |p|;
            assert evs[i] == p[i];
          }
        }
      case Unbind(y) =>
        if y in o.names {
          assert Replay(o.names, [e]) == Replay(o.names - {y}, []);
          assert Replay(s, evs) == Outcome(o.names - {y}, None);
          assert DeletesSafe(s, evs) by {
            forall i | 0 <= i < |evs| && evs[i].Unbind?
              ensures LastWins(s, evs[..i], evs[i].name)
            {
              if i < |p| {
                assert evs[i] == p[i];
              }
            }
          }
        } else {
          assert Replay(s, evs) == Outcome(o.names, Some(y));
          assert !LastWins(s, evs[..|p|], evs[|p|].name);
          assert DeletesSafe(s, evs[..|p|]);
        }
    }
  }

  /** Re-binding a name that is already bound changes nothing. */
  lemma RebindIdempotent(s: set<string>, x: string, evs: seq<Event>)
    requires x in s
    ensures Replay(s, [Bind(x)] + evs) == Replay(s, evs)
  {
    assert ([Bind(x)] + evs)[1..] == evs;
    assert s + {x} == s;
  }
}
