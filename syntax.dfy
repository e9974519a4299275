/** The part of the parsed syntax tree that the name collector distinguishes.
    A tree is built by the parser outside this model; every node kind the
    collector has no handler for is an `Other` node whose children are listed
    in the order the generic visitor reaches them (field order, then list
    order). */
module Syntax {

  datatype Option<T> = None | Some(value: T)

  /** One entry of an import's alias list: the imported name as written
      (a dotted module path stays one string) and the optional `as` name. */
  datatype Alias = Alias(name: string, asname: Option<string>)
  {
    /** The name this entry binds: the `as` name when there is one,
        otherwise the imported name itself. */
    function Bound(): (bound: string)
    {
      if asname.Some? then asname.value else name
    }
  }

  /** The expression context of an identifier occurrence. */
  datatype Ctx = Load | Store | Del

  datatype Node =
    | Import(aliases: seq<Alias>)
    | ImportFrom(aliases: seq<Alias>)
      /** `inner` holds decorators, arguments, body and return annotation:
          everything the collector never looks at. */
    | FunctionDef(name: string, inner: seq<Node>)
    | AsyncFunctionDef(name: string, inner: seq<Node>)
      /** `inner` holds bases, keywords, decorators and body. */
    | ClassDef(name: string, inner: seq<Node>)
    | Name(id: string, ctx: Ctx)
    | Other(children: seq<Node>)

  /** The names an import binds, one per alias and in alias order. */
  function ImportNames(aliases: seq<Alias>): (names: seq<string>)
  {
    seq(|aliases|, i requires 0 <= i < |aliases| => aliases[i].Bound())
  }
}
