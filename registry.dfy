/**
 * The producer's state: the ordered content registry and the book's parameters.
 * Both are changed in place; every document is rendered from a snapshot of them.
 */
module Registry {
  import opened Wrappers
  import opened Content

  /** A parameter value: a text, a list of names (roles), or a switch. */
  datatype Param = Text(text: string) | Names(names: seq<string>) | Flag(flag: bool)

  type Params = map<string, Param>

  function TextParam(params: Params, key: string): Option<string> {
    if key in params && params[key].Text? then Some(params[key].text) else None
  }

  function NamesParam(params: Params, key: string): Option<seq<string>> {
    if key in params && params[key].Names? then Some(params[key].names) else None
  }

  function FlagParam(params: Params, key: string): bool {
    key in params && params[key].Flag? && params[key].flag
  }

  /**
   * The text values of the keys a document needs, in order, or the first key
   * that is missing (a configuration error).
   */
  function Require(params: Params, keys: seq<string>): (r: Result<seq<string>, string>)
    ensures r.Success? <==> forall k :: k in keys ==> TextParam(params, k).Some?
    ensures r.Success? ==> |r.value| == |keys|
    ensures r.Success? ==> forall i :: 0 <= i < |keys| ==> TextParam(params, keys[i]) == Some(r.value[i])
    ensures r.Failure? ==> r.error in keys && TextParam(params, r.error).None?
  {
    if keys == [] then Success([])
    else match TextParam(params, keys[0])
      case None => Failure(keys[0])
      case Some(v) =>
        match Require(params, keys[1..])
        case Failure(k) => Failure(k)
        case Success(vs) => Success([v] + vs)
  }

  /** When every key has a text value, Require returns exactly those values, in key order. */
  lemma RequireValues(params: Params, keys: seq<string>, vs: seq<string>)
    requires |vs| == |keys|
    requires forall i :: 0 <= i < |keys| ==> TextParam(params, keys[i]) == Some(vs[i])
    ensures Require(params, keys) == Success(vs)
  {
    var r := Require(params, keys);
    assert r.Success?;
    assert r.value == vs;
  }

  /** The producer: the registry of contents and the parameter table. */
  class Producer {
    var contents: seq<Content>
    var params: Params

    constructor (initial: Params)
      ensures contents == [] && params == initial
    {
      contents := [];
      params := initial;
    }

    /** `contents << entry`: appends at the end and changes nothing else. */
    method Append(entry: Content)
      modifies this
      ensures contents == old(contents) + [entry]
      ensures params == old(params)
    {
      contents := contents + [entry];
    }

    /** `params[key] = value`: sets one parameter and changes nothing else. */
    method SetParam(key: string, value: Param)
      modifies this
      ensures params == old(params)[key := value]
      ensures contents == old(contents)
    {
      params := params[key := value];
    }
  }
}
