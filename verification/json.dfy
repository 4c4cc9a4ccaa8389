/** The part of Jackson's JSON tree model the bridge touches: `get`, `at` and `asText`. */
module Json {
  import opened Wrappers

  /** A parsed JSON node. `Missing` is the node Jackson returns for a path that is absent. */
  datatype Node =
    | Missing
    | Null
    | Bool(b: bool)
    | Number(lexeme: string)
    | Text(s: string)
    | Array(items: seq<Node>)
    | Object(fields: map<string, Node>)

  /** `node.get(name)`: the named child of an object; Java null for any other node or an absent name. */
  function Get(node: Node, name: string): Option<Node>
  {
    if node.Object? && name in node.fields then Some(node.fields[name]) else None
  }

  /** `node.at("/" + name)`: a one-step JSON Pointer; `Missing` when the step does not resolve. */
  function At(node: Node, name: string): (r: Node)
    ensures Get(node, name).Some? ==> r == Get(node, name).value
    ensures Get(node, name).None? ==> r == Missing
  {
    if node.Object? && name in node.fields then node.fields[name] else Missing
  }

  /** `node.asText()`: the text of a text node, the literal of a scalar, and "" for containers and `Missing`. */
  function AsText(node: Node): string
  {
    match node
    case Missing => ""
    case Null => "null"
    case Bool(b) => if b then "true" else "false"
    case Number(lexeme) => lexeme
    case Text(s) => s
    case Array(_) => ""
    case Object(_) => ""
  }
}
