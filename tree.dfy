/**
 * The document trees the plugin reads and writes: an abstraction of Jackson's
 * JsonNode as far as the annotation combiner looks into it.
 */
module Tree {

  /** An object node, an array node, a value node (text, number, boolean or null)
      or the missing node that `path` returns for an absent key. */
  datatype Node =
    | Obj(fields: map<string, Node>)
    | Arr(items: seq<Node>)
    | Scalar(text: string)
    | Missing

  /** The empty object node that `createObjectNode()` returns. */
  const EmptyObject: Node := Obj(map[])

  /** JsonNode.isEmpty(), which is size() == 0: a container with no children.
      Value nodes and the missing node have no children, so they are empty too. */
  predicate IsEmpty(n: Node) {
    match n
    case Obj(fields) => |fields| == 0
    case Arr(items) => |items| == 0
    case Scalar(_) => true
    case Missing => true
  }

  /** JsonNode.path(key): the child under `key` of an object node, and the
      missing node for every other node or an absent key. */
  function Path(n: Node, key: string): Node {
    if n.Obj? && key in n.fields then n.fields[key] else Missing
  }
}
