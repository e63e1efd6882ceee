/**
 * The data shapes the converter consumes: the module response returned by
 * the content service, its lessons, and the ProseMirror/TipTap document tree
 * (nodes and inline marks) that each lesson carries.
 *
 * The JSON records keep their optional fields optional. Attribute maps
 * (`attrs: Record<string, any>`) are narrowed to the attributes the
 * converter actually reads, each with its own type.
 */
module Andamio {

  datatype Option<+T> = None | Some(value: T) {
    /** The value, or `default` when absent. */
    function GetOr(default: T): T {
      match this
      case Some(v) => v
      case None => default
    }
  }

  /** An inline formatting annotation: its `type` tag and the `href` attribute of links. */
  datatype Mark = Mark(tag: string, href: Option<string>)

  /**
   * The attributes of a node that the renderer reads. A node without an
   * `attrs` record has every field `None`.
   */
  datatype Attrs = Attrs(
    level: Option<nat>,
    start: Option<int>,
    language: Option<string>,
    src: Option<string>,
    alt: Option<string>)

  const NoAttrs := Attrs(None, None, None, None, None)

  /**
   * The optional `content` array of a node. An absent array and an empty
   * one are different inputs and the renderer treats them differently.
   */
  datatype Content = Absent | Present(nodes: seq<Node>)

  /** One node of the document tree; `tag` is the node's `type` string. */
  datatype Node = Node(
    tag: string,
    attrs: Attrs,
    content: Content,
    text: Option<string>,
    marks: Option<seq<Mark>>)

  /** The root of a lesson body (`type: 'doc'`). */
  datatype Doc = Doc(content: Content)

  /** A lesson; its body may be missing in the received JSON. */
  datatype Lesson = Lesson(id: string, title: string, description: string, contentJson: Option<Doc>)

  datatype ModuleResponse = ModuleResponse(moduleTitle: string, moduleCode: string, lessons: seq<Lesson>)
}
