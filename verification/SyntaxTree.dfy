/** The parser's syntax tree, and the node readers both sidecar walks share. */
module SyntaxTree {
  import opened Sorting
  import opened CallText

  datatype Position = Position(row: nat, column: nat)

  datatype Node = Node(kind: string, text: string, named: bool, start: Position, end: Position, children: seq<Child>)

  /** A child with its field name, when the grammar gives it one. */
  datatype Child = Child(field: Option<string>, node: Node)

  /** A parent on the way down, and which child was taken. */
  datatype Frame = Frame(node: Node, index: nat)

  /** A node with everything above it: its parents and, through them, its siblings. */
  datatype Cursor = Cursor(node: Node, above: seq<Frame>) {
    function Down(index: nat): Cursor
      requires index < |node.children|
    {
      Cursor(node.children[index].node, above + [Frame(node, index)])
    }

    function Parent(): Option<Cursor> {
      if above == [] then None else Some(Cursor(above[|above| - 1].node, above[..|above| - 1]))
    }
  }

  function Sibling(c: Cursor, index: nat): Cursor
    requires c.above != [] && index < |c.above[|c.above| - 1].node.children|
  {
    Cursor(c.above[|c.above| - 1].node, c.above[..|c.above| - 1]).Down(index)
  }

  /** The next named sibling that is not a comment. */
  function NonCommentFrom(c: Cursor, index: nat): Option<Cursor>
    requires c.above != []
    decreases |c.above[|c.above| - 1].node.children| - index
  {
    var siblings := c.above[|c.above| - 1].node.children;
    if index >= |siblings| then None
    else if siblings[index].node.named && siblings[index].node.kind != "comment" then Some(Sibling(c, index))
    else NonCommentFrom(c, index + 1)
  }

  function NextNonCommentSibling(c: Cursor): Option<Cursor> {
    if c.above == [] then None else NonCommentFrom(c, c.above[|c.above| - 1].index + 1)
  }

  /** `childForFieldName`. */
  function FieldChild(n: Node, field: string): Option<Node> {
    FieldFrom(n.children, field)
  }

  function FieldFrom(children: seq<Child>, field: string): Option<Node> {
    if children == [] then None
    else if children[0].field == Some(field) then Some(children[0].node)
    else FieldFrom(children[1..], field)
  }

  lemma {:induction false} FieldChildSmaller(n: Node, children: seq<Child>, field: string)
    requires forall c | c in children :: c in n.children
    ensures FieldFrom(children, field).Some? ==> FieldFrom(children, field).value < n
  {
    if children != [] {
      assert children[0] in n.children;
      if children[0].field != Some(field) {
        FieldChildSmaller(n, children[1..], field);
      }
    }
  }

  function ChildText(n: Node, field: string): Option<string> {
    match FieldChild(n, field)
    case None => None
    case Some(child) => Some(child.text)
  }

  // ------------------------------------------------------------ names, text

  function TrimStart(text: string): string {
    if text != [] && IsSpace(text[0]) then TrimStart(text[1..]) else text
  }

  function TrimEnd(text: string): string {
    if text != [] && IsSpace(text[|text| - 1]) then TrimEnd(text[..|text| - 1]) else text
  }

  function Trim(text: string): string { TrimEnd(TrimStart(text)) }

  predicate IsUpper(c: char) { 'A' <= c <= 'Z' }

  predicate IsNameStart(c: char) { IsUpper(c) || 'a' <= c <= 'z' || c == '_' || c == '$' }

  predicate IsNamePart(c: char) { IsNameStart(c) || '0' <= c <= '9' }

  const NON_COMPONENT_CALL_ROOTS := {"Array", "Boolean", "Date", "Map", "Number", "Object", "Promise", "RegExp", "Set", "String"}

  const PAGE_TRANSITION_COMPONENTS := {"PageTransitionEnter", "PageTransitionExit"}

  predicate IsComponentName(name: string) {
    && name != [] && IsUpper(name[0])
    && (forall c | c in name :: IsNamePart(c))
    && name !in NON_COMPONENT_CALL_ROOTS
  }

  /** The longest identifier a text starts with. */
  function NamePrefix(text: string): string {
    if text == [] || !IsNameStart(text[0]) then [] else [text[0]] + NameRest(text[1..])
  }

  function NameRest(text: string): string {
    if text == [] || !IsNamePart(text[0]) then [] else [text[0]] + NameRest(text[1..])
  }

  function DecoratorName(text: string): string {
    var trimmed := Trim(text);
    if trimmed != [] && trimmed[0] == '@' && NamePrefix(trimmed[1..]) != [] then "@" + NamePrefix(trimmed[1..])
    else trimmed
  }

  predicate IsDecorator(n: Node, decorator: string) {
    n.kind == "decorator" && DecoratorName(n.text) == decorator
  }

  /** Decorators before `index` among the siblings, up to something else named. */
  predicate DecoratedBefore(c: Cursor, index: nat, decorator: string)
    requires c.above != []
    decreases index
  {
    var siblings := c.above[|c.above| - 1].node.children;
    if index == 0 then false
    else if index > |siblings| || !siblings[index - 1].node.named then DecoratedBefore(c, index - 1, decorator)
    else
      var n := siblings[index - 1].node;
      if IsDecorator(n, decorator) then true
      else (n.kind == "decorator" || n.kind == "comment") && DecoratedBefore(c, index - 1, decorator)
  }

  predicate HasDecorator(c: Cursor, decorator: string) {
    || (exists i | 0 <= i < |c.node.children| :: IsDecorator(c.node.children[i].node, decorator))
    || (c.above != [] && DecoratedBefore(c, c.above[|c.above| - 1].index, decorator))
  }

  /** `hasDecorator`: the children, then back over the siblings. */
  method FindDecorator(c: Cursor, decorator: string) returns (found: bool)
    ensures found == HasDecorator(c, decorator)
  {
    for index := 0 to |c.node.children|
      invariant forall i | 0 <= i < index :: !IsDecorator(c.node.children[i].node, decorator)
    {
      if IsDecorator(c.node.children[index].node, decorator) {
        return true;
      }
    }
    if c.above == [] {
      return false;
    }
    var siblings := c.above[|c.above| - 1].node.children;
    var index: nat := c.above[|c.above| - 1].index;
    while index > 0
      invariant DecoratedBefore(c, c.above[|c.above| - 1].index, decorator) == DecoratedBefore(c, index, decorator)
    {
      index := index - 1;
      if index < |siblings| && siblings[index].node.named {
        if IsDecorator(siblings[index].node, decorator) {
          return true;
        }
        if siblings[index].node.kind != "decorator" && siblings[index].node.kind != "comment" {
          return false;
        }
      }
    }
    found := false;
  }

  /** `nextNonCommentSibling`. */
  method FindNextNonComment(c: Cursor) returns (next: Option<Cursor>)
    ensures next == NextNonCommentSibling(c)
  {
    if c.above == [] {
      return None;
    }
    var siblings, index := c.above[|c.above| - 1].node.children, c.above[|c.above| - 1].index + 1;
    while index < |siblings|
      invariant NonCommentFrom(c, c.above[|c.above| - 1].index + 1) == NonCommentFrom(c, index)
    {
      if siblings[index].node.named && siblings[index].node.kind != "comment" {
        return Some(Sibling(c, index));
      }
      index := index + 1;
    }
    next := None;
  }

  predicate PositionsTouch(left: Node, right: Node) {
    left.end == right.start
  }

  predicate IsArgumentsContinuation(c: Option<Cursor>) {
    && c.Some? && c.value.node.kind == "expression_statement"
    && TrimStart(c.value.node.text) != [] && TrimStart(c.value.node.text)[0] == '('
  }

  predicate IsCustomDialogBuilderValue(c: Cursor) {
    c.Parent().Some? && c.Parent().value.node.kind == "pair" && ChildText(c.Parent().value.node, "key") == Some("builder")
  }
}
