/** The sidecar's two tree walks: the legacy listing of declarations and the one that
    builds file analyses. They are written apart and must list the same declarations. */
module DeclarationWalks {
  import opened Sorting
  import opened CallText
  import opened SyntaxTree

  datatype Legacy = Legacy(kind: string, name: string, qualifiedName: string, parentName: Option<string>)

  datatype Located = Located(kind: string, name: string, qualifiedName: string, localId: string, parentId: Option<string>)

  /** How a local id is made from a node's range, a kind and a qualified name. */
  type Ids = (Cursor, string, string) -> string

  // --------------------------------------------------------- call chains

  /** The innermost callee of a chained call, and the properties called on the way. */
  datatype Chain = Chain(nameNode: Node, properties: seq<Node>)

  datatype CallInfo = CallInfo(name: string, attributes: seq<string>)

  function PropertyOf(member: Node): seq<Node> {
    match FieldChild(member, "property")
    case Some(p) => if p.kind == "property_identifier" then [p] else []
    case None => []
  }

  /** What the chain `a(..).b(..).c(..)` says, read from the outside in. */
  function ChainOf(n: Node): Option<Chain>
    decreases n
  {
    if n.kind != "call_expression" then None
    else
      FieldChildSmaller(n, n.children, "function");
      match FieldChild(n, "function")
      case None => None
      case Some(fn) =>
        if fn.kind == "identifier" then Some(Chain(fn, []))
        else if fn.kind != "member_expression" then None
        else
          FieldChildSmaller(fn, fn.children, "object");
          match FieldChild(fn, "object")
          case None => None
          case Some(receiver) =>
            match ChainOf(receiver)
            case None => None
            case Some(chain) => Some(Chain(chain.nameNode, PropertyOf(fn) + chain.properties))
  }

  function TextOf(n: Node): string { n.text }

  function InfoOf(chain: Option<Chain>): Option<CallInfo> {
    match chain
    case None => None
    case Some(c) => Some(CallInfo(c.nameNode.text, Map(TextOf, c.properties)))
  }

  /** What a chain loop that has collected `before` still has to find at `current`. */
  function Extend(before: seq<Node>, rest: Option<Chain>): Option<Chain> {
    match rest
    case None => None
    case Some(c) => Some(Chain(c.nameNode, before + c.properties))
  }

  lemma ExtendStep(before: seq<Node>, fn: Node, rest: Option<Chain>)
    ensures Extend(before + PropertyOf(fn), rest) ==
      Extend(before, match rest case None => None case Some(c) => Some(Chain(c.nameNode, PropertyOf(fn) + c.properties)))
  {
    if rest.Some? {
      assert before + PropertyOf(fn) + rest.value.properties == before + (PropertyOf(fn) + rest.value.properties);
    }
  }

  /** `callChainDetails`: collects nodes. */
  method CallChainDetails(node: Node) returns (r: Option<Chain>)
    ensures r == ChainOf(node)
  {
    var properties: seq<Node> := [];
    var current := node;
    assert Extend([], ChainOf(node)) == ChainOf(node) by {
      if ChainOf(node).Some? {
        assert [] + ChainOf(node).value.properties == ChainOf(node).value.properties;
      }
    }
    while current.kind == "call_expression"
      invariant ChainOf(node) == Extend(properties, ChainOf(current))
      decreases current
    {
      FieldChildSmaller(current, current.children, "function");
      var fn := FieldChild(current, "function");
      if fn.None? {
        return None;
      }
      if fn.value.kind == "identifier" {
        assert properties + [] == properties;
        return Some(Chain(fn.value, properties));
      }
      if fn.value.kind != "member_expression" {
        return None;
      }
      FieldChildSmaller(fn.value, fn.value.children, "object");
      var receiver := FieldChild(fn.value, "object");
      if receiver.None? || receiver.value.kind != "call_expression" {
        return None;
      }
      ExtendStep(properties, fn.value, ChainOf(receiver.value));
      properties := properties + PropertyOf(fn.value);
      current := receiver.value;
    }
    r := None;
  }

  /** `callChainInfo`: the legacy reader, collecting texts in a loop of its own. */
  method CallChainInfo(node: Node) returns (r: Option<CallInfo>)
    ensures r == InfoOf(ChainOf(node))
  {
    var attributes: seq<string> := [];
    ghost var properties: seq<Node> := [];
    var current := node;
    assert Extend([], ChainOf(node)) == ChainOf(node) by {
      if ChainOf(node).Some? {
        assert [] + ChainOf(node).value.properties == ChainOf(node).value.properties;
      }
    }
    while current.kind == "call_expression"
      invariant ChainOf(node) == Extend(properties, ChainOf(current))
      invariant attributes == Map(TextOf, properties)
      decreases current
    {
      FieldChildSmaller(current, current.children, "function");
      var fn := FieldChild(current, "function");
      if fn.None? {
        return None;
      }
      if fn.value.kind == "identifier" {
        assert properties + [] == properties;
        return Some(CallInfo(fn.value.text, attributes));
      }
      if fn.value.kind != "member_expression" {
        return None;
      }
      var property := FieldChild(fn.value, "property");
      if property.Some? && property.value.kind == "property_identifier" {
        attributes := attributes + [property.value.text];
      }
      FieldChildSmaller(fn.value, fn.value.children, "object");
      var receiver := FieldChild(fn.value, "object");
      if receiver.None? || receiver.value.kind != "call_expression" {
        return None;
      }
      ExtendStep(properties, fn.value, ChainOf(receiver.value));
      MapConcat(TextOf, properties, PropertyOf(fn.value));
      properties := properties + PropertyOf(fn.value);
      current := receiver.value;
    }
    r := None;
  }

  // ------------------------------------------------------------ components

  /** Where a component call counts as a declaration. */
  predicate InDeclarativePosition(uiStructs: set<string>, c: Cursor, host: Option<string>, name: string) {
    var statement := c.Parent();
    var container := if statement.Some? && statement.value.node.kind == "expression_statement" then statement.value.Parent() else None;
    || (container.Some? && container.value.node.kind == "arkui_children")
    || (container.Some? && container.value.node.kind == "statement_block"
        && (host == Some("build_method") || host == Some("builder") || name in PAGE_TRANSITION_COMPONENTS))
    || (IsCustomDialogBuilderValue(c) && name in uiStructs)
  }

  /** `componentCallInfo`, given what the call chain said. */
  function ComponentCall(uiStructs: set<string>, c: Cursor, host: Option<string>, info: Option<CallInfo>): Option<CallInfo> {
    if info.Some? && IsComponentName(info.value.name) && InDeclarativePosition(uiStructs, c, host, info.value.name)
    then info else None
  }

  /** `detachedComponentInfo`: a bare component name whose arguments follow apart. */
  function DetachedComponent(c: Cursor): Option<string> {
    if c.node.kind == "identifier" && IsComponentName(c.node.text)
       && c.Parent().Some? && c.Parent().value.node.kind == "expression_statement"
       && c.Parent().value.Parent().Some? && c.Parent().value.Parent().value.node.kind == "arkui_children"
       && Trim(c.Parent().value.node.text) == c.node.text
       && IsArgumentsContinuation(NextNonCommentSibling(c.Parent().value))
       && PositionsTouch(c.Parent().value.node, NextNonCommentSibling(c.Parent().value).value.node)
    then Some(c.node.text) else None
  }

  /** `detachedComponentInfo`, step by step. */
  method FindDetachedComponent(c: Cursor) returns (name: Option<string>)
    ensures name == DetachedComponent(c)
  {
    var statement := c.Parent();
    if c.node.kind != "identifier" || !IsComponentName(c.node.text)
       || statement.None? || statement.value.node.kind != "expression_statement" {
      return None;
    }
    var container := statement.value.Parent();
    if container.None? || container.value.node.kind != "arkui_children" || Trim(statement.value.node.text) != c.node.text {
      return None;
    }
    var continuation := FindNextNonComment(statement.value);
    if !IsArgumentsContinuation(continuation) || !PositionsTouch(statement.value.node, continuation.value.node) {
      return None;
    }
    name := Some(c.node.text);
  }

  predicate IsClass(kind: string) { kind == "class_declaration" || kind == "abstract_class_declaration" }

  predicate IsFunction(kind: string) { kind == "function_declaration" || kind == "generator_function_declaration" }

  // ------------------------------------------------------- the legacy walk

  function Top<T>(stack: seq<T>): Option<T> {
    if stack == [] then None else Some(stack[|stack| - 1])
  }

  /** `addDeclaration`: nothing without a name. */
  function LegacyEntry(kind: string, name: Option<string>, stack: seq<Legacy>): Option<Legacy> {
    if name.None? || name.value == "" then None
    else
      var parent := Top(stack);
      var qualifiedName :=
        if parent.Some? && parent.value.qualifiedName != "" then parent.value.qualifiedName + "." + name.value else name.value;
      Some(Legacy(kind, name.value, qualifiedName, if parent.Some? then Some(parent.value.qualifiedName) else None))
  }

  function LegacyHost(stack: seq<Legacy>): Option<string> {
    if stack == [] then None else Some(stack[|stack| - 1].kind)
  }

  /** `declarationForNode`. */
  function LegacyDeclaration(uiStructs: set<string>, c: Cursor, stack: seq<Legacy>): Option<Legacy> {
    var n := c.node;
    if n.kind == "struct_declaration" then LegacyEntry("struct", ChildText(n, "name"), stack)
    else if IsClass(n.kind) then LegacyEntry("class", ChildText(n, "name"), stack)
    else if IsFunction(n.kind) then
      LegacyEntry(if HasDecorator(c, "@Builder") then "builder" else "function", ChildText(n, "name"), stack)
    else if n.kind == "method_definition" then
      var name := ChildText(n, "name");
      LegacyEntry(if name == Some("build") then "build_method" else if HasDecorator(c, "@Builder") then "builder" else "method",
                  name, stack)
    else if n.kind == "arkui_component_expression" then
      var name := ChildText(n, "function");
      if name.Some? && IsComponentName(name.value) then LegacyEntry("ui_block", name, stack) else None
    else if n.kind == "call_expression" then
      match ComponentCall(uiStructs, c, LegacyHost(stack), InfoOf(ChainOf(n)))
      case Some(info) => LegacyEntry("ui_block", Some(info.name), stack)
      case None => None
    else if n.kind == "identifier" then
      match DetachedComponent(c)
      case Some(name) => LegacyEntry("ui_block", Some(name), stack)
      case None => None
    else None
  }

  /** Everything the walk lists below (and at) a node, in preorder. */
  function LegacyWalk(uiStructs: set<string>, c: Cursor, stack: seq<Legacy>): seq<Legacy>
    decreases c.node, |c.node.children| + 1
  {
    match LegacyDeclaration(uiStructs, c, stack)
    case Some(d) => [d] + LegacyChildren(uiStructs, c, 0, stack + [d])
    case None => LegacyChildren(uiStructs, c, 0, stack)
  }

  function LegacyChildren(uiStructs: set<string>, c: Cursor, index: nat, stack: seq<Legacy>): seq<Legacy>
    requires index <= |c.node.children|
    decreases c.node, |c.node.children| - index
  {
    if index == |c.node.children| then []
    else LegacyWalk(uiStructs, c.Down(index), stack) + LegacyChildren(uiStructs, c, index + 1, stack)
  }

  class LegacyResult {
    const uiStructs: set<string>
    var declarations: seq<Legacy>

    constructor (uiStructs: set<string>)
      ensures this.uiStructs == uiStructs && declarations == []
    {
      this.uiStructs := uiStructs;
      declarations := [];
    }

    method DeclarationForNode(c: Cursor, stack: seq<Legacy>) returns (d: Option<Legacy>)
      modifies this
      ensures d == LegacyDeclaration(uiStructs, c, stack)
      ensures declarations == old(declarations) + (match d case Some(entry) => [entry] case None => [])
    {
      var n := c.node;
      d := None;
      if n.kind == "struct_declaration" {
        d := LegacyEntry("struct", ChildText(n, "name"), stack);
      } else if IsClass(n.kind) {
        d := LegacyEntry("class", ChildText(n, "name"), stack);
      } else if IsFunction(n.kind) {
        var builder := FindDecorator(c, "@Builder");
        d := LegacyEntry(if builder then "builder" else "function", ChildText(n, "name"), stack);
      } else if n.kind == "method_definition" {
        var name, kind := ChildText(n, "name"), "method";
        if name == Some("build") {
          kind := "build_method";
        } else {
          var builder := FindDecorator(c, "@Builder");
          kind := if builder then "builder" else kind;
        }
        d := LegacyEntry(kind, name, stack);
      } else if n.kind == "arkui_component_expression" {
        var name := ChildText(n, "function");
        if name.Some? && IsComponentName(name.value) {
          d := LegacyEntry("ui_block", name, stack);
        }
      } else if n.kind == "call_expression" {
        var info := CallChainInfo(n);
        info := ComponentCall(uiStructs, c, LegacyHost(stack), info);
        d := if info.Some? then LegacyEntry("ui_block", Some(info.value.name), stack) else None;
      } else if n.kind == "identifier" {
        var name := FindDetachedComponent(c);
        d := if name.Some? then LegacyEntry("ui_block", name, stack) else None;
      }
      if d.Some? {
        declarations := declarations + [d.value];
      }
    }

    /** `walk`. */
    method Walk(c: Cursor, stack: seq<Legacy>)
      modifies this
      ensures declarations == old(declarations) + LegacyWalk(uiStructs, c, stack)
      decreases c.node
    {
      var d := DeclarationForNode(c, stack);
      var next := if d.Some? then stack + [d.value] else stack;
      ghost var listed := declarations;
      for index := 0 to |c.node.children|
        invariant declarations + LegacyChildren(uiStructs, c, index, next) == listed + LegacyChildren(uiStructs, c, 0, next)
      {
        label Before:
        Walk(c.Down(index), next);
        Reassociate(old@Before(declarations), LegacyWalk(uiStructs, c.Down(index), next), LegacyChildren(uiStructs, c, index + 1, next));
      }
      assert declarations + [] == declarations;
      if d.Some? {
        Reassociate(old(declarations), [d.value], LegacyChildren(uiStructs, c, 0, next));
      } else {
        assert old(declarations) + [] == old(declarations);
      }
    }
  }

  // ------------------------------------------------------------ the v2 walk

  /** `v2AddDeclaration`: the parent always qualifies. */
  function LocatedEntry(ids: Ids, c: Cursor, kind: string, name: Option<string>, stack: seq<Located>): Option<Located> {
    if name.None? || name.value == "" then None
    else
      var parent := Top(stack);
      var qualifiedName := if parent.Some? then parent.value.qualifiedName + "." + name.value else name.value;
      Some(Located(kind, name.value, qualifiedName, ids(c, kind, qualifiedName),
                   if parent.Some? then Some(parent.value.localId) else None))
  }

  function LocatedHost(stack: seq<Located>): Option<string> {
    if stack == [] then None else Some(stack[|stack| - 1].kind)
  }

  /** `v2DeclarationForNode`. */
  function LocatedDeclaration(ids: Ids, uiStructs: set<string>, c: Cursor, stack: seq<Located>): Option<Located> {
    var n := c.node;
    if n.kind == "struct_declaration" then LocatedEntry(ids, c, "struct", ChildText(n, "name"), stack)
    else if IsClass(n.kind) then LocatedEntry(ids, c, "class", ChildText(n, "name"), stack)
    else if IsFunction(n.kind) then
      LocatedEntry(ids, c, if HasDecorator(c, "@Builder") then "builder" else "function", ChildText(n, "name"), stack)
    else if n.kind == "method_definition" then
      var name := ChildText(n, "name");
      LocatedEntry(ids, c, if name == Some("build") then "build_method" else if HasDecorator(c, "@Builder") then "builder" else "method",
                   name, stack)
    else if n.kind == "arkui_component_expression" then
      match FieldChild(n, "function")
      case Some(nameNode) =>
        if IsComponentName(nameNode.text) then LocatedEntry(ids, c, "ui_block", Some(nameNode.text), stack) else None
      case None => None
    else if n.kind == "call_expression" then
      match ComponentCall(uiStructs, c, LocatedHost(stack), InfoOf(ChainOf(n)))
      case Some(info) =>
        (match ChainOf(n)
         case Some(details) => LocatedEntry(ids, c, "ui_block", Some(info.name), stack)
         case None => None)
      case None => None
    else if n.kind == "identifier" then
      match DetachedComponent(c)
      case Some(name) => LocatedEntry(ids, c, "ui_block", Some(name), stack)
      case None => None
    else None
  }

  function LocatedWalk(ids: Ids, uiStructs: set<string>, c: Cursor, stack: seq<Located>): seq<Located>
    decreases c.node, |c.node.children| + 1
  {
    match LocatedDeclaration(ids, uiStructs, c, stack)
    case Some(d) => [d] + LocatedChildren(ids, uiStructs, c, 0, stack + [d])
    case None => LocatedChildren(ids, uiStructs, c, 0, stack)
  }

  function LocatedChildren(ids: Ids, uiStructs: set<string>, c: Cursor, index: nat, stack: seq<Located>): seq<Located>
    requires index <= |c.node.children|
    decreases c.node, |c.node.children| - index
  {
    if index == |c.node.children| then []
    else LocatedWalk(ids, uiStructs, c.Down(index), stack) + LocatedChildren(ids, uiStructs, c, index + 1, stack)
  }

  class Analysis {
    const ids: Ids
    const uiStructs: set<string>
    var declarations: seq<Located>

    constructor (ids: Ids, uiStructs: set<string>)
      ensures this.ids == ids && this.uiStructs == uiStructs && declarations == []
    {
      this.ids, this.uiStructs := ids, uiStructs;
      declarations := [];
    }

    method DeclarationForNode(c: Cursor, stack: seq<Located>) returns (d: Option<Located>)
      modifies this
      ensures d == LocatedDeclaration(ids, uiStructs, c, stack)
      ensures declarations == old(declarations) + (match d case Some(entry) => [entry] case None => [])
    {
      var n := c.node;
      d := None;
      if n.kind == "struct_declaration" {
        d := LocatedEntry(ids, c, "struct", ChildText(n, "name"), stack);
      } else if IsClass(n.kind) {
        d := LocatedEntry(ids, c, "class", ChildText(n, "name"), stack);
      } else if IsFunction(n.kind) {
        var builder := FindDecorator(c, "@Builder");
        d := LocatedEntry(ids, c, if builder then "builder" else "function", ChildText(n, "name"), stack);
      } else if n.kind == "method_definition" {
        var name, kind := ChildText(n, "name"), "method";
        if name == Some("build") {
          kind := "build_method";
        } else {
          var builder := FindDecorator(c, "@Builder");
          kind := if builder then "builder" else kind;
        }
        d := LocatedEntry(ids, c, kind, name, stack);
      } else if n.kind == "arkui_component_expression" {
        var nameNode := FieldChild(n, "function");
        if nameNode.Some? && IsComponentName(nameNode.value.text) {
          d := LocatedEntry(ids, c, "ui_block", Some(nameNode.value.text), stack);
        }
      } else if n.kind == "call_expression" {
        var info := CallChainInfo(n);
        info := ComponentCall(uiStructs, c, LocatedHost(stack), info);
        var details := CallChainDetails(n);
        d := if info.Some? && details.Some? then LocatedEntry(ids, c, "ui_block", Some(info.value.name), stack) else None;
      } else if n.kind == "identifier" {
        var name := FindDetachedComponent(c);
        d := if name.Some? then LocatedEntry(ids, c, "ui_block", name, stack) else None;
      }
      if d.Some? {
        declarations := declarations + [d.value];
      }
    }

    /** `v2DiscoverStructures`, as far as declarations go. */
    method Discover(c: Cursor, stack: seq<Located>)
      modifies this
      ensures declarations == old(declarations) + LocatedWalk(ids, uiStructs, c, stack)
      decreases c.node
    {
      var d := DeclarationForNode(c, stack);
      var next := if d.Some? then stack + [d.value] else stack;
      ghost var listed := declarations;
      for index := 0 to |c.node.children|
        invariant declarations + LocatedChildren(ids, uiStructs, c, index, next) == listed + LocatedChildren(ids, uiStructs, c, 0, next)
      {
        label Before:
        Discover(c.Down(index), next);
        Reassociate(old@Before(declarations), LocatedWalk(ids, uiStructs, c.Down(index), next),
                    LocatedChildren(ids, uiStructs, c, index + 1, next));
      }
      assert declarations + [] == declarations;
      if d.Some? {
        Reassociate(old(declarations), [d.value], LocatedChildren(ids, uiStructs, c, 0, next));
      } else {
        assert old(declarations) + [] == old(declarations);
      }
    }
  }

  // --------------------------------------------------------------- theorems

  /** What both listings say about a declaration. */
  datatype Listed = Listed(kind: string, name: string, qualifiedName: string, nested: bool)

  function OfLegacy(d: Legacy): Listed { Listed(d.kind, d.name, d.qualifiedName, d.parentName.Some?) }

  function OfLocated(d: Located): Listed { Listed(d.kind, d.name, d.qualifiedName, d.parentId.Some?) }

  /** The two stacks hold the same declarations, all with a qualified name. */
  predicate InStep(legacy: seq<Legacy>, located: seq<Located>) {
    && Map(OfLegacy, legacy) == Map(OfLocated, located)
    && forall i | 0 <= i < |legacy| :: legacy[i].qualifiedName != ""
  }

  lemma TopsAgree(legacy: seq<Legacy>, located: seq<Located>)
    requires InStep(legacy, located)
    ensures |legacy| == |located|
    ensures legacy != [] ==>
      OfLegacy(legacy[|legacy| - 1]) == OfLocated(located[|located| - 1]) && legacy[|legacy| - 1].qualifiedName != ""
    ensures LegacyHost(legacy) == LocatedHost(located)
  {
    assert |Map(OfLegacy, legacy)| == |Map(OfLocated, located)|;
    if legacy != [] {
      assert Map(OfLegacy, legacy)[|legacy| - 1] == Map(OfLocated, located)[|located| - 1];
    }
  }

  /** Two results of one step: both nothing, or entries that keep the stacks in step. */
  predicate SameEntry(a: Option<Legacy>, b: Option<Located>, legacy: seq<Legacy>, located: seq<Located>) {
    && a.Some? == b.Some?
    && (a.Some? ==> OfLegacy(a.value) == OfLocated(b.value) && InStep(legacy + [a.value], located + [b.value]))
  }

  lemma EntriesAgree(ids: Ids, c: Cursor, kind: string, name: Option<string>, legacy: seq<Legacy>, located: seq<Located>)
    requires InStep(legacy, located)
    ensures SameEntry(LegacyEntry(kind, name, legacy), LocatedEntry(ids, c, kind, name, located), legacy, located)
  {
    TopsAgree(legacy, located);
    var a, b := LegacyEntry(kind, name, legacy), LocatedEntry(ids, c, kind, name, located);
    if a.Some? {
      MapConcat(OfLegacy, legacy, [a.value]);
      MapConcat(OfLocated, located, [b.value]);
      assert Map(OfLegacy, [a.value]) == [OfLegacy(a.value)] == Map(OfLocated, [b.value]);
    }
  }

  /** One node: both walks declare the same, or neither declares anything. */
  lemma DeclarationsAgree(ids: Ids, uiStructs: set<string>, c: Cursor, legacy: seq<Legacy>, located: seq<Located>)
    requires InStep(legacy, located)
    ensures SameEntry(LegacyDeclaration(uiStructs, c, legacy), LocatedDeclaration(ids, uiStructs, c, located), legacy, located)
  {
    TopsAgree(legacy, located);
    var n, name := c.node, ChildText(c.node, "name");
    if n.kind == "struct_declaration" {
      EntriesAgree(ids, c, "struct", name, legacy, located);
    } else if IsClass(n.kind) {
      EntriesAgree(ids, c, "class", name, legacy, located);
    } else if IsFunction(n.kind) {
      EntriesAgree(ids, c, if HasDecorator(c, "@Builder") then "builder" else "function", name, legacy, located);
    } else if n.kind == "method_definition" {
      EntriesAgree(ids, c, if name == Some("build") then "build_method" else if HasDecorator(c, "@Builder") then "builder" else "method",
                   name, legacy, located);
    } else if n.kind == "arkui_component_expression" {
      EntriesAgree(ids, c, "ui_block", ChildText(n, "function"), legacy, located);
    } else if n.kind == "call_expression" {
      CallsAgree(ids, uiStructs, c, legacy, located);
    } else if n.kind == "identifier" {
      EntriesAgree(ids, c, "ui_block", DetachedComponent(c), legacy, located);
    }
  }

  lemma CallsAgree(ids: Ids, uiStructs: set<string>, c: Cursor, legacy: seq<Legacy>, located: seq<Located>)
    requires InStep(legacy, located) && c.node.kind == "call_expression"
    ensures SameEntry(LegacyDeclaration(uiStructs, c, legacy), LocatedDeclaration(ids, uiStructs, c, located), legacy, located)
  {
    TopsAgree(legacy, located);
    var info := ComponentCall(uiStructs, c, LegacyHost(legacy), InfoOf(ChainOf(c.node)));
    if info.Some? {
      EntriesAgree(ids, c, "ui_block", Some(info.value.name), legacy, located);
    }
  }

  /** The two walks list the same declarations in the same preorder, with equal kind,
      name and qualified name. */
  lemma {:induction false} WalksAgree(ids: Ids, uiStructs: set<string>, c: Cursor, legacy: seq<Legacy>, located: seq<Located>)
    requires InStep(legacy, located)
    ensures Map(OfLegacy, LegacyWalk(uiStructs, c, legacy)) == Map(OfLocated, LocatedWalk(ids, uiStructs, c, located))
    decreases c.node, |c.node.children| + 1
  {
    DeclarationsAgree(ids, uiStructs, c, legacy, located);
    var a, b := LegacyDeclaration(uiStructs, c, legacy), LocatedDeclaration(ids, uiStructs, c, located);
    if a.Some? {
      var more, others := LegacyChildren(uiStructs, c, 0, legacy + [a.value]), LocatedChildren(ids, uiStructs, c, 0, located + [b.value]);
      ChildrenAgree(ids, uiStructs, c, 0, legacy + [a.value], located + [b.value]);
      MapConcat(OfLegacy, [a.value], more);
      MapConcat(OfLocated, [b.value], others);
      assert Map(OfLegacy, [a.value]) == [OfLegacy(a.value)] == Map(OfLocated, [b.value]);
    } else {
      ChildrenAgree(ids, uiStructs, c, 0, legacy, located);
    }
  }

  lemma {:induction false} ChildrenAgree(ids: Ids, uiStructs: set<string>, c: Cursor, index: nat, legacy: seq<Legacy>, located: seq<Located>)
    requires InStep(legacy, located) && index <= |c.node.children|
    ensures Map(OfLegacy, LegacyChildren(uiStructs, c, index, legacy)) == Map(OfLocated, LocatedChildren(ids, uiStructs, c, index, located))
    decreases c.node, |c.node.children| - index
  {
    if index < |c.node.children| {
      WalksAgree(ids, uiStructs, c.Down(index), legacy, located);
      ChildrenAgree(ids, uiStructs, c, index + 1, legacy, located);
      MapConcat(OfLegacy, LegacyWalk(uiStructs, c.Down(index), legacy), LegacyChildren(uiStructs, c, index + 1, legacy));
      MapConcat(OfLocated, LocatedWalk(ids, uiStructs, c.Down(index), located), LocatedChildren(ids, uiStructs, c, index + 1, located));
    }
  }
}
