/** Both walks over a parsed file list exactly its declarations, in preorder, with the
    dotted names of what encloses them. */
module DeclarationListing {
  import opened Sorting
  import opened CallText
  import opened SyntaxTree
  import opened DeclarationWalks
  import opened DeclaredPlaces

  // --------------------------------------------- one node, in declared terms

  lemma {:induction false} CallsIs(n: Node, name: string)
    ensures Calls(n, name) <==> ChainOf(n).Some? && ChainOf(n).value.nameNode.text == name
    decreases n
  {
    if n.kind == "call_expression" {
      FieldChildSmaller(n, n.children, "function");
      FieldChildIs(n, "function");
      if i: nat :| IsField(n, i, "function") {
        StartsWithIs(n.children[i].node, name);
      }
    }
  }

  /** What the chain says from the function of a call on. */
  lemma {:induction false} StartsWithIs(fn: Node, name: string)
    ensures StartsWith(fn, name) <==>
      || (fn.kind == "identifier" && fn.text == name)
      || (fn.kind == "member_expression" && FieldChild(fn, "object").Some?
          && var rest := ChainOf(FieldChild(fn, "object").value); rest.Some? && rest.value.nameNode.text == name)
    decreases fn
  {
    if fn.kind == "member_expression" {
      FieldChildIs(fn, "object");
      if j: nat :| IsField(fn, j, "object") {
        CallsIs(fn.children[j].node, name);
      }
    }
  }

  lemma CallInfoIs(n: Node, name: string)
    ensures Calls(n, name) <==> InfoOf(ChainOf(n)).Some? && InfoOf(ChainOf(n)).value.name == name
  {
    CallsIs(n, name);
  }

  lemma {:induction false} NonCommentIs(c: Cursor, index: nat)
    requires c.above != []
    ensures NonCommentFrom(c, index).Some? ==>
      exists j: nat :: FirstFrom(Up(c).node.children, index, j) && NonCommentFrom(c, index) == Some(Sibling(c, j))
    ensures forall j: nat | FirstFrom(Up(c).node.children, index, j) :: NonCommentFrom(c, index) == Some(Sibling(c, j))
    decreases |Up(c).node.children| - index
  {
    var siblings := Up(c).node.children;
    if index < |siblings| {
      if siblings[index].node.named && siblings[index].node.kind != "comment" {
        assert FirstFrom(siblings, index, index);
      } else {
        NonCommentIs(c, index + 1);
        forall j: nat ensures FirstFrom(siblings, index, j) <==> FirstFrom(siblings, index + 1, j) {
        }
      }
    }
  }

  /** The first named child from `index` on that is no comment. */
  predicate FirstFrom(siblings: seq<Child>, index: nat, j: nat) {
    && index <= j < |siblings|
    && siblings[j].node.named && siblings[j].node.kind != "comment"
    && forall k | index <= k < j :: !siblings[k].node.named || siblings[k].node.kind == "comment"
  }

  lemma NextStatementIs(c: Cursor, j: nat)
    requires c.above != []
    ensures NextStatement(Up(c), j) <==> FirstFrom(Up(c).node.children, Up(c).index + 1, j)
  {
  }

  lemma OpensAt(text: string, k: nat)
    requires k < |text| && text[k] == '(' && AllSpace(text[..k])
    ensures TrimStart(text) == text[k..]
  {
    assert text == text[..k] + text[k..];
    TrimStartOf(text[..k], text[k..]);
  }

  lemma OpensIs(text: string)
    ensures OpensWithParenthesis(text) <==> TrimStart(text) != [] && TrimStart(text)[0] == '('
  {
    var a := TrimStartSplits(text);
    if k: nat :| k < |text| && text[k] == '(' && AllSpace(text[..k]) {
      OpensAt(text, k);
    }
    if TrimStart(text) != [] && TrimStart(text)[0] == '(' {
      assert text[|a|] == '(' && text[..|a|] == a;
    }
  }

  /** The continuation the walks look for, from the statement's own cursor. */
  lemma ContinuationIs(c: Cursor)
    requires |c.above| >= 2
    ensures var statement, up := c.Parent().value, UpTwice(c);
      (IsArgumentsContinuation(NextNonCommentSibling(statement))
       && PositionsTouch(statement.node, NextNonCommentSibling(statement).value.node))
      <==> exists j: nat :: NextStatement(up, j) && up.node.children[j].node.kind == "expression_statement"
             && Up(c).node.end == up.node.children[j].node.start && OpensWithParenthesis(up.node.children[j].node.text)
  {
    var statement := c.Parent().value;
    assert Up(statement) == UpTwice(c) && statement.node == Up(c).node;
    NonCommentIs(statement, Up(statement).index + 1);
    var next := NextNonCommentSibling(statement);
    forall j: nat | NextStatement(UpTwice(c), j) ensures next == Some(Sibling(statement, j)) {
      NextStatementIs(statement, j);
    }
    if next.Some? {
      var j: nat :| FirstFrom(UpTwice(c).node.children, UpTwice(c).index + 1, j) && next == Some(Sibling(statement, j));
      NextStatementIs(statement, j);
      OpensIs(next.value.node.text);
    }
  }

  lemma DetachedIs(c: Cursor, name: string)
    ensures ComponentWord(name) && DetachedCall(c, name) <==> DetachedComponent(c) == Some(name)
  {
    WordsAgree('a', name);
    if InStatement(c, "arkui_children") {
      assert c.Parent().value.Parent().value.node == UpTwice(c).node;
      TrimIs(Up(c).node.text, name);
      ContinuationIs(c);
    } else if c.Parent().Some? && c.Parent().value.Parent().Some? {
      assert c.Parent().value.Parent().value.node == UpTwice(c).node;
    }
  }

  // -------------------------------------------------------- what encloses it

  /** A node has one kind and name as a declaration. */
  lemma ListedOnce(uiStructs: set<string>, c: Cursor, kind: string, name: string, other: string, called: string)
    requires Declares(uiStructs, c, kind, name) && Declares(uiStructs, c, other, called)
    ensures kind == other && name == called
  {
    DeclaresByKind(uiStructs, c, kind, name);
    DeclaresByKind(uiStructs, c, other, called);
    FieldTextIs(c.node, "name", name);
    FieldTextIs(c.node, "name", called);
    if kind == "ui_block" && other == "ui_block" {
      BlockNamedOnce(uiStructs, c, name, called);
    }
  }

  lemma BlockNamedOnce(uiStructs: set<string>, c: Cursor, name: string, called: string)
    requires BlockNamed(uiStructs, c, name) && BlockNamed(uiStructs, c, called)
    ensures name == called
  {
    FieldTextIs(c.node, "function", name);
    FieldTextIs(c.node, "function", called);
    CallsIs(c.node, name);
    CallsIs(c.node, called);
  }

  lemma EnclosesOnce(uiStructs: set<string>, c: Cursor, j: nat, k: nat)
    requires Encloses(uiStructs, c, j) && Encloses(uiStructs, c, k)
    ensures j == k
  {
  }

  /** The kind of the innermost declaration around the node, if there is one. */
  ghost predicate HostIs(uiStructs: set<string>, c: Cursor, host: Option<string>) {
    match host
    case None => forall k: nat :: !Encloses(uiStructs, c, k)
    case Some(kind) => exists k: nat, name :: Encloses(uiStructs, c, k) && Declares(uiStructs, Ancestor(c, k), kind, name)
  }

  ghost predicate HostIn(uiStructs: set<string>, c: Cursor) {
    exists k: nat, kind, host :: k < |c.above| && Encloses(uiStructs, c, k)
      && Declares(uiStructs, Ancestor(c, k), kind, host) && kind in {"build_method", "builder"}
  }

  lemma HostInIs(uiStructs: set<string>, c: Cursor, host: Option<string>)
    requires HostIs(uiStructs, c, host)
    ensures HostIn(uiStructs, c) <==> host == Some("build_method") || host == Some("builder")
  {
    if HostIn(uiStructs, c) {
      var k: nat, kind, name :| k < |c.above| && Encloses(uiStructs, c, k)
        && Declares(uiStructs, Ancestor(c, k), kind, name) && kind in {"build_method", "builder"};
      var j: nat, called :| Encloses(uiStructs, c, j) && Declares(uiStructs, Ancestor(c, j), host.value, called);
      EnclosesOnce(uiStructs, c, j, k);
      ListedOnce(uiStructs, Ancestor(c, k), kind, name, host.value, called);
    }
  }

  lemma PlaceIs(uiStructs: set<string>, c: Cursor, host: Option<string>, name: string)
    requires HostIs(uiStructs, c, host)
    ensures DeclarativePlace(uiStructs, c, name) <==> InDeclarativePosition(uiStructs, c, host, name)
  {
    HostInIs(uiStructs, c, host);
    assert InStatement(c, "statement_block") ==> c.Parent().value.Parent().value.node == UpTwice(c).node;
    assert InStatement(c, "arkui_children") ==> c.Parent().value.Parent().value.node == UpTwice(c).node;
    if c.above != [] {
      FieldTextIs(Up(c).node, "key", "builder");
      assert c.Parent().value.node == Up(c).node;
      if c.Parent().value.Parent().Some? {
        assert c.Parent().value.Parent().value.node == UpTwice(c).node;
      }
    }
    assert DeclarativePlace(uiStructs, c, name) <==>
      || InStatement(c, "arkui_children")
      || (InStatement(c, "statement_block") && (name in {"PageTransitionEnter", "PageTransitionExit"} || HostIn(uiStructs, c)))
      || (c.above != [] && Up(c).node.kind == "pair" && FieldText(Up(c).node, "key", "builder") && name in uiStructs);
  }

  // ------------------------------------------------------------ one step

  function Named(kind: string, name: Option<string>): Option<(string, string)> {
    if name.None? || name.value == "" then None else Some((kind, name.value))
  }

  /** Kind and name of what both walks declare at a node. */
  function Found(uiStructs: set<string>, c: Cursor, host: Option<string>): Option<(string, string)> {
    var n := c.node;
    if n.kind == "struct_declaration" then Named("struct", ChildText(n, "name"))
    else if IsClass(n.kind) then Named("class", ChildText(n, "name"))
    else if IsFunction(n.kind) then Named(if HasDecorator(c, "@Builder") then "builder" else "function", ChildText(n, "name"))
    else if n.kind == "method_definition" then
      Named(if ChildText(n, "name") == Some("build") then "build_method"
            else if HasDecorator(c, "@Builder") then "builder" else "method", ChildText(n, "name"))
    else Named("ui_block", FoundBlock(uiStructs, c, host))
  }

  function FoundBlock(uiStructs: set<string>, c: Cursor, host: Option<string>): Option<string> {
    var n := c.node;
    if n.kind == "arkui_component_expression" then
      (if ChildText(n, "function").Some? && IsComponentName(ChildText(n, "function").value) then ChildText(n, "function") else None)
    else if n.kind == "call_expression" then
      var info := ComponentCall(uiStructs, c, host, InfoOf(ChainOf(n)));
      if info.Some? then Some(info.value.name) else None
    else DetachedComponent(c)
  }

  predicate IsTyped(kind: string) {
    kind == "struct_declaration" || IsClass(kind) || IsFunction(kind) || kind == "method_definition"
  }

  lemma LegacyFoundTyped(uiStructs: set<string>, c: Cursor, stack: seq<Legacy>)
    requires IsTyped(c.node.kind)
    ensures LegacyDeclaration(uiStructs, c, stack) ==
      match Found(uiStructs, c, LegacyHost(stack)) case None => None case Some(found) => LegacyEntry(found.0, Some(found.1), stack)
  {
  }

  lemma LegacyFound(uiStructs: set<string>, c: Cursor, stack: seq<Legacy>)
    ensures LegacyDeclaration(uiStructs, c, stack) ==
      match Found(uiStructs, c, LegacyHost(stack)) case None => None case Some(found) => LegacyEntry(found.0, Some(found.1), stack)
  {
    if IsTyped(c.node.kind) {
      LegacyFoundTyped(uiStructs, c, stack);
    }
  }

  lemma LocatedFoundTyped(ids: Ids, uiStructs: set<string>, c: Cursor, stack: seq<Located>)
    requires IsTyped(c.node.kind)
    ensures LocatedDeclaration(ids, uiStructs, c, stack) ==
      match Found(uiStructs, c, LocatedHost(stack)) case None => None case Some(found) => LocatedEntry(ids, c, found.0, Some(found.1), stack)
  {
  }

  lemma LocatedFound(ids: Ids, uiStructs: set<string>, c: Cursor, stack: seq<Located>)
    ensures LocatedDeclaration(ids, uiStructs, c, stack) ==
      match Found(uiStructs, c, LocatedHost(stack)) case None => None case Some(found) => LocatedEntry(ids, c, found.0, Some(found.1), stack)
  {
    if IsTyped(c.node.kind) {
      LocatedFoundTyped(ids, uiStructs, c, stack);
    }
  }

  ghost predicate BlockNamed(uiStructs: set<string>, c: Cursor, name: string) {
    || (c.node.kind == "arkui_component_expression" && FieldText(c.node, "function", name))
    || (Calls(c.node, name) && DeclarativePlace(uiStructs, c, name))
    || DetachedCall(c, name)
  }

  lemma FoundBlockIs(uiStructs: set<string>, c: Cursor, host: Option<string>, name: string)
    requires HostIs(uiStructs, c, host)
    ensures ComponentWord(name) && BlockNamed(uiStructs, c, name) <==> FoundBlock(uiStructs, c, host) == Some(name)
  {
    var n := c.node;
    WordsAgree('a', name);
    if n.kind == "arkui_component_expression" {
      FieldTextIs(n, "function", name);
    } else if n.kind == "call_expression" {
      CallInfoIs(n, name);
      PlaceIs(uiStructs, c, host, name);
    } else {
      DetachedIs(c, name);
    }
  }

  lemma DeclaresByKind(uiStructs: set<string>, c: Cursor, kind: string, name: string)
    ensures Declares(uiStructs, c, kind, name) <==>
      && name != ""
      && if c.node.kind == "struct_declaration" then kind == "struct" && FieldText(c.node, "name", name)
         else if IsClass(c.node.kind) then kind == "class" && FieldText(c.node, "name", name)
         else if IsFunction(c.node.kind) then FieldText(c.node, "name", name) && kind == if Decorated(c) then "builder" else "function"
         else if c.node.kind == "method_definition" then
           FieldText(c.node, "name", name) && kind == if name == "build" then "build_method" else if Decorated(c) then "builder" else "method"
         else kind == "ui_block" && ComponentWord(name) && BlockNamed(uiStructs, c, name)
  {
  }

  /** The walks declare a node exactly as the description says. */
  lemma FoundIs(uiStructs: set<string>, c: Cursor, host: Option<string>, kind: string, name: string)
    requires HostIs(uiStructs, c, host)
    ensures Declares(uiStructs, c, kind, name) <==> Found(uiStructs, c, host) == Some((kind, name))
  {
    DeclaresByKind(uiStructs, c, kind, name);
    var n := c.node;
    if n.kind == "struct_declaration" || IsClass(n.kind) || n.kind == "method_definition" {
      FieldTextIs(n, "name", name);
      DecoratedIs(c);
    } else if IsFunction(n.kind) {
      FieldTextIs(n, "name", name);
      DecoratedIs(c);
    } else {
      FoundBlockIs(uiStructs, c, host, name);
    }
  }

  // ------------------------------------------------------- stacks and entries

  /** The entry a walk made for the node: its kind, name and dotted name. */
  ghost predicate Describes(uiStructs: set<string>, c: Cursor, kind: string, name: string, dotted: string) {
    Declares(uiStructs, c, kind, name) && Qualified(uiStructs, c, name, dotted)
  }

  ghost predicate NoneAround(uiStructs: set<string>, c: Cursor) {
    forall k: nat | k < |c.above| :: !IsEntry(uiStructs, Ancestor(c, k))
  }

  /** The legacy entry of a node, with the dotted name of what encloses it. */
  ghost predicate LegacyIs(uiStructs: set<string>, c: Cursor, d: Legacy) {
    && Describes(uiStructs, c, d.kind, d.name, d.qualifiedName)
    && match d.parentName
       case None => NoneAround(uiStructs, c)
       case Some(dotted) => exists k: nat, kind, name ::
         Encloses(uiStructs, c, k) && Describes(uiStructs, Ancestor(c, k), kind, name, dotted)
  }

  /** The v2 entry of a node: its id, and the id of what encloses it. */
  ghost predicate LocatedIs(ids: Ids, uiStructs: set<string>, c: Cursor, d: Located) {
    && Describes(uiStructs, c, d.kind, d.name, d.qualifiedName)
    && d.localId == ids(c, d.kind, d.qualifiedName)
    && match d.parentId
       case None => NoneAround(uiStructs, c)
       case Some(id) => exists k: nat, kind, name, dotted ::
         && Encloses(uiStructs, c, k) && Describes(uiStructs, Ancestor(c, k), kind, name, dotted)
         && id == ids(Ancestor(c, k), kind, dotted)
  }

  /** The top of the stack is the innermost declaration around the node. */
  ghost predicate LegacyTop(uiStructs: set<string>, c: Cursor, stack: seq<Legacy>) {
    if stack == [] then NoneAround(uiStructs, c)
    else exists k: nat :: Encloses(uiStructs, c, k) && LegacyIs(uiStructs, Ancestor(c, k), stack[|stack| - 1])
  }

  ghost predicate LocatedTop(ids: Ids, uiStructs: set<string>, c: Cursor, stack: seq<Located>) {
    if stack == [] then NoneAround(uiStructs, c)
    else exists k: nat :: Encloses(uiStructs, c, k) && LocatedIs(ids, uiStructs, Ancestor(c, k), stack[|stack| - 1])
  }

  lemma NoneAroundIs(uiStructs: set<string>, c: Cursor)
    ensures NoneAround(uiStructs, c) ==> HostIs(uiStructs, c, None)
    ensures forall name :: NoneAround(uiStructs, c) && name != "" ==> Qualified(uiStructs, c, name, name)
  {
  }

  lemma DottedNotEmpty(uiStructs: set<string>, c: Cursor, name: string, dotted: string)
    requires Qualified(uiStructs, c, name, dotted) && name != ""
    ensures dotted != ""
  {
  }

  lemma QualifiedInside(uiStructs: set<string>, c: Cursor, k: nat, kind: string, host: string, before: string, name: string)
    requires Encloses(uiStructs, c, k) && Describes(uiStructs, Ancestor(c, k), kind, host, before)
    ensures Qualified(uiStructs, c, name, before + "." + name)
  {
  }

  lemma LegacyHostIs(uiStructs: set<string>, c: Cursor, stack: seq<Legacy>)
    requires LegacyTop(uiStructs, c, stack)
    ensures HostIs(uiStructs, c, LegacyHost(stack))
  {
    NoneAroundIs(uiStructs, c);
  }

  lemma LocatedHostIs(ids: Ids, uiStructs: set<string>, c: Cursor, stack: seq<Located>)
    requires LocatedTop(ids, uiStructs, c, stack)
    ensures HostIs(uiStructs, c, LocatedHost(stack))
  {
    NoneAroundIs(uiStructs, c);
  }

  lemma LegacyEntryIs(uiStructs: set<string>, c: Cursor, stack: seq<Legacy>, kind: string, name: string)
    requires LegacyTop(uiStructs, c, stack) && Declares(uiStructs, c, kind, name)
    ensures LegacyEntry(kind, Some(name), stack).Some? && LegacyIs(uiStructs, c, LegacyEntry(kind, Some(name), stack).value)
  {
    if stack == [] {
      NoneAroundIs(uiStructs, c);
    } else {
      var top := stack[|stack| - 1];
      var k: nat :| Encloses(uiStructs, c, k) && LegacyIs(uiStructs, Ancestor(c, k), top);
      DottedNotEmpty(uiStructs, Ancestor(c, k), top.name, top.qualifiedName);
      QualifiedInside(uiStructs, c, k, top.kind, top.name, top.qualifiedName, name);
    }
  }

  lemma LocatedEntryIs(ids: Ids, uiStructs: set<string>, c: Cursor, stack: seq<Located>, kind: string, name: string)
    requires LocatedTop(ids, uiStructs, c, stack) && Declares(uiStructs, c, kind, name)
    ensures LocatedEntry(ids, c, kind, Some(name), stack).Some?
    ensures LocatedIs(ids, uiStructs, c, LocatedEntry(ids, c, kind, Some(name), stack).value)
  {
    if stack == [] {
      NoneAroundIs(uiStructs, c);
    } else {
      var top := stack[|stack| - 1];
      var k: nat :| Encloses(uiStructs, c, k) && LocatedIs(ids, uiStructs, Ancestor(c, k), top);
      QualifiedInside(uiStructs, c, k, top.kind, top.name, top.qualifiedName, name);
    }
  }

  lemma LegacyStep(uiStructs: set<string>, c: Cursor, stack: seq<Legacy>)
    requires LegacyTop(uiStructs, c, stack)
    ensures LegacyDeclaration(uiStructs, c, stack).Some? <==> IsEntry(uiStructs, c)
    ensures LegacyDeclaration(uiStructs, c, stack).Some? ==> LegacyIs(uiStructs, c, LegacyDeclaration(uiStructs, c, stack).value)
  {
    LegacyHostIs(uiStructs, c, stack);
    LegacyFound(uiStructs, c, stack);
    var found := Found(uiStructs, c, LegacyHost(stack));
    if found.Some? {
      FoundIs(uiStructs, c, LegacyHost(stack), found.value.0, found.value.1);
      LegacyEntryIs(uiStructs, c, stack, found.value.0, found.value.1);
    }
    if kind, name :| Declares(uiStructs, c, kind, name) {
      FoundIs(uiStructs, c, LegacyHost(stack), kind, name);
    }
  }

  lemma LocatedStep(ids: Ids, uiStructs: set<string>, c: Cursor, stack: seq<Located>)
    requires LocatedTop(ids, uiStructs, c, stack)
    ensures LocatedDeclaration(ids, uiStructs, c, stack).Some? <==> IsEntry(uiStructs, c)
    ensures LocatedDeclaration(ids, uiStructs, c, stack).Some? ==>
      LocatedIs(ids, uiStructs, c, LocatedDeclaration(ids, uiStructs, c, stack).value)
  {
    LocatedHostIs(ids, uiStructs, c, stack);
    LocatedFound(ids, uiStructs, c, stack);
    var found := Found(uiStructs, c, LocatedHost(stack));
    if found.Some? {
      FoundIs(uiStructs, c, LocatedHost(stack), found.value.0, found.value.1);
      LocatedEntryIs(ids, uiStructs, c, stack, found.value.0, found.value.1);
    }
    if kind, name :| Declares(uiStructs, c, kind, name) {
      FoundIs(uiStructs, c, LocatedHost(stack), kind, name);
    }
  }

  // --------------------------------------------------------------- going down

  lemma AncestorsBelow(c: Cursor, index: nat, k: nat)
    requires index < |c.node.children| && k <= |c.above|
    ensures |c.Down(index).above| == |c.above| + 1
    ensures Ancestor(c.Down(index), k) == if k == |c.above| then c else Ancestor(c, k)
  {
    assert c.Down(index).above[..k] == c.above[..k];
  }

  lemma EnclosesBelow(uiStructs: set<string>, c: Cursor, index: nat)
    requires index < |c.node.children|
    ensures IsEntry(uiStructs, c) ==> Encloses(uiStructs, c.Down(index), |c.above|)
    ensures forall k: nat | !IsEntry(uiStructs, c) && Encloses(uiStructs, c, k) :: Encloses(uiStructs, c.Down(index), k)
    ensures !IsEntry(uiStructs, c) && NoneAround(uiStructs, c) ==> NoneAround(uiStructs, c.Down(index))
  {
    forall k: nat | k <= |c.above| {
      AncestorsBelow(c, index, k);
    }
  }

  lemma LegacyPushed(uiStructs: set<string>, c: Cursor, stack: seq<Legacy>, d: Legacy, index: nat)
    requires IsEntry(uiStructs, c) && LegacyIs(uiStructs, c, d) && index < |c.node.children|
    ensures LegacyTop(uiStructs, c.Down(index), stack + [d])
  {
    EnclosesBelow(uiStructs, c, index);
    AncestorsBelow(c, index, |c.above|);
    assert Encloses(uiStructs, c.Down(index), |c.above|);
  }

  lemma LegacyPassed(uiStructs: set<string>, c: Cursor, stack: seq<Legacy>, index: nat)
    requires !IsEntry(uiStructs, c) && LegacyTop(uiStructs, c, stack) && index < |c.node.children|
    ensures LegacyTop(uiStructs, c.Down(index), stack)
  {
    EnclosesBelow(uiStructs, c, index);
    if stack != [] {
      var k: nat :| Encloses(uiStructs, c, k) && LegacyIs(uiStructs, Ancestor(c, k), stack[|stack| - 1]);
      AncestorsBelow(c, index, k);
      assert Encloses(uiStructs, c.Down(index), k);
    }
  }

  lemma LegacyTopBelow(uiStructs: set<string>, c: Cursor, stack: seq<Legacy>, index: nat)
    requires LegacyTop(uiStructs, c, stack) && index < |c.node.children|
    ensures var d := LegacyDeclaration(uiStructs, c, stack);
      LegacyTop(uiStructs, c.Down(index), if d.Some? then stack + [d.value] else stack)
  {
    LegacyStep(uiStructs, c, stack);
    var d := LegacyDeclaration(uiStructs, c, stack);
    if d.Some? {
      LegacyPushed(uiStructs, c, stack, d.value, index);
    } else {
      LegacyPassed(uiStructs, c, stack, index);
    }
  }

  lemma LocatedPushed(ids: Ids, uiStructs: set<string>, c: Cursor, stack: seq<Located>, d: Located, index: nat)
    requires IsEntry(uiStructs, c) && LocatedIs(ids, uiStructs, c, d) && index < |c.node.children|
    ensures LocatedTop(ids, uiStructs, c.Down(index), stack + [d])
  {
    EnclosesBelow(uiStructs, c, index);
    AncestorsBelow(c, index, |c.above|);
    assert Encloses(uiStructs, c.Down(index), |c.above|);
  }

  lemma LocatedPassed(ids: Ids, uiStructs: set<string>, c: Cursor, stack: seq<Located>, index: nat)
    requires !IsEntry(uiStructs, c) && LocatedTop(ids, uiStructs, c, stack) && index < |c.node.children|
    ensures LocatedTop(ids, uiStructs, c.Down(index), stack)
  {
    EnclosesBelow(uiStructs, c, index);
    if stack != [] {
      var k: nat :| Encloses(uiStructs, c, k) && LocatedIs(ids, uiStructs, Ancestor(c, k), stack[|stack| - 1]);
      AncestorsBelow(c, index, k);
      assert Encloses(uiStructs, c.Down(index), k);
    }
  }

  lemma LocatedTopBelow(ids: Ids, uiStructs: set<string>, c: Cursor, stack: seq<Located>, index: nat)
    requires LocatedTop(ids, uiStructs, c, stack) && index < |c.node.children|
    ensures var d := LocatedDeclaration(ids, uiStructs, c, stack);
      LocatedTop(ids, uiStructs, c.Down(index), if d.Some? then stack + [d.value] else stack)
  {
    LocatedStep(ids, uiStructs, c, stack);
    var d := LocatedDeclaration(ids, uiStructs, c, stack);
    if d.Some? {
      LocatedPushed(ids, uiStructs, c, stack, d.value, index);
    } else {
      LocatedPassed(ids, uiStructs, c, stack, index);
    }
  }

  // ----------------------------------------------------------------- places

  /** `d` is reached from `c` by going down. */
  ghost predicate Below(c: Cursor, d: Cursor)
    decreases |d.above|
  {
    d == c
    || (d.above != [] && Up(d).index < |Up(d).node.children|
        && d == d.Parent().value.Down(Up(d).index) && Below(c, d.Parent().value))
  }

  /** A node of the tree, with the way down to it. */
  ghost predicate InTree(root: Node, c: Cursor) { Below(Cursor(root, []), c) }

  function IndexOf(f: Frame): nat { f.index }

  /** Which child was taken at each step from the root. */
  function Path(c: Cursor): seq<nat> { Map(IndexOf, c.above) }

  /** Preorder: a node comes before its descendants, and those before later siblings. */
  ghost predicate Before(p: seq<nat>, q: seq<nat>) {
    exists k: nat ::
      && k <= |p| && k < |q| && p[..k] == q[..k]
      && (k == |p| || p[k] < q[k])
  }

  /** The declarations at and below a node, in preorder. */
  ghost function Entries(uiStructs: set<string>, c: Cursor): seq<Cursor>
    decreases c.node, |c.node.children| + 1
  {
    (if IsEntry(uiStructs, c) then [c] else []) + EntriesFrom(uiStructs, c, 0)
  }

  ghost function EntriesFrom(uiStructs: set<string>, c: Cursor, index: nat): seq<Cursor>
    requires index <= |c.node.children|
    decreases c.node, |c.node.children| - index
  {
    if index == |c.node.children| then []
    else Entries(uiStructs, c.Down(index)) + EntriesFrom(uiStructs, c, index + 1)
  }

  lemma BelowDown(c: Cursor, index: nat, d: Cursor)
    requires index < |c.node.children| && Below(c.Down(index), d)
    ensures Below(c, d) && d != c && |d.above| > |c.above|
    decreases |d.above|
  {
    if d != c.Down(index) {
      BelowDown(c, index, d.Parent().value);
    } else {
      assert d.Parent().value == c;
    }
  }

  lemma BelowSplits(c: Cursor, d: Cursor) returns (index: nat)
    requires Below(c, d) && d != c
    ensures index < |c.node.children| && Below(c.Down(index), d)
    decreases |d.above|
  {
    var up := d.Parent().value;
    if up == c {
      index := Up(d).index;
    } else {
      index := BelowSplits(c, up);
    }
  }

  /** `d` is below one of the children from `from` on. */
  ghost predicate BelowChild(c: Cursor, from: nat, d: Cursor) {
    exists index: nat :: from <= index < |c.node.children| && Below(c.Down(index), d)
  }

  lemma BelowChildStep(c: Cursor, from: nat, d: Cursor)
    requires from < |c.node.children|
    ensures BelowChild(c, from, d) <==> Below(c.Down(from), d) || BelowChild(c, from + 1, d)
  {
  }

  lemma BelowIff(c: Cursor, d: Cursor)
    ensures Below(c, d) <==> d == c || BelowChild(c, 0, d)
  {
    if Below(c, d) && d != c {
      var index := BelowSplits(c, d);
    }
    if BelowChild(c, 0, d) {
      var index: nat :| index < |c.node.children| && Below(c.Down(index), d);
      BelowDown(c, index, d);
    }
  }

  lemma {:induction false} EntriesAre(uiStructs: set<string>, c: Cursor, d: Cursor)
    ensures d in Entries(uiStructs, c) <==> Below(c, d) && IsEntry(uiStructs, d)
    decreases c.node, |c.node.children| + 1
  {
    EntriesFromAre(uiStructs, c, 0, d);
    BelowIff(c, d);
  }

  lemma {:induction false} EntriesFromAre(uiStructs: set<string>, c: Cursor, from: nat, d: Cursor)
    requires from <= |c.node.children|
    ensures d in EntriesFrom(uiStructs, c, from) <==> IsEntry(uiStructs, d) && BelowChild(c, from, d)
    decreases c.node, |c.node.children| - from
  {
    if from < |c.node.children| {
      EntriesAre(uiStructs, c.Down(from), d);
      EntriesFromAre(uiStructs, c, from + 1, d);
      BelowChildStep(c, from, d);
    }
  }

  lemma {:induction false} PathsExtend(c: Cursor, d: Cursor)
    requires Below(c, d)
    ensures |Path(c)| <= |Path(d)| && Path(d)[..|Path(c)|] == Path(c)
    ensures d != c ==> |Path(c)| < |Path(d)|
    decreases |d.above|
  {
    if d != c {
      var up := d.Parent().value;
      PathsExtend(c, up);
      assert d.above == up.above + [Up(d)];
      assert Path(d) == Path(up) + [Up(d).index];
    }
  }

  lemma PathDown(c: Cursor, index: nat)
    requires index < |c.node.children|
    ensures Path(c.Down(index)) == Path(c) + [index]
  {
  }

  /** A node comes before what is below it, and what is below one child before what is
      below a later one. */
  lemma NodeFirst(c: Cursor, d: Cursor)
    requires Below(c, d) && d != c
    ensures Before(Path(c), Path(d))
  {
    PathsExtend(c, d);
    assert Path(c)[..|Path(c)|] == Path(c);
  }

  lemma EarlierChildFirst(c: Cursor, i: nat, j: nat, d: Cursor, e: Cursor)
    requires i < j < |c.node.children| && Below(c.Down(i), d) && Below(c.Down(j), e)
    ensures Before(Path(d), Path(e))
  {
    PathDown(c, i);
    PathDown(c, j);
    PathsExtend(c.Down(i), d);
    PathsExtend(c.Down(j), e);
    ForkBefore(Path(c), i, j, Path(d), Path(e));
  }

  lemma ForkBefore(common: seq<nat>, i: nat, j: nat, p: seq<nat>, q: seq<nat>)
    requires i < j && common + [i] <= p && common + [j] <= q
    ensures Before(p, q)
  {
    var k := |common|;
    assert p[k] == (common + [i])[k] && q[k] == (common + [j])[k];
    assert p[..k] == common && q[..k] == common;
  }

  ghost predicate InOrder(places: seq<Cursor>) {
    forall i, j | 0 <= i < j < |places| :: Before(Path(places[i]), Path(places[j]))
  }

  lemma OrderJoin(xs: seq<Cursor>, ys: seq<Cursor>)
    requires InOrder(xs) && InOrder(ys)
    requires forall x, y | x in xs && y in ys :: Before(Path(x), Path(y))
    ensures InOrder(xs + ys)
  {
    var all := xs + ys;
    forall i, j | 0 <= i < j < |all| ensures Before(Path(all[i]), Path(all[j])) {
      if i < |xs| <= j {
        assert xs[i] in xs && ys[j - |xs|] in ys;
      }
    }
  }

  lemma {:induction false} EntriesInOrder(uiStructs: set<string>, c: Cursor)
    ensures InOrder(Entries(uiStructs, c))
    decreases c.node, |c.node.children| + 1
  {
    EntriesFromInOrder(uiStructs, c, 0);
    var own := if IsEntry(uiStructs, c) then [c] else [];
    forall x, y | x in own && y in EntriesFrom(uiStructs, c, 0) ensures Before(Path(x), Path(y)) {
      EntriesFromAre(uiStructs, c, 0, y);
      var index: nat :| index < |c.node.children| && Below(c.Down(index), y);
      BelowDown(c, index, y);
      NodeFirst(c, y);
    }
    OrderJoin(own, EntriesFrom(uiStructs, c, 0));
  }

  lemma {:induction false} EntriesFromInOrder(uiStructs: set<string>, c: Cursor, from: nat)
    requires from <= |c.node.children|
    ensures InOrder(EntriesFrom(uiStructs, c, from))
    decreases c.node, |c.node.children| - from
  {
    if from < |c.node.children| {
      EntriesInOrder(uiStructs, c.Down(from));
      EntriesFromInOrder(uiStructs, c, from + 1);
      forall x, y | x in Entries(uiStructs, c.Down(from)) && y in EntriesFrom(uiStructs, c, from + 1) ensures Before(Path(x), Path(y)) {
        EntriesAre(uiStructs, c.Down(from), x);
        EntriesFromAre(uiStructs, c, from + 1, y);
        var index: nat :| from + 1 <= index < |c.node.children| && Below(c.Down(index), y);
        EarlierChildFirst(c, from, index, x, y);
      }
      OrderJoin(Entries(uiStructs, c.Down(from)), EntriesFrom(uiStructs, c, from + 1));
    }
  }

  // ---------------------------------------------------------------- listings

  ghost predicate LegacyLists(uiStructs: set<string>, places: seq<Cursor>, listed: seq<Legacy>) {
    |listed| == |places| && forall i | 0 <= i < |listed| :: LegacyIs(uiStructs, places[i], listed[i])
  }

  ghost predicate LocatedLists(ids: Ids, uiStructs: set<string>, places: seq<Cursor>, listed: seq<Located>) {
    |listed| == |places| && forall i | 0 <= i < |listed| :: LocatedIs(ids, uiStructs, places[i], listed[i])
  }

  lemma LegacyListsJoin(uiStructs: set<string>, places: seq<Cursor>, listed: seq<Legacy>, more: seq<Cursor>, rest: seq<Legacy>)
    requires LegacyLists(uiStructs, places, listed) && LegacyLists(uiStructs, more, rest)
    ensures LegacyLists(uiStructs, places + more, listed + rest)
  {
  }

  lemma LocatedListsJoin(ids: Ids, uiStructs: set<string>, places: seq<Cursor>, listed: seq<Located>, more: seq<Cursor>, rest: seq<Located>)
    requires LocatedLists(ids, uiStructs, places, listed) && LocatedLists(ids, uiStructs, more, rest)
    ensures LocatedLists(ids, uiStructs, places + more, listed + rest)
  {
  }

  lemma {:induction false} LegacyWalkLists(uiStructs: set<string>, c: Cursor, stack: seq<Legacy>)
    requires LegacyTop(uiStructs, c, stack)
    ensures LegacyLists(uiStructs, Entries(uiStructs, c), LegacyWalk(uiStructs, c, stack))
    decreases c.node, |c.node.children| + 1
  {
    LegacyStep(uiStructs, c, stack);
    var d := LegacyDeclaration(uiStructs, c, stack);
    var next := if d.Some? then stack + [d.value] else stack;
    forall i | 0 <= i < |c.node.children| ensures LegacyTop(uiStructs, c.Down(i), next) {
      LegacyTopBelow(uiStructs, c, stack, i);
    }
    LegacyChildrenList(uiStructs, c, 0, next);
    if d.Some? {
      LegacyListsJoin(uiStructs, [c], [d.value], EntriesFrom(uiStructs, c, 0), LegacyChildren(uiStructs, c, 0, stack + [d.value]));
    }
  }

  lemma {:induction false} LegacyChildrenList(uiStructs: set<string>, c: Cursor, index: nat, next: seq<Legacy>)
    requires index <= |c.node.children|
    requires forall i | index <= i < |c.node.children| :: LegacyTop(uiStructs, c.Down(i), next)
    ensures LegacyLists(uiStructs, EntriesFrom(uiStructs, c, index), LegacyChildren(uiStructs, c, index, next))
    decreases c.node, |c.node.children| - index
  {
    if index < |c.node.children| {
      LegacyWalkLists(uiStructs, c.Down(index), next);
      LegacyChildrenList(uiStructs, c, index + 1, next);
      LegacyListsJoin(uiStructs, Entries(uiStructs, c.Down(index)), LegacyWalk(uiStructs, c.Down(index), next),
                      EntriesFrom(uiStructs, c, index + 1), LegacyChildren(uiStructs, c, index + 1, next));
    }
  }

  lemma {:induction false} LocatedWalkLists(ids: Ids, uiStructs: set<string>, c: Cursor, stack: seq<Located>)
    requires LocatedTop(ids, uiStructs, c, stack)
    ensures LocatedLists(ids, uiStructs, Entries(uiStructs, c), LocatedWalk(ids, uiStructs, c, stack))
    decreases c.node, |c.node.children| + 1
  {
    LocatedStep(ids, uiStructs, c, stack);
    var d := LocatedDeclaration(ids, uiStructs, c, stack);
    var next := if d.Some? then stack + [d.value] else stack;
    forall i | 0 <= i < |c.node.children| ensures LocatedTop(ids, uiStructs, c.Down(i), next) {
      LocatedTopBelow(ids, uiStructs, c, stack, i);
    }
    LocatedChildrenList(ids, uiStructs, c, 0, next);
    if d.Some? {
      LocatedListsJoin(ids, uiStructs, [c], [d.value], EntriesFrom(uiStructs, c, 0), LocatedChildren(ids, uiStructs, c, 0, stack + [d.value]));
    }
  }

  lemma {:induction false} LocatedChildrenList(ids: Ids, uiStructs: set<string>, c: Cursor, index: nat, next: seq<Located>)
    requires index <= |c.node.children|
    requires forall i | index <= i < |c.node.children| :: LocatedTop(ids, uiStructs, c.Down(i), next)
    ensures LocatedLists(ids, uiStructs, EntriesFrom(uiStructs, c, index), LocatedChildren(ids, uiStructs, c, index, next))
    decreases c.node, |c.node.children| - index
  {
    if index < |c.node.children| {
      LocatedWalkLists(ids, uiStructs, c.Down(index), next);
      LocatedChildrenList(ids, uiStructs, c, index + 1, next);
      LocatedListsJoin(ids, uiStructs, Entries(uiStructs, c.Down(index)), LocatedWalk(ids, uiStructs, c.Down(index), next),
                       EntriesFrom(uiStructs, c, index + 1), LocatedChildren(ids, uiStructs, c, index + 1, next));
    }
  }

  /** Exactly the declarations of the tree, in preorder. */
  ghost predicate AllEntries(uiStructs: set<string>, root: Node, places: seq<Cursor>) {
    InOrder(places) && forall c :: c in places <==> InTree(root, c) && IsEntry(uiStructs, c)
  }

  /** Both walks over one parsed file, as the sidecar runs them. Each lists every
      declaration of the tree once, in preorder, under its kind, name and dotted name,
      and nothing else. */
  method ListDeclarations(root: Node, uiStructs: set<string>, ids: Ids)
    returns (legacy: seq<Legacy>, located: seq<Located>, ghost places: seq<Cursor>)
    ensures AllEntries(uiStructs, root, places)
    ensures LegacyLists(uiStructs, places, legacy)
    ensures LocatedLists(ids, uiStructs, places, located)
    ensures Map(OfLegacy, legacy) == Map(OfLocated, located)
  {
    var top := Cursor(root, []);
    var result := new LegacyResult(uiStructs);
    result.Walk(top, []);
    var analysis := new Analysis(ids, uiStructs);
    analysis.Discover(top, []);
    legacy, located := result.declarations, analysis.declarations;
    WalksAgree(ids, uiStructs, top, [], []);
    places := Entries(uiStructs, top);
    LegacyWalkLists(uiStructs, top, []);
    LocatedWalkLists(ids, uiStructs, top, []);
    EntriesInOrder(uiStructs, top);
    forall c ensures c in places <==> InTree(root, c) && IsEntry(uiStructs, c) {
      EntriesAre(uiStructs, top, c);
    }
  }
}
