/** Which nodes of a syntax tree are declarations, said by node kinds, fields and the
    way down from the root, without any walk. */
module DeclaredPlaces {
  import opened Sorting
  import opened CallText
  import opened SyntaxTree

  // ------------------------------------------------------- fields and texts

  /** The first child with the field name. */
  predicate IsField(n: Node, i: nat, field: string) {
    && i < |n.children| && n.children[i].field == Some(field)
    && forall j | 0 <= j < i :: n.children[j].field != Some(field)
  }

  ghost predicate FieldText(n: Node, field: string, text: string) {
    exists i: nat :: IsField(n, i, field) && n.children[i].node.text == text
  }

  predicate AllSpace(text: string) { forall i | 0 <= i < |text| :: IsSpace(text[i]) }

  /** `inner` is the text without the whitespace around it. */
  ghost predicate Trimmed(text: string, inner: string) {
    && (exists a, b :: text == a + inner + b && AllSpace(a) && AllSpace(b))
    && (inner != [] ==> !IsSpace(inner[0]) && !IsSpace(inner[|inner| - 1]))
  }

  /** Letters, digits, underscore or dollar sign. */
  predicate InWord(c: char) { 'a' <= c <= 'z' || 'A' <= c <= 'Z' || '0' <= c <= '9' || c == '_' || c == '$' }

  /** A word with a capital first letter that is none of the built-in callables. */
  predicate ComponentWord(name: string) {
    && name != [] && 'A' <= name[0] <= 'Z' && (forall i | 0 <= i < |name| :: InWord(name[i]))
    && name !in {"Array", "Boolean", "Date", "Map", "Number", "Object", "Promise", "RegExp", "Set", "String"}
  }

  /** A decorator node whose text is the decorator, perhaps with arguments. */
  ghost predicate SaysBuilder(n: Node) {
    && n.kind == "decorator"
    && exists t :: Trimmed(n.text, t) && |t| >= 8 && t[..8] == "@Builder" && (|t| == 8 || !InWord(t[8]))
  }

  /** A named child before `index` is marked, and named ones between may be passed. */
  predicate MarkedBefore(marked: Node -> bool, passed: Node -> bool, siblings: seq<Child>, j: nat, index: nat) {
    && j < index && j < |siblings| && siblings[j].node.named && marked(siblings[j].node)
    && forall k | j < k < index && k < |siblings| && siblings[k].node.named :: passed(siblings[k].node)
  }

  ghost predicate HasMarkedBefore(marked: Node -> bool, passed: Node -> bool, siblings: seq<Child>, index: nat) {
    exists j: nat :: MarkedBefore(marked, passed, siblings, j, index)
  }

  predicate IsDecoration(n: Node) { n.kind == "decorator" || n.kind == "comment" }

  function Up(c: Cursor): Frame
    requires c.above != []
  {
    c.above[|c.above| - 1]
  }

  function UpTwice(c: Cursor): Frame
    requires |c.above| >= 2
  {
    c.above[|c.above| - 2]
  }

  /** A child says `@Builder`, or a named sibling before the node does, with nothing
      named but decorators and comments between. */
  ghost predicate Decorated(c: Cursor) {
    || (exists i :: 0 <= i < |c.node.children| && SaysBuilder(c.node.children[i].node))
    || (c.above != [] && HasMarkedBefore(SaysBuilder, IsDecoration, Up(c).node.children, Up(c).index))
  }

  // ------------------------------------------------------------ call chains

  /** A call, perhaps of a property of a call and so on, that starts with `name(..)`. */
  ghost predicate Calls(n: Node, name: string)
    decreases n
  {
    && n.kind == "call_expression"
    && exists i: nat :: IsField(n, i, "function") && StartsWith(n.children[i].node, name)
  }

  ghost predicate StartsWith(fn: Node, name: string)
    decreases fn
  {
    || (fn.kind == "identifier" && fn.text == name)
    || (fn.kind == "member_expression"
        && exists j: nat :: IsField(fn, j, "object") && Calls(fn.children[j].node, name))
  }

  /** The node is the expression of a statement in a node of kind `container`. */
  predicate InStatement(c: Cursor, container: string) {
    && |c.above| >= 2
    && Up(c).node.kind == "expression_statement" && UpTwice(c).node.kind == container
  }

  /** A component name alone in a statement of a children block; the next statement is
      a parenthesis that starts where this one ends. */
  ghost predicate DetachedCall(c: Cursor, name: string) {
    && c.node.kind == "identifier" && c.node.text == name && InStatement(c, "arkui_children")
    && Trimmed(Up(c).node.text, name)
    && exists j: nat :: NextStatement(UpTwice(c), j)
         && UpTwice(c).node.children[j].node.kind == "expression_statement"
         && Up(c).node.end == UpTwice(c).node.children[j].node.start
         && OpensWithParenthesis(UpTwice(c).node.children[j].node.text)
  }

  /** The first named child after the one taken that is no comment. */
  predicate NextStatement(f: Frame, j: nat) {
    && f.index < j < |f.node.children|
    && f.node.children[j].node.named && f.node.children[j].node.kind != "comment"
    && forall k | f.index < k < j :: !f.node.children[k].node.named || f.node.children[k].node.kind == "comment"
  }

  ghost predicate OpensWithParenthesis(text: string) {
    exists k: nat :: k < |text| && text[k] == '(' && AllSpace(text[..k])
  }

  // ---------------------------------------------------------------- entries

  function Ancestor(c: Cursor, k: nat): Cursor
    requires k < |c.above|
  {
    Cursor(c.above[k].node, c.above[..k])
  }

  /** The node is a declaration of this kind and name. */
  ghost predicate Declares(uiStructs: set<string>, c: Cursor, kind: string, name: string)
    decreases |c.above|, 2
  {
    && name != ""
    && var n := c.node;
       || (n.kind == "struct_declaration" && kind == "struct" && FieldText(n, "name", name))
       || (n.kind in {"class_declaration", "abstract_class_declaration"} && kind == "class" && FieldText(n, "name", name))
       || (n.kind in {"function_declaration", "generator_function_declaration"} && FieldText(n, "name", name)
           && kind == if Decorated(c) then "builder" else "function")
       || (n.kind == "method_definition" && FieldText(n, "name", name)
           && kind == if name == "build" then "build_method" else if Decorated(c) then "builder" else "method")
       || (kind == "ui_block" && ComponentWord(name)
           && (|| (n.kind == "arkui_component_expression" && FieldText(n, "function", name))
               || (Calls(n, name) && DeclarativePlace(uiStructs, c, name))
               || DetachedCall(c, name)))
  }

  ghost predicate IsEntry(uiStructs: set<string>, c: Cursor)
    decreases |c.above|, 3
  {
    exists kind, name :: Declares(uiStructs, c, kind, name)
  }

  /** Ancestor `k` is the innermost declaration around the node. */
  ghost predicate Encloses(uiStructs: set<string>, c: Cursor, k: nat)
    decreases |c.above|, 0
  {
    && k < |c.above| && IsEntry(uiStructs, Ancestor(c, k))
    && forall j | k < j < |c.above| :: !IsEntry(uiStructs, Ancestor(c, j))
  }

  /** Where a component call counts: in a children block; in a statement block of a
      build method or builder, or anywhere in one for a page transition; as the builder
      of a custom dialog. */
  ghost predicate DeclarativePlace(uiStructs: set<string>, c: Cursor, name: string)
    decreases |c.above|, 1
  {
    || InStatement(c, "arkui_children")
    || (InStatement(c, "statement_block")
        && (|| name in {"PageTransitionEnter", "PageTransitionExit"}
            || exists k: nat, kind, host :: k < |c.above| && Encloses(uiStructs, c, k)
                 && Declares(uiStructs, Ancestor(c, k), kind, host) && kind in {"build_method", "builder"}))
    || (c.above != [] && Up(c).node.kind == "pair" && FieldText(Up(c).node, "key", "builder") && name in uiStructs)
  }

  /** The dotted names of the enclosing declarations and of this one. */
  ghost predicate Qualified(uiStructs: set<string>, c: Cursor, name: string, dotted: string)
    decreases |c.above|
  {
    || (dotted == name && forall k | 0 <= k < |c.above| :: !IsEntry(uiStructs, Ancestor(c, k)))
    || exists k: nat, kind, host, before :: k < |c.above| && Encloses(uiStructs, c, k)
         && Declares(uiStructs, Ancestor(c, k), kind, host)
         && Qualified(uiStructs, Ancestor(c, k), host, before)
         && dotted == before + "." + name
  }

  // ------------------------------------------- the readers, in these terms

  lemma {:induction false} FieldFromIs(n: Node, at: nat, field: string)
    requires at <= |n.children| && forall j | 0 <= j < at :: n.children[j].field != Some(field)
    ensures FieldFrom(n.children[at..], field).Some? <==> exists i: nat :: IsField(n, i, field)
    ensures forall i: nat | IsField(n, i, field) :: FieldFrom(n.children[at..], field) == Some(n.children[i].node)
    decreases |n.children| - at
  {
    if at < |n.children| {
      if n.children[at].field == Some(field) {
        assert IsField(n, at, field);
        forall i: nat | IsField(n, i, field) ensures i == at {
        }
      } else {
        FieldFromIs(n, at + 1, field);
        assert n.children[at..][1..] == n.children[at + 1..];
      }
    }
  }

  lemma FieldChildIs(n: Node, field: string)
    ensures FieldChild(n, field).Some? <==> exists i: nat :: IsField(n, i, field)
    ensures forall i: nat | IsField(n, i, field) :: FieldChild(n, field) == Some(n.children[i].node)
  {
    FieldFromIs(n, 0, field);
    assert n.children[0..] == n.children;
  }

  lemma FieldTextIs(n: Node, field: string, text: string)
    ensures FieldText(n, field, text) <==> ChildText(n, field) == Some(text)
  {
    FieldChildIs(n, field);
  }

  lemma {:induction false} TrimStartOf(a: string, text: string)
    requires AllSpace(a)
    ensures TrimStart(a + text) == TrimStart(text)
  {
    if a == [] {
      assert a + text == text;
    } else {
      TrimStartOf(a[1..], text);
      assert (a + text)[1..] == a[1..] + text;
    }
  }

  lemma {:induction false} TrimEndOf(text: string, b: string)
    requires AllSpace(b)
    ensures TrimEnd(text + b) == TrimEnd(text)
  {
    if b == [] {
      assert text + b == text;
    } else {
      var init := b[..|b| - 1];
      TrimEndOf(text, init);
      assert (text + b)[..|text + b| - 1] == text + init;
    }
  }

  lemma {:induction false} TrimStartSplits(text: string) returns (a: string)
    ensures AllSpace(a) && text == a + TrimStart(text)
    ensures TrimStart(text) != [] ==> !IsSpace(TrimStart(text)[0])
  {
    if text != [] && IsSpace(text[0]) {
      var rest := TrimStartSplits(text[1..]);
      a := [text[0]] + rest;
    } else {
      a := [];
    }
  }

  lemma {:induction false} TrimEndSplits(text: string) returns (b: string)
    ensures AllSpace(b) && text == TrimEnd(text) + b
    ensures TrimEnd(text) != [] ==> !IsSpace(TrimEnd(text)[|TrimEnd(text)| - 1]) && TrimEnd(text)[0] == text[0]
  {
    if text != [] && IsSpace(text[|text| - 1]) {
      var rest := TrimEndSplits(text[..|text| - 1]);
      b := rest + [text[|text| - 1]];
    } else {
      b := [];
    }
  }

  /** Trimming finds the inner text, and there is only one. */
  lemma TrimIs(text: string, inner: string)
    ensures Trimmed(text, inner) <==> Trim(text) == inner
  {
    if Trimmed(text, inner) {
      var a, b :| text == a + inner + b && AllSpace(a) && AllSpace(b);
      assert text == a + (inner + b);
      TrimStartOf(a, inner + b);
      if inner == [] {
        assert inner + b == b && b + [] == b;
        TrimStartOf(b, []);
      } else {
        assert (inner + b)[0] == inner[0];
        TrimEndOf(inner, b);
      }
    }
    if Trim(text) == inner {
      var a := TrimStartSplits(text);
      var b := TrimEndSplits(TrimStart(text));
      assert text == a + (inner + b) == a + inner + b;
    }
  }

  lemma WordsAgree(c: char, name: string)
    ensures InWord(c) <==> IsNamePart(c)
    ensures ComponentWord(name) <==> IsComponentName(name)
  {
    if ComponentWord(name) {
      forall d | d in name ensures IsNamePart(d) {
        var i :| 0 <= i < |name| && name[i] == d;
      }
    }
    if IsComponentName(name) {
      forall i | 0 <= i < |name| ensures InWord(name[i]) {
        assert name[i] in name;
      }
    }
  }

  lemma {:induction false} NameRestIs(text: string)
    ensures NameRest(text) <= text && forall i | 0 <= i < |NameRest(text)| :: IsNamePart(NameRest(text)[i])
    ensures |NameRest(text)| < |text| ==> !IsNamePart(text[|NameRest(text)|])
  {
    if text != [] && IsNamePart(text[0]) {
      NameRestIs(text[1..]);
    }
  }

  /** The rest of a name is as long as the name parts go. */
  lemma {:induction false} NameRestLength(text: string, n: nat)
    requires n <= |text| && (forall i | 0 <= i < n :: IsNamePart(text[i])) && (n < |text| ==> !IsNamePart(text[n]))
    ensures NameRest(text) == text[..n]
  {
    if n > 0 {
      NameRestLength(text[1..], n - 1);
      assert text[..n] == [text[0]] + text[1..][..n - 1];
    }
  }

  /** A trimmed text that starts with the decorator's word. */
  predicate StartsBuilder(t: string) { |t| >= 8 && t[..8] == "@Builder" && (|t| == 8 || !InWord(t[8])) }

  lemma BuilderWord(t: string)
    requires StartsBuilder(t)
    ensures t[0] == '@' && NamePrefix(t[1..]) == "Builder"
  {
    var rest := t[1..];
    assert t[..8] == ['@'] + "Builder";
    assert t[0] == '@' && rest[..7] == t[..8][1..] == "Builder" && rest[0] == 'B';
    assert rest[1..][..6] == rest[..7][1..] == "uilder";
    forall i | 0 <= i < 6 ensures IsNamePart(rest[1..][i]) {
      assert rest[1..][i] == "uilder"[i];
    }
    if |t| > 8 {
      WordsAgree(t[8], []);
      assert rest[1..][6] == t[8];
    }
    NameRestLength(rest[1..], 6);
    assert NamePrefix(rest) == ['B'] + "uilder";
  }

  lemma BuilderIs(text: string, t: string)
    requires Trim(text) == t
    ensures DecoratorName(text) == "@Builder" <==> StartsBuilder(t)
  {
    if StartsBuilder(t) {
      BuilderWord(t);
      assert "@" + "Builder" == "@Builder";
    }
    if DecoratorName(text) == "@Builder" {
      if t == "@Builder" {
      } else {
        NameOfBuilder(t);
      }
    }
  }

  lemma NameOfBuilder(t: string)
    requires t != [] && t[0] == '@' && NamePrefix(t[1..]) != [] && "@" + NamePrefix(t[1..]) == "@Builder"
    ensures StartsBuilder(t)
  {
    var rest := t[1..];
    assert NamePrefix(rest) == ("@" + NamePrefix(rest))[1..] == "@Builder"[1..];
    NameRestIs(rest[1..]);
    var word := NamePrefix(rest);
    assert |word| == 7 && word == rest[..7];
    assert t[..8] == ['@'] + rest[..7] == "@" + word;
    if |t| > 8 {
      assert rest[1..][|NameRest(rest[1..])|] == t[8];
      WordsAgree(t[8], []);
    }
  }

  lemma SaysBuilderIs(n: Node)
    ensures SaysBuilder(n) <==> IsDecorator(n, "@Builder")
  {
    TrimIs(n.text, Trim(n.text));
    BuilderIs(n.text, Trim(n.text));
    if SaysBuilder(n) {
      var t :| Trimmed(n.text, t) && |t| >= 8 && t[..8] == "@Builder" && (|t| == 8 || !InWord(t[8]));
      TrimIs(n.text, t);
    }
  }

  /** One step back over the siblings. */
  lemma MarkedBeforeStep(marked: Node -> bool, passed: Node -> bool, siblings: seq<Child>, index: nat)
    requires 0 < index
    ensures HasMarkedBefore(marked, passed, siblings, index) <==>
      if index > |siblings| || !siblings[index - 1].node.named then HasMarkedBefore(marked, passed, siblings, index - 1)
      else marked(siblings[index - 1].node)
           || (passed(siblings[index - 1].node) && HasMarkedBefore(marked, passed, siblings, index - 1))
  {
    if HasMarkedBefore(marked, passed, siblings, index) {
      var j: nat :| MarkedBefore(marked, passed, siblings, j, index);
      assert j < index - 1 ==> MarkedBefore(marked, passed, siblings, j, index - 1);
    }
    if HasMarkedBefore(marked, passed, siblings, index - 1) {
      var j: nat :| MarkedBefore(marked, passed, siblings, j, index - 1);
      assert index > |siblings| || !siblings[index - 1].node.named || passed(siblings[index - 1].node) ==>
        MarkedBefore(marked, passed, siblings, j, index);
    }
    if index <= |siblings| && siblings[index - 1].node.named && marked(siblings[index - 1].node) {
      assert MarkedBefore(marked, passed, siblings, index - 1, index);
    }
  }

  /** The backward scan, for any agreeing marks. */
  lemma {:induction false} DecoratedBeforeIs(marked: Node -> bool, passed: Node -> bool, c: Cursor, index: nat)
    requires c.above != []
    requires forall n :: marked(n) <==> IsDecorator(n, "@Builder")
    requires forall n :: passed(n) <==> IsDecoration(n)
    ensures DecoratedBefore(c, index, "@Builder") <==> HasMarkedBefore(marked, passed, Up(c).node.children, index)
    decreases index
  {
    if index > 0 {
      DecoratedBeforeIs(marked, passed, c, index - 1);
      MarkedBeforeStep(marked, passed, Up(c).node.children, index);
    }
  }

  lemma DecoratedIs(c: Cursor)
    ensures Decorated(c) <==> HasDecorator(c, "@Builder")
  {
    forall i | 0 <= i < |c.node.children| ensures SaysBuilder(c.node.children[i].node) <==> IsDecorator(c.node.children[i].node, "@Builder") {
      SaysBuilderIs(c.node.children[i].node);
    }
    if c.above != [] {
      forall n ensures SaysBuilder(n) <==> IsDecorator(n, "@Builder") {
        SaysBuilderIs(n);
      }
      DecoratedBeforeIs(SaysBuilder, IsDecoration, c, Up(c).index);
    }
  }
}
