/** `build_api_shadow_index`: which text ranges hide an imported or global API root.
    The positions the regular expressions match are inputs. */
module ShadowIndex {
  import opened Sorting
  import opened Delimiters

  /** name(params) { ... }: `brace` is the offset of its opening brace. */
  datatype Callable = Callable(controlFlow: bool, propertyAccess: bool, brace: nat, names: set<string>)

  /** (params) => ...: a braced body, or an expression range. */
  datatype Arrow = Arrow(brace: Option<nat>, expression: Span, names: set<string>)

  datatype LocalKind = Let | Const | Var

  datatype Local = Local(kind: LocalKind, name: string, offset: nat)

  /** A `for` header and the scope of its loop. */
  datatype Loop = Loop(start: nat, end: nat, scope: Span)

  datatype Found = Found(callables: seq<Callable>, arrows: seq<Arrow>, locals: seq<Local>, loops: seq<Loop>)

  /** One declaration's names with the scope they are bound in. */
  datatype Binding = Binding(names: set<string>, scope: Span)

  datatype Index = Index(blocked: set<string>, bindings: map<string, seq<Span>>) {
    predicate IsShadowed(name: string, offset: nat) {
      name in blocked
      || (name in bindings && exists i | 0 <= i < |bindings[name]| :: bindings[name][i].0 <= offset <= bindings[name][i].1)
    }
  }

  // ------------------------------------------------------------ the scopes

  function RootScope(source: string): Span {
    (0, if |source| == 0 then 0 else |source| - 1)
  }

  predicate Holds(scope: Span, point: nat) { scope.0 < point < scope.1 }

  function Width(scope: Span): int { scope.1 - scope.0 }

  function Candidates(scopes: set<Span>, point: nat): set<Span> {
    set scope | scope in scopes && Holds(scope, point)
  }

  /** What `min(..., key=width, default=root)` promises for any iteration order. */
  predicate IsNearest(chosen: Span, scopes: set<Span>, point: nat, root: Span) {
    var found := Candidates(scopes, point);
    if found == {} then chosen == root
    else chosen in found && forall other | other in found :: Width(chosen) <= Width(other)
  }

  /** Any two scopes miss each other or one lies in the other. */
  ghost predicate Nested(scopes: set<Span>) {
    forall a, b | a in scopes && b in scopes :: Apart(a, b) || Inside(a, b) || Inside(b, a)
  }

  /** The nearest of nested scopes is the innermost one: it lies in every other
      candidate, so it does not depend on the order the scopes are tried in. */
  lemma NearestIsInnermost(scopes: set<Span>, point: nat, root: Span, chosen: Span, other: Span)
    requires Nested(scopes) && IsNearest(chosen, scopes, point, root)
    ensures other in scopes && Holds(other, point) ==> Inside(chosen, other)
    ensures IsNearest(other, scopes, point, root) ==> other == chosen
  {
    if other in scopes && Holds(other, point) {
      assert other in Candidates(scopes, point);
    }
  }

  function PairSpans(pairs: Pairs): set<Span> {
    set s | s in pairs :: pairs[s]
  }

  function BlockScopes(source: string, braces: Pairs): set<Span> {
    {RootScope(source)} + PairSpans(braces)
  }

  lemma BlockScopesNest(source: string, braces: Pairs)
    requires PairsExact(source, '{', '}', braces)
    ensures Nested(BlockScopes(source, braces))
  {
    forall s, t | s in braces && t in braces
      ensures Apart(braces[s], braces[t]) || Inside(braces[s], braces[t]) || Inside(braces[t], braces[s])
    {
      PairsNestOrMiss(source, '{', '}', braces[s], braces[t]);
    }
    forall s | s in braces ensures Inside(braces[s], RootScope(source)) {
      assert Matches(source, '{', '}', braces[s].0, braces[s].1);
    }
  }

  lemma {:induction false} NearestExists(scopes: set<Span>, point: nat, root: Span) returns (chosen: Span)
    ensures IsNearest(chosen, scopes, point, root)
  {
    if scopes == {} {
      chosen := root;
    } else {
      var next :| next in scopes;
      var rest := NearestExists(scopes - {next}, point, root);
      var found, others := Candidates(scopes, point), Candidates(scopes - {next}, point);
      assert found == others + if Holds(next, point) then {next} else {};
      chosen := if Holds(next, point) && (others == {} || Width(next) < Width(rest)) then next else rest;
    }
  }

  ghost function NearestScope(scopes: set<Span>, point: nat, root: Span): (chosen: Span)
    ensures IsNearest(chosen, scopes, point, root)
  {
    assert exists c :: IsNearest(c, scopes, point, root) by {
      var c := NearestExists(scopes, point, root);
    }
    var c :| IsNearest(c, scopes, point, root);
    c
  }

  /** `min` over the scopes around a point, taken in whatever order they come. */
  method Nearest(scopes: set<Span>, point: nat, root: Span) returns (chosen: Span)
    ensures IsNearest(chosen, scopes, point, root)
  {
    var rest := scopes;
    var found := false;
    chosen := root;
    while rest != {}
      invariant rest <= scopes
      invariant !found ==> chosen == root && Candidates(scopes - rest, point) == {}
      invariant found ==> chosen in Candidates(scopes - rest, point)
      invariant found ==> forall other | other in Candidates(scopes - rest, point) :: Width(chosen) <= Width(other)
      decreases |rest|
    {
      var scope :| scope in rest;
      assert scopes - (rest - {scope}) == scopes - rest + {scope};
      rest := rest - {scope};
      if Holds(scope, point) && (!found || Width(scope) < Width(chosen)) {
        chosen, found := scope, true;
      }
    }
    assert scopes - {} == scopes;
  }

  // ---------------------------------------------------------- the bindings

  predicate IsCallable(c: Callable, braces: Pairs) {
    !c.controlFlow && !c.propertyAccess && c.brace in braces
  }

  function CallableScopes(found: Found, braces: Pairs): set<Span> {
    (set c | c in found.callables && IsCallable(c, braces) :: braces[c.brace])
    + (set a | a in found.arrows && a.brace.Some? && a.brace.value in braces :: braces[a.brace.value])
  }

  function CallableBinding(braces: Pairs): Callable -> seq<Binding> {
    (c: Callable) => if IsCallable(c, braces) then [Binding(c.names, braces[c.brace])] else []
  }

  function ArrowBinding(braces: Pairs): Arrow -> seq<Binding> {
    (a: Arrow) =>
      if a.brace.None? then [Binding(a.names, a.expression)]
      else if a.brace.value in braces then [Binding(a.names, braces[a.brace.value])] else []
  }

  /** The first narrowest loop whose header holds the point. */
  function LoopScope(loops: seq<Loop>, point: nat): Option<Span> {
    if loops == [] then None
    else
      var before := LoopScope(loops[..|loops| - 1], point);
      var last := loops[|loops| - 1];
      if last.start < point < last.end && (before.None? || Width(last.scope) < Width(before.value))
      then Some(last.scope) else before
  }

  ghost function LocalScope(source: string, found: Found, braces: Pairs, l: Local): Span {
    if l.kind == Var then NearestScope(CallableScopes(found, braces), l.offset, RootScope(source))
    else match LoopScope(found.loops, l.offset)
      case Some(scope) => scope
      case None => NearestScope(BlockScopes(source, braces), l.offset, RootScope(source))
  }

  ghost function LocalBinding(source: string, found: Found, braces: Pairs): Local -> seq<Binding> {
    (l: Local) => [Binding({l.name}, LocalScope(source, found, braces, l))]
  }

  /** All declarations in the order the index meets them. */
  ghost function Declared(source: string, found: Found, braces: Pairs): seq<Binding> {
    Flat(CallableBinding(braces), found.callables) + Flat(ArrowBinding(braces), found.arrows)
    + Flat(LocalBinding(source, found, braces), found.locals)
  }

  function RangesOf(name: string, declared: seq<Binding>): seq<Span> {
    if declared == [] then []
    else
      var last := declared[|declared| - 1];
      RangesOf(name, declared[..|declared| - 1]) + if name in last.names then [last.scope] else []
  }

  lemma RangesSnoc(name: string, declared: seq<Binding>, b: Binding)
    ensures RangesOf(name, declared + [b]) == RangesOf(name, declared) + if name in b.names then [b.scope] else []
  {
    assert (declared + [b])[..|declared|] == declared;
  }

  lemma {:induction false} RangesMember(name: string, declared: seq<Binding>, range: Span)
    ensures range in RangesOf(name, declared) <==> exists b :: b in declared && name in b.names && b.scope == range
  {
    if declared != [] {
      RangesMember(name, declared[..|declared| - 1], range);
      assert forall b :: b in declared <==> b in declared[..|declared| - 1] || b == declared[|declared| - 1];
    }
  }

  /** The dictionary lists, per name, the ranges of the declarations so far. */
  ghost predicate Lists(bindings: map<string, seq<Span>>, declared: seq<Binding>) {
    forall name :: (if name in bindings then bindings[name] else []) == RangesOf(name, declared)
  }

  /** As before, and `scope` at the end of the ranges of every name in `done`. */
  ghost predicate Appended(bindings: map<string, seq<Span>>, declared: seq<Binding>, done: set<string>, scope: Span) {
    forall name :: (if name in bindings then bindings[name] else []) == RangesOf(name, declared) + if name in done then [scope] else []
  }

  lemma AppendOne(bindings: map<string, seq<Span>>, declared: seq<Binding>, done: set<string>, scope: Span, name: string)
    requires Appended(bindings, declared, done, scope) && name !in done
    ensures Appended(bindings[name := (if name in bindings then bindings[name] else []) + [scope]], declared, done + {name}, scope)
  {
  }

  lemma AppendAll(bindings: map<string, seq<Span>>, declared: seq<Binding>, b: Binding)
    requires Appended(bindings, declared, b.names, b.scope)
    ensures Lists(bindings, declared + [b])
  {
    forall name ensures (if name in bindings then bindings[name] else []) == RangesOf(name, declared + [b]) {
      RangesSnoc(name, declared, b);
    }
  }

  lemma AppendNone(bindings: map<string, seq<Span>>, declared: seq<Binding>, scope: Span)
    requires Lists(bindings, declared)
    ensures Appended(bindings, declared, {}, scope)
  {
  }

  /** `setdefault(name, []).append(scope)`. */
  method BindName(bindings: map<string, seq<Span>>, name: string, scope: Span, ghost declared: seq<Binding>, ghost done: set<string>)
    returns (r: map<string, seq<Span>>)
    requires Appended(bindings, declared, done, scope) && name !in done
    ensures Appended(r, declared, done + {name}, scope)
  {
    AppendOne(bindings, declared, done, scope, name);
    r := bindings[name := (if name in bindings then bindings[name] else []) + [scope]];
  }

  /** The same for every name of one declaration. */
  method Bind(bindings: map<string, seq<Span>>, b: Binding, ghost declared: seq<Binding>) returns (r: map<string, seq<Span>>)
    requires Lists(bindings, declared)
    ensures Lists(r, declared + [b])
  {
    r := bindings;
    var rest := b.names;
    ghost var done: set<string> := {};
    AppendNone(r, declared, b.scope);
    while rest != {}
      invariant done !! rest && done + rest == b.names
      invariant Appended(r, declared, done, b.scope)
      decreases |rest|
    {
      var name :| name in rest;
      r := BindName(r, name, b.scope, declared, done);
      rest, done := rest - {name}, done + {name};
    }
    assert done == b.names;
    AppendAll(r, declared, b);
  }

  method BindAll(bindings: map<string, seq<Span>>, more: seq<Binding>, ghost declared: seq<Binding>) returns (r: map<string, seq<Span>>)
    requires Lists(bindings, declared)
    ensures Lists(r, declared + more)
  {
    r := bindings;
    assert declared + more[..0] == declared;
    for n := 0 to |more|
      invariant Lists(r, declared + more[..n])
    {
      r := Bind(r, more[n], declared + more[..n]);
      assert declared + more[..n] + [more[n]] == declared + more[..n + 1];
    }
    assert more[..|more|] == more;
  }

  lemma CallableScopesNest(source: string, found: Found, braces: Pairs)
    requires PairsExact(source, '{', '}', braces)
    ensures Nested(CallableScopes(found, braces))
  {
    BlockScopesNest(source, braces);
    assert CallableScopes(found, braces) <= BlockScopes(source, braces);
  }

  /** The scope of one local declaration. */
  method ScopeOfLocal(source: string, found: Found, braces: Pairs, l: Local) returns (scope: Span)
    requires PairsExact(source, '{', '}', braces)
    ensures scope == LocalScope(source, found, braces, l)
  {
    BlockScopesNest(source, braces);
    CallableScopesNest(source, found, braces);
    var root := RootScope(source);
    scope := Nearest(BlockScopes(source, braces), l.offset, root);
    NearestIsInnermost(BlockScopes(source, braces), l.offset, root,
                       NearestScope(BlockScopes(source, braces), l.offset, root), scope);
    if l.kind == Var {
      scope := Nearest(CallableScopes(found, braces), l.offset, root);
      NearestIsInnermost(CallableScopes(found, braces), l.offset, root,
                         NearestScope(CallableScopes(found, braces), l.offset, root), scope);
    } else {
      var loop := LoopScope(found.loops, l.offset);
      if loop.Some? {
        scope := loop.value;
      }
    }
  }

  lemma LocalsSplit(source: string, found: Found, braces: Pairs, n: nat)
    requires n < |found.locals|
    ensures var f := LocalBinding(source, found, braces);
      Flat(f, found.locals[..n + 1]) == Flat(f, found.locals[..n]) + [Binding({found.locals[n].name}, LocalScope(source, found, braces, found.locals[n]))]
  {
    FlatAt(LocalBinding(source, found, braces), found.locals, n);
  }

  /** The loop over the local declarations. */
  method BindLocals(source: string, found: Found, braces: Pairs, bindings: map<string, seq<Span>>, ghost declared: seq<Binding>)
    returns (r: map<string, seq<Span>>)
    requires PairsExact(source, '{', '}', braces)
    requires Lists(bindings, declared)
    ensures Lists(r, declared + Flat(LocalBinding(source, found, braces), found.locals))
  {
    ghost var f := LocalBinding(source, found, braces);
    r := bindings;
    assert Flat(f, found.locals[..0]) == [];
    assert declared + [] == declared;
    for n := 0 to |found.locals|
      invariant Lists(r, declared + Flat(f, found.locals[..n]))
    {
      var l := found.locals[n];
      var scope := ScopeOfLocal(source, found, braces, l);
      r := Bind(r, Binding({l.name}, scope), declared + Flat(f, found.locals[..n]));
      LocalsSplit(source, found, braces, n);
      assert declared + Flat(f, found.locals[..n]) + [Binding({l.name}, scope)] == declared + Flat(f, found.locals[..n + 1]);
    }
    assert found.locals[..|found.locals|] == found.locals;
  }

  /** `build_api_shadow_index`, from the matches to the index. */
  method BuildShadowIndex(source: string, found: Found, imported: set<string>, sdk: set<string>)
    returns (index: Index, ghost braces: Pairs)
    ensures PairsExact(source, '{', '}', braces)
    ensures index.blocked == imported - sdk
    ensures Lists(index.bindings, Declared(source, found, braces))
    ensures forall name, offset: nat ::
      index.IsShadowed(name, offset) <==> HiddenAt(source, found, imported, sdk, name, offset)
  {
    var pairs := DelimiterPairs(source, '{', '}');
    braces := pairs;
    var callables := Flat(CallableBinding(pairs), found.callables);
    var arrows := Flat(ArrowBinding(pairs), found.arrows);
    var bindings := BindAll(map[], callables, []);
    assert [] + callables == callables;
    bindings := BindAll(bindings, arrows, callables);
    bindings := BindLocals(source, found, pairs, bindings, callables + arrows);
    index := Index(imported - sdk, bindings);
    forall name, offset: nat ensures index.IsShadowed(name, offset) <==> HiddenAt(source, found, imported, sdk, name, offset) {
      ShadowedIffHidden(source, found, braces, imported, sdk, index, name, offset);
    }
  }

  // --------------------------------------------------------------- theorems

  predicate Covers(scope: Span, offset: nat) { scope.0 <= offset <= scope.1 }

  /** A name is shadowed at an offset exactly when it is a blocked import or some
      declaration binds it in a scope around the offset. */
  lemma ShadowedIff(index: Index, declared: seq<Binding>, name: string, offset: nat)
    requires Lists(index.bindings, declared)
    ensures index.IsShadowed(name, offset) <==>
      name in index.blocked || exists b :: b in declared && name in b.names && Covers(b.scope, offset)
  {
    var ranges := RangesOf(name, declared);
    assert (if name in index.bindings then index.bindings[name] else []) == ranges;
    if b :| b in declared && name in b.names && Covers(b.scope, offset) {
      RangesMember(name, declared, b.scope);
      var i :| 0 <= i < |ranges| && ranges[i] == b.scope;
    }
    if i :| 0 <= i < |ranges| && Covers(ranges[i], offset) {
      RangesMember(name, declared, ranges[i]);
    }
  }

  /** A `let` or `const` outside any loop header lives in the innermost block around
      it: that block lies inside every other block around the declaration. */
  lemma LetScopeIsInnermost(source: string, found: Found, braces: Pairs, l: Local, block: Span)
    requires PairsExact(source, '{', '}', braces)
    requires l.kind != Var && LoopScope(found.loops, l.offset).None?
    requires block in BlockScopes(source, braces) && Holds(block, l.offset)
    ensures var scope := LocalScope(source, found, braces, l);
      scope in BlockScopes(source, braces) && Holds(scope, l.offset) && Inside(scope, block)
  {
    BlockScopesNest(source, braces);
    var root := RootScope(source);
    assert block in Candidates(BlockScopes(source, braces), l.offset);
    NearestIsInnermost(BlockScopes(source, braces), l.offset, root, LocalScope(source, found, braces, l), block);
  }

  /** A `var` lives in the innermost function body around it. */
  lemma VarScopeIsInnermost(source: string, found: Found, braces: Pairs, l: Local, body: Span)
    requires PairsExact(source, '{', '}', braces) && l.kind == Var
    requires body in CallableScopes(found, braces) && Holds(body, l.offset)
    ensures var scope := LocalScope(source, found, braces, l);
      scope in CallableScopes(found, braces) && Holds(scope, l.offset) && Inside(scope, body)
  {
    CallableScopesNest(source, found, braces);
    var root := RootScope(source);
    assert body in Candidates(CallableScopes(found, braces), l.offset);
    NearestIsInnermost(CallableScopes(found, braces), l.offset, root, LocalScope(source, found, braces, l), body);
  }

  /** A local binding shadows its name at every offset of its scope, before the
      declaration as well as after it. */
  lemma LocalShadowsItsScope(source: string, found: Found, braces: Pairs, index: Index, l: Local, offset: nat)
    requires Lists(index.bindings, Declared(source, found, braces)) && l in found.locals
    requires Covers(LocalScope(source, found, braces, l), offset)
    ensures index.IsShadowed(l.name, offset)
  {
    var f := LocalBinding(source, found, braces);
    var b := Binding({l.name}, LocalScope(source, found, braces, l));
    assert b in f(l);
    FlatMember(f, found.locals, b);
    assert b in Declared(source, found, braces);
    ShadowedIff(index, Declared(source, found, braces), l.name, offset);
  }

  // ------------------------------------- shadowing, from the text and matches

  predicate Covering(s: nat, e: nat, offset: nat) { s <= offset <= e }

  /** A callable that is neither control flow nor a property access names it, and the
      match of its brace encloses the offset. */
  ghost predicate ParameterAt(source: string, c: Callable, name: string, offset: nat) {
    && !c.controlFlow && !c.propertyAccess && name in c.names
    && exists e: nat :: Matches(source, '{', '}', c.brace, e) && Covering(c.brace, e, offset)
  }

  /** An arrow names it, and its braced or expression body encloses the offset. */
  ghost predicate ArrowParameterAt(source: string, a: Arrow, name: string, offset: nat) {
    && name in a.names
    && match a.brace
       case None => Covering(a.expression.0, a.expression.1, offset)
       case Some(s) => exists e: nat :: Matches(source, '{', '}', s, e) && Covering(s, e, offset)
  }

  /** The braces of a function body: of a callable or of an arrow. */
  ghost predicate IsBody(source: string, found: Found, s: nat, e: nat) {
    && Matches(source, '{', '}', s, e)
    && ((exists c :: c in found.callables && c.brace == s && !c.controlFlow && !c.propertyAccess)
        || (exists a :: a in found.arrows && a.brace == Some(s)))
  }

  /** The loops before the given one with a header around the point are wider, the
      later ones not narrower. */
  ghost predicate NearestLoop(loops: seq<Loop>, i: nat, point: nat) {
    && i < |loops| && loops[i].start < point < loops[i].end
    && (forall j | 0 <= j < |loops| && loops[j].start < point < loops[j].end ::
          if j < i then Width(loops[i].scope) < Width(loops[j].scope) else Width(loops[i].scope) <= Width(loops[j].scope))
  }

  /** The whole source, when nothing narrower is around. */
  predicate InSource(source: string, offset: nat) { offset == 0 || offset < |source| }

  /** The scope of a `var` encloses the offset: the innermost function body around the
      declaration, or the source. */
  ghost predicate VarAt(source: string, found: Found, point: nat, offset: nat) {
    || (exists s: nat, e: nat ::
          && IsBody(source, found, s, e) && s < point < e && Covering(s, e, offset)
          && forall t: nat, f: nat | IsBody(source, found, t, f) && t < point < f :: t <= s)
    || ((forall s: nat, e: nat | IsBody(source, found, s, e) :: !(s < point < e)) && InSource(source, offset))
  }

  /** The scope of a `let` or `const` outside loop headers: the innermost braces
      around the declaration, or the source. */
  ghost predicate BlockAt(source: string, point: nat, offset: nat) {
    || (exists s: nat, e: nat ::
          && Matches(source, '{', '}', s, e) && s < point < e && Covering(s, e, offset)
          && forall t: nat, f: nat | Matches(source, '{', '}', t, f) && t < point < f :: t <= s)
    || ((forall s: nat, e: nat | Matches(source, '{', '}', s, e) :: !(s < point < e)) && InSource(source, offset))
  }

  ghost predicate LoopAt(loops: seq<Loop>, point: nat, offset: nat) {
    exists i: nat :: NearestLoop(loops, i, point) && Covering(loops[i].scope.0, loops[i].scope.1, offset)
  }

  predicate InHeader(loops: seq<Loop>, point: nat) {
    exists i | 0 <= i < |loops| :: loops[i].start < point < loops[i].end
  }

  /** A local names it, and the scope of its kind encloses the offset. */
  ghost predicate LocalAt(source: string, found: Found, l: Local, name: string, offset: nat) {
    && l.name == name
    && if l.kind == Var then VarAt(source, found, l.offset, offset)
       else if InHeader(found.loops, l.offset) then LoopAt(found.loops, l.offset, offset)
       else BlockAt(source, l.offset, offset)
  }

  /** A name is hidden at an offset by an import without SDK binding, a parameter, an
      arrow's parameter or a local. */
  ghost predicate HiddenAt(source: string, found: Found, imported: set<string>, sdk: set<string>, name: string, offset: nat) {
    || (name in imported && name !in sdk)
    || (exists c :: c in found.callables && ParameterAt(source, c, name, offset))
    || (exists a :: a in found.arrows && ArrowParameterAt(source, a, name, offset))
    || (exists l :: l in found.locals && LocalAt(source, found, l, name, offset))
  }

  ghost predicate BindsAt(declared: seq<Binding>, name: string, offset: nat) {
    exists b :: b in declared && name in b.names && Covers(b.scope, offset)
  }

  lemma PairOf(source: string, braces: Pairs, s: nat, e: nat)
    requires PairsExact(source, '{', '}', braces)
    ensures Matches(source, '{', '}', s, e) <==> s in braces && braces[s] == (s, e)
  {
  }

  lemma CallablesBindIff(source: string, found: Found, braces: Pairs, name: string, offset: nat)
    requires PairsExact(source, '{', '}', braces)
    ensures BindsAt(Flat(CallableBinding(braces), found.callables), name, offset)
       <==> exists c :: c in found.callables && ParameterAt(source, c, name, offset)
  {
    var f := CallableBinding(braces);
    if b: Binding :| b in Flat(f, found.callables) && name in b.names && Covers(b.scope, offset) {
      FlatMember(f, found.callables, b);
      var c :| c in found.callables && b in f(c);
      PairOf(source, braces, c.brace, braces[c.brace].1);
      assert ParameterAt(source, c, name, offset);
    }
    if c :| c in found.callables && ParameterAt(source, c, name, offset) {
      var e: nat :| Matches(source, '{', '}', c.brace, e) && Covering(c.brace, e, offset);
      PairOf(source, braces, c.brace, e);
      var b := Binding(c.names, braces[c.brace]);
      assert b in f(c);
      FlatMember(f, found.callables, b);
    }
  }

  lemma ArrowsBindIff(source: string, found: Found, braces: Pairs, name: string, offset: nat)
    requires PairsExact(source, '{', '}', braces)
    ensures BindsAt(Flat(ArrowBinding(braces), found.arrows), name, offset)
       <==> exists a :: a in found.arrows && ArrowParameterAt(source, a, name, offset)
  {
    var f := ArrowBinding(braces);
    if b: Binding :| b in Flat(f, found.arrows) && name in b.names && Covers(b.scope, offset) {
      FlatMember(f, found.arrows, b);
      var a :| a in found.arrows && b in f(a);
      if a.brace.Some? {
        PairOf(source, braces, a.brace.value, braces[a.brace.value].1);
      }
      assert ArrowParameterAt(source, a, name, offset);
    }
    if a :| a in found.arrows && ArrowParameterAt(source, a, name, offset) {
      var b := Binding(a.names, a.expression);
      if a.brace.Some? {
        var e: nat :| Matches(source, '{', '}', a.brace.value, e) && Covering(a.brace.value, e, offset);
        PairOf(source, braces, a.brace.value, e);
        b := Binding(a.names, braces[a.brace.value]);
      }
      assert b in f(a);
      FlatMember(f, found.arrows, b);
    }
  }

  /** A later loop that is not narrower changes nothing. */
  lemma NearestStays(loops: seq<Loop>, i: nat, last: Loop, point: nat)
    requires NearestLoop(loops, i, point)
    requires last.start < point < last.end ==> Width(loops[i].scope) <= Width(last.scope)
    ensures NearestLoop(loops + [last], i, point)
  {
  }

  /** A narrower later loop is the nearest. */
  lemma NearestIsLast(loops: seq<Loop>, i: nat, last: Loop, point: nat)
    requires NearestLoop(loops, i, point) && last.start < point < last.end && Width(last.scope) < Width(loops[i].scope)
    ensures NearestLoop(loops + [last], |loops|, point)
  {
  }

  lemma FirstNearest(loops: seq<Loop>, last: Loop, point: nat)
    requires !InHeader(loops, point) && last.start < point < last.end
    ensures NearestLoop(loops + [last], |loops|, point)
  {
  }

  lemma {:induction false} LoopScopeIs(loops: seq<Loop>, point: nat)
    ensures LoopScope(loops, point).Some? <==> InHeader(loops, point)
    ensures LoopScope(loops, point).Some? ==>
      exists i: nat :: NearestLoop(loops, i, point) && loops[i].scope == LoopScope(loops, point).value
  {
    if loops != [] {
      var init, last := loops[..|loops| - 1], loops[|loops| - 1];
      LoopScopeIs(init, point);
      assert loops == init + [last];
      if LoopScope(init, point).None? {
        if last.start < point < last.end {
          FirstNearest(init, last, point);
        }
      } else {
        var i: nat :| NearestLoop(init, i, point) && init[i].scope == LoopScope(init, point).value;
        if last.start < point < last.end && Width(last.scope) < Width(init[i].scope) {
          NearestIsLast(init, i, last, point);
        } else {
          NearestStays(init, i, last, point);
        }
      }
    }
  }

  lemma OneNearestLoop(loops: seq<Loop>, i: nat, j: nat, point: nat)
    requires NearestLoop(loops, i, point) && NearestLoop(loops, j, point)
    ensures i == j
  {
  }

  lemma LoopAtIff(loops: seq<Loop>, point: nat, offset: nat)
    requires LoopScope(loops, point).Some?
    ensures LoopAt(loops, point, offset) <==> Covers(LoopScope(loops, point).value, offset)
  {
    LoopScopeIs(loops, point);
    var i: nat :| NearestLoop(loops, i, point) && loops[i].scope == LoopScope(loops, point).value;
    forall j: nat | NearestLoop(loops, j, point) ensures j == i {
      OneNearestLoop(loops, i, j, point);
    }
  }

  lemma BodiesAreCallableScopes(source: string, found: Found, braces: Pairs, s: nat, e: nat)
    requires PairsExact(source, '{', '}', braces)
    ensures IsBody(source, found, s, e) <==> (s, e) in CallableScopes(found, braces)
  {
    PairOf(source, braces, s, e);
  }

  lemma VarAtIff(source: string, found: Found, braces: Pairs, point: nat, offset: nat)
    requires PairsExact(source, '{', '}', braces)
    ensures VarAt(source, found, point, offset)
       <==> Covers(NearestScope(CallableScopes(found, braces), point, RootScope(source)), offset)
  {
    var scopes, root := CallableScopes(found, braces), RootScope(source);
    CallableScopesNest(source, found, braces);
    var near := NearestScope(scopes, point, root);
    forall s: nat, e: nat ensures IsBody(source, found, s, e) <==> (s, e) in scopes {
      BodiesAreCallableScopes(source, found, braces, s, e);
    }
    if Candidates(scopes, point) == {} {
      forall s: nat, e: nat | IsBody(source, found, s, e) ensures !(s < point < e) {
        assert (s, e) in scopes && (s, e) !in Candidates(scopes, point);
      }
    } else {
      assert near in scopes && Holds(near, point) && IsBody(source, found, near.0, near.1);
      forall t: nat, f: nat | IsBody(source, found, t, f) && t < point < f ensures t <= near.0 {
        NearestIsInnermost(scopes, point, root, near, (t, f));
      }
      forall s: nat, e: nat | IsBody(source, found, s, e) && s < point < e && near.0 <= s ensures (s, e) == near {
        PairOf(source, braces, s, e);
        NearestIsInnermost(scopes, point, root, near, (s, e));
        BodyStart(source, found, braces, near);
      }
    }
  }

  lemma BodyStart(source: string, found: Found, braces: Pairs, scope: Span)
    requires PairsExact(source, '{', '}', braces) && scope in CallableScopes(found, braces)
    ensures scope.0 in braces && braces[scope.0] == scope
  {
  }

  lemma BlockAtIff(source: string, braces: Pairs, point: nat, offset: nat)
    requires PairsExact(source, '{', '}', braces)
    ensures BlockAt(source, point, offset)
       <==> Covers(NearestScope(BlockScopes(source, braces), point, RootScope(source)), offset)
  {
    var scopes, root := BlockScopes(source, braces), RootScope(source);
    BlockScopesNest(source, braces);
    var near := NearestScope(scopes, point, root);
    forall s: nat, e: nat ensures Matches(source, '{', '}', s, e) <==> s in braces && braces[s] == (s, e) {
      PairOf(source, braces, s, e);
    }
    forall s: nat, e: nat | Matches(source, '{', '}', s, e) && s < point < e ensures Inside(near, (s, e)) {
      assert (s, e) in scopes;
      NearestIsInnermost(scopes, point, root, near, (s, e));
    }
    forall s: nat, e: nat | Matches(source, '{', '}', s, e) && s < point < e
      ensures near.0 in braces && braces[near.0] == near && Holds(near, point)
    {
      NearPair(source, braces, point, near, s, e);
    }
    if near.0 in braces && braces[near.0] == near && Holds(near, point) {
      assert Matches(source, '{', '}', near.0, near.1);
    } else {
      assert near == root;
    }
  }

  /** With a pair around the point the nearest scope is a pair. */
  lemma NearPair(source: string, braces: Pairs, point: nat, near: Span, s: nat, e: nat)
    requires PairsExact(source, '{', '}', braces)
    requires IsNearest(near, BlockScopes(source, braces), point, RootScope(source))
    requires Matches(source, '{', '}', s, e) && s < point < e
    ensures near.0 in braces && braces[near.0] == near && Holds(near, point)
  {
    PairOf(source, braces, s, e);
    assert braces[s] in Candidates(BlockScopes(source, braces), point);
    if near == RootScope(source) {
      assert Width(near) <= e - s && e < |source|;
    }
  }

  lemma LocalScopeIff(source: string, found: Found, braces: Pairs, l: Local, offset: nat)
    requires PairsExact(source, '{', '}', braces)
    ensures LocalAt(source, found, l, l.name, offset) <==> Covers(LocalScope(source, found, braces, l), offset)
  {
    LoopScopeIs(found.loops, l.offset);
    if l.kind == Var {
      VarAtIff(source, found, braces, l.offset, offset);
    } else if LoopScope(found.loops, l.offset).Some? {
      LoopAtIff(found.loops, l.offset, offset);
    } else {
      BlockAtIff(source, braces, l.offset, offset);
    }
  }

  lemma LocalsBindIff(source: string, found: Found, braces: Pairs, name: string, offset: nat)
    requires PairsExact(source, '{', '}', braces)
    ensures BindsAt(Flat(LocalBinding(source, found, braces), found.locals), name, offset)
       <==> exists l :: l in found.locals && LocalAt(source, found, l, name, offset)
  {
    var f := LocalBinding(source, found, braces);
    if b: Binding :| b in Flat(f, found.locals) && name in b.names && Covers(b.scope, offset) {
      FlatMember(f, found.locals, b);
      var l :| l in found.locals && b in f(l);
      LocalScopeIff(source, found, braces, l, offset);
      assert LocalAt(source, found, l, name, offset);
    }
    if l :| l in found.locals && LocalAt(source, found, l, name, offset) {
      LocalScopeIff(source, found, braces, l, offset);
      var b := Binding({l.name}, LocalScope(source, found, braces, l));
      assert b in f(l);
      FlatMember(f, found.locals, b);
    }
  }

  lemma BindsConcat(a: seq<Binding>, b: seq<Binding>, name: string, offset: nat)
    ensures BindsAt(a + b, name, offset) <==> BindsAt(a, name, offset) || BindsAt(b, name, offset)
  {
    if x: Binding :| x in a && name in x.names && Covers(x.scope, offset) {
      assert x in a + b;
    }
    if x: Binding :| x in b && name in x.names && Covers(x.scope, offset) {
      assert x in a + b;
    }
  }

  /** Shadowing, in terms of the text and what was matched in it. */
  lemma ShadowedIffHidden(source: string, found: Found, braces: Pairs, imported: set<string>, sdk: set<string>,
                          index: Index, name: string, offset: nat)
    requires PairsExact(source, '{', '}', braces)
    requires index.blocked == imported - sdk && Lists(index.bindings, Declared(source, found, braces))
    ensures index.IsShadowed(name, offset) <==> HiddenAt(source, found, imported, sdk, name, offset)
  {
    var callables, arrows := Flat(CallableBinding(braces), found.callables), Flat(ArrowBinding(braces), found.arrows);
    ShadowedIff(index, Declared(source, found, braces), name, offset);
    BindsConcat(callables + arrows, Flat(LocalBinding(source, found, braces), found.locals), name, offset);
    BindsConcat(callables, arrows, name, offset);
    CallablesBindIff(source, found, braces, name, offset);
    ArrowsBindIff(source, found, braces, name, offset);
    LocalsBindIff(source, found, braces, name, offset);
  }

  /** A name that only control-flow heads and property accesses list is hidden nowhere. */
  lemma ControlFlowHidesNothing(source: string, found: Found, imported: set<string>, sdk: set<string>, name: string, offset: nat)
    requires name in imported ==> name in sdk
    requires forall c | c in found.callables && name in c.names :: c.controlFlow || c.propertyAccess
    requires forall a | a in found.arrows :: name !in a.names
    requires forall l | l in found.locals :: l.name != name
    ensures !HiddenAt(source, found, imported, sdk, name, offset)
  {
  }
}
