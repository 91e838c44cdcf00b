/**
 The reference-resolution pass of the VBScript to JavaScript transpiler
 (`ReferenceTransformer`).

 In a table script every name is global. The pass rewrites free names into
 one of the namespaces the generated function receives as parameters, in this
 order: table elements (`__items`), enums (`__enums`), the VBScript standard
 library (`__stdlib`), the global API (`__global`), and finally turns
 `ExecuteGlobal(x)` into `eval(__vbsHelper.transpileInline(x))`.

 Each of the five sub-passes is one full walk of the tree that mirrors
 estraverse's `replace`: pre-order, `enter(node, parent)` is called on every
 present node, the root is its own parent, a node returned by `enter` takes
 the visited node's place and ITS children are walked next, and the children
 of a member expression are visited object first, then property. A parent seen
 by its i-th child already holds its walked children before i.
 */
module Reference {
  import opened Ast

  // The fixed namespace names of the generated code.
  const ITEMS := "__items"
  const ENUMS := "__enums"
  const GLOBAL := "__global"
  const STDLIB := "__stdlib"
  const VBSHELPER := "__vbsHelper"
  const TRANSPILE_INLINE := "transpileInline"
  const EVAL := "eval"
  const EXECUTE_GLOBAL := "executeglobal"

  /**
   The runtime catalogs the pass consults, each a case-insensitive name to
   canonical name lookup supplied by the table and the player.
   */
  datatype Catalogs = Catalogs(
    // Table.getElementApiName
    elementName: string -> Option<string>,
    // itemApis[element]._getPropertyName
    elementProperty: (string, string) -> Option<string>,
    // EnumsApi._getPropertyName
    enumName: string -> Option<string>,
    // EnumsApi[enum]._getPropertyName
    enumValue: (string, string) -> Option<string>,
    // Stdlib._getPropertyName
    stdlibName: string -> Option<string>,
    // whether Stdlib[name] is an object of its own
    stdlibHasEntry: string -> bool,
    // Stdlib[name]._getPropertyName
    stdlibProperty: (string, string) -> Option<string>,
    // GlobalApi._getPropertyName
    globalName: string -> Option<string>,
    // Transformer.isKnown(node, parent)
    isKnown: (Node, Node) -> bool
  )

  /** The warning the enum sub-pass logs for an enum whose value is unknown. */
  datatype Warning = UnknownEnumValue(value: string, enumName: string)

  datatype Pass = ItemsPass | EnumsPass | StdlibPass | GlobalPass | ExecPass

  /**
   What visiting one node produced: the node that takes its place, an optional
   new name for the parent's `property` identifier, and logged warnings.
   */
  datatype Step = Step(node: Node, rename: Option<string>, warnings: seq<Warning>)

  /** JavaScript truthiness of a lookup result: a missing or empty name is falsy. */
  predicate Resolves(o: Option<string>) {
    o.Some? && o.value != ""
  }

  /** `ns.name`, the non-computed member expression the pass generates. */
  function Qualified(ns: string, name: string): Node {
    MemberExpression(Identifier(ns), Identifier(name), false)
  }

  /** `__vbsHelper.transpileInline(a)`. */
  function InlineCall(a: Node): Node {
    CallExpression(Qualified(VBSHELPER, TRANSPILE_INLINE), [a])
  }

  /** The first argument slot of a call; a missing one reads as undefined. */
  function FirstArg(args: seq<Node>): Node {
    if |args| > 0 then args[0] else Absent
  }

  function LaterArgs(args: seq<Node>): seq<Node> {
    if |args| > 0 then args[1..] else []
  }

  function LowerChar(ch: char): char {
    if 'A' <= ch <= 'Z' then (ch as int + 32) as char else ch
  }

  /** `String.prototype.toLowerCase` restricted to ASCII letters. */
  function Lower(s: string): (r: string)
    ensures |r| == |s|
  {
    seq(|s|, i requires 0 <= i < |s| => LowerChar(s[i]))
  }

  /** `parent.property.name` when it is a present, non-empty name. */
  function PropertyName(parent: Node): Option<string> {
    if parent.MemberExpression? && parent.prop.Identifier? && parent.prop.name != ""
    then Some(parent.prop.name)
    else None
  }

  /** A lookup result as a rename, when it is truthy. */
  function RenameTo(o: Option<string>): Option<string> {
    if Resolves(o) then Some(o.value) else None
  }

  /**
   The isKnown guard treats the two identifiers of a freshly generated
   `ns.name` as known. The stdlib and global sub-passes rely on it: without
   it their own output would be rewritten again and the walk might not end.
   */
  ghost predicate RecognisesQualified(isKnown: (Node, Node) -> bool, ns: string) {
    forall name: string {:trigger Qualified(ns, name)} ::
      isKnown(Identifier(ns), Qualified(ns, name)) && isKnown(Identifier(name), Qualified(ns, name))
  }

  /** What each sub-pass needs of the catalogs so that its walk terminates. */
  ghost predicate Sound(c: Catalogs, p: Pass) {
    match p
    case EnumsPass => !Resolves(c.enumName(ENUMS))
    case StdlibPass => RecognisesQualified(c.isKnown, STDLIB)
    case GlobalPass => RecognisesQualified(c.isKnown, GLOBAL)
    case _ => true
  }

  ghost predicate SoundAll(c: Catalogs) {
    Sound(c, EnumsPass) && Sound(c, StdlibPass) && Sound(c, GlobalPass)
  }

  // ---------------------------------------------------------------------
  // The five `enter` callbacks

  /** The `enter` callback of `replaceElementObjectNames`. */
  function EnterItems(c: Catalogs, node: Node, parent: Node): Step {
    var alreadyReplaced := parent != node && parent.MemberExpression? && parent.obj == Identifier(ITEMS);
    if !alreadyReplaced && node.Identifier? && Resolves(c.elementName(node.name)) then
      var element := c.elementName(node.name).value;
      var rename :=
        match PropertyName(parent)
        case Some(pn) => RenameTo(c.elementProperty(element, pn))
        case None => None;
      Step(Qualified(ITEMS, element), rename, [])
    else
      Step(node, None, [])
  }

  /** The `enter` callback of `replaceEnumObjectNames`. */
  function EnterEnums(c: Catalogs, node: Node, parent: Node): Step {
    var isFunction := parent.CallExpression?;
    var isIdentifier := node.MemberExpression? && node.obj.Identifier? && node.prop.Identifier?;
    if isIdentifier && !isFunction && Resolves(c.enumName(node.obj.name)) then
      var enum := c.enumName(node.obj.name).value;
      var value := c.enumValue(enum, node.prop.name);
      if Resolves(value) then
        Step(MemberExpression(Qualified(ENUMS, enum), Identifier(value.value), node.computed), None, [])
      else
        Step(node, None, [UnknownEnumValue(node.prop.name, enum)])
    else
      Step(node, None, [])
  }

  /** The `enter` callback of `replaceStdlibNames`. */
  function EnterStdlib(c: Catalogs, node: Node, parent: Node): Step {
    if !c.isKnown(node, parent) && node.Identifier? && Resolves(c.stdlibName(node.name)) then
      var name := c.stdlibName(node.name).value;
      var rename :=
        match PropertyName(parent)
        case Some(pn) => if c.stdlibHasEntry(name) then RenameTo(c.stdlibProperty(name, pn)) else None
        case None => None;
      Step(Qualified(STDLIB, name), rename, [])
    else
      Step(node, None, [])
  }

  /** The `enter` callback of `replaceGlobalApiNames`. */
  function EnterGlobal(c: Catalogs, node: Node, parent: Node): Step {
    if !c.isKnown(node, parent) && node.Identifier? && Resolves(c.globalName(node.name)) then
      Step(Qualified(GLOBAL, c.globalName(node.name).value), None, [])
    else
      Step(node, None, [])
  }

  predicate IsExecuteGlobalCall(node: Node) {
    node.CallExpression? && node.callee.Identifier? && Lower(node.callee.name) == EXECUTE_GLOBAL
  }

  /** The `enter` callback of `replaceExecuteGlobal`. */
  function EnterExec(node: Node): Step {
    if IsExecuteGlobalCall(node) then
      Step(CallExpression(Identifier(EVAL), [InlineCall(FirstArg(node.args))] + LaterArgs(node.args)), None, [])
    else
      Step(node, None, [])
  }

  /**
   The `enter` callback of sub-pass `p`. Outside the `ExecuteGlobal` pass,
   only an identifier can change constructor: any other node keeps its
   constructor, its non-child fields and its number of children.
   */
  function Enter(c: Catalogs, p: Pass, node: Node, parent: Node): (r: Step)
    ensures !node.Identifier? && p != ExecPass ==> SameKind(node, r.node) && |Children(r.node)| == |Children(node)|
    ensures r.node.Absent? ==> node.Absent?
    ensures r.rename.Some? ==> node.Identifier? && PropertyName(parent).Some?
    ensures p != EnumsPass ==> r.warnings == []
  {
    match p
    case ItemsPass => EnterItems(c, node, parent)
    case EnumsPass => EnterEnums(c, node, parent)
    case StdlibPass => EnterStdlib(c, node, parent)
    case GlobalPass => EnterGlobal(c, node, parent)
    case ExecPass => EnterExec(node)
  }

  // ---------------------------------------------------------------------
  // The tree walk

  /** Renames the identifier at the head of `s`, the parent's not yet visited property. */
  function RenameHead(s: seq<Node>, rename: Option<string>): (r: seq<Node>)
    ensures |r| == |s| && SizeSum(r) == SizeSum(s)
    ensures rename.None? ==> r == s
  {
    if rename.Some? && |s| > 0 && s[0].Identifier? then
      var r := [Identifier(rename.value)] + s[1..];
      assert r[1..] == s[1..];
      r
    else s
  }

  /**
   Visits `node`, whose parent is `parent`, and then the subtree that takes
   its place. A qualified name or enum access produced by `enter` is returned
   as it is: walking its children leaves them as they are (lemmas
   `ItemsReplacementSettled`, `EnumsReplacementSettled`,
   `StdlibReplacementSettled`, `GlobalReplacementSettled`). A rewritten
   `ExecuteGlobal` call is walked on by `WalkExecuted`.
   */
  function Walk(c: Catalogs, p: Pass, node: Node, parent: Node): (r: Step)
    requires Sound(c, p)
    ensures r.node.Absent? <==> node.Absent?
    ensures !node.Identifier? ==> SameKind(node, r.node)
    ensures !node.Identifier? && !(p == ExecPass && IsExecuteGlobalCall(node)) ==> |Children(r.node)| == |Children(node)|
    ensures r.rename.Some? ==> node.Identifier? && PropertyName(parent).Some?
    ensures p != EnumsPass ==> r.warnings == []
    decreases Size(node), 2
  {
    if node.Absent? then Step(node, None, [])
    else
      var e := Enter(c, p, node, parent);
      if e.node == node then
        SizeOfChildren(node);
        var s := WalkSeq(c, p, node, [], Children(node));
        Step(s.node, e.rename, e.warnings + s.warnings)
      else if p == ExecPass then
        WalkExecuted(c, node)
      else
        e
  }

  /**
   The walk after `enter` rewrote `ExecuteGlobal(a, ...)` in place: the walk
   goes on into the original first argument, now inside the
   `transpileInline` call, and then into the remaining arguments.
   */
  function WalkExecuted(c: Catalogs, node: Node): (r: Step)
    requires IsExecuteGlobalCall(node)
    ensures r.node.CallExpression? && r.node.callee == Identifier(EVAL)
    ensures |r.node.args| == if |node.args| > 0 then |node.args| else 1
    ensures var a0 := FirstArg(node.args);
      r.node.args[0] == InlineCall(Walk(c, ExecPass, a0, InlineCall(a0)).node)
    ensures r.rename.None? && r.warnings == []
    decreases Size(node), 1
  {
    var a0 := FirstArg(node.args);
    var w := Walk(c, ExecPass, a0, InlineCall(a0));
    SizeSumCons(node.callee, node.args);
    var done := [Identifier(EVAL), InlineCall(w.node)];
    var s := WalkSeq(c, ExecPass, EnterExec(node).node, done, LaterArgs(node.args));
    assert Children(s.node)[..2] == done;
    assert Children(s.node)[1] == done[1];
    Step(s.node, None, w.warnings + s.warnings)
  }

  /**
   Visits the children `rest` of `template` in order; `done` holds the
   children already walked. The parent each child sees is `template` with
   children `done + rest`. A rename a child asks for lands on the parent's
   property before that child's own replacement is stored.
   */
  function WalkSeq(c: Catalogs, p: Pass, template: Node, done: seq<Node>, rest: seq<Node>): (r: Step)
    requires Sound(c, p)
    requires |done| + |rest| == |Children(template)|
    ensures SameKind(template, r.node)
    ensures |Children(r.node)| == |Children(template)|
    ensures Children(r.node)[..|done|] == done
    ensures r.rename.None?
    ensures p != EnumsPass ==> r.warnings == []
    decreases SizeSum(rest), 3
  {
    if rest == [] then Step(WithChildren(template, done), None, [])
    else
      var parent := WithChildren(template, done + rest);
      var v := Walk(c, p, rest[0], parent);
      var later := if template.MemberExpression? && |done| == 0 then RenameHead(rest[1..], v.rename) else rest[1..];
      var s := WalkSeq(c, p, template, done + [v.node], later);
      assert Children(s.node)[..|done|] == (done + [v.node])[..|done|];
      Step(s.node, None, v.warnings + s.warnings)
  }

  // ---------------------------------------------------------------------
  // The five sub-passes and `transform`

  function ReplaceElementObjectNames(c: Catalogs, ast: Node): Node {
    Walk(c, ItemsPass, ast, ast).node
  }

  function ReplaceEnumObjectNames(c: Catalogs, ast: Node): Step
    requires Sound(c, EnumsPass)
  {
    Walk(c, EnumsPass, ast, ast)
  }

  function ReplaceStdlibNames(c: Catalogs, ast: Node): Node
    requires Sound(c, StdlibPass)
  {
    Walk(c, StdlibPass, ast, ast).node
  }

  function ReplaceGlobalApiNames(c: Catalogs, ast: Node): Node
    requires Sound(c, GlobalPass)
  {
    Walk(c, GlobalPass, ast, ast).node
  }

  /** `replaceExecuteGlobal`; its callback consults no catalog. */
  function ReplaceExecuteGlobal(c: Catalogs, ast: Node): Node {
    Walk(c, ExecPass, ast, ast).node
  }

  datatype Transformed = Transformed(ast: Node, warnings: seq<Warning>)

  /**
   `transform`: the five sub-passes in their fixed order, each over the whole
   tree produced by the one before. The program keeps its statements.
   */
  function Transform(c: Catalogs, ast: Node): (r: Transformed)
    requires SoundAll(c)
    ensures ast.Program? ==> r.ast.Program? && r.ast.sourceType == ast.sourceType && |r.ast.body| == |ast.body|
  {
    var a1 := ReplaceElementObjectNames(c, ast);
    var e := ReplaceEnumObjectNames(c, a1);
    var a3 := ReplaceStdlibNames(c, e.node);
    var a4 := ReplaceGlobalApiNames(c, a3);
    Transformed(ReplaceExecuteGlobal(c, a4), e.warnings)
  }
}
