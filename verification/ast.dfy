/**
 The subset of the ESTree abstract syntax tree that the VBScript transpiler
 builds and rewrites, as immutable values.

 `Absent` stands for a JavaScript `null` or `undefined` slot (an omitted call
 argument, a declarator without initialiser); a tree walk never enters it.
 Every other ESTree node type the transpiler can produce (assignments, binary
 expressions, loops, ...) is an `Other` node carrying its ESTree type name and
 its child nodes in ESTree visiting order.
 */
module Ast {

  datatype Option<+T> = None | Some(value: T)

  /** A JavaScript value carried by a `Literal` node (NaN is not modelled). */
  datatype Value = Null | Bool(b: bool) | Num(x: real) | Str(s: string)

  /** JavaScript falsiness of a literal value: null, false, 0 and "". */
  predicate Falsy(v: Value) {
    v.Null? || v == Bool(false) || v == Num(0.0) || v == Str("")
  }

  datatype DeclKind = Let | Const

  datatype Node =
    | Absent
    | Program(sourceType: string, body: seq<Node>)
    | ExpressionStatement(expression: Node)
    | VariableDeclaration(kind: DeclKind, declarations: seq<Node>)
    | VariableDeclarator(id: Node, init: Node)
    | CallExpression(callee: Node, args: seq<Node>)
    | MemberExpression(obj: Node, prop: Node, computed: bool)
    | Identifier(name: string)
    | Literal(value: Value)
    | Other(nodeType: string, children: seq<Node>)

  /** The ESTree `type` tag of a node. */
  function Type(n: Node): string {
    match n
    case Absent => "null"
    case Program(_, _) => "Program"
    case ExpressionStatement(_) => "ExpressionStatement"
    case VariableDeclaration(_, _) => "VariableDeclaration"
    case VariableDeclarator(_, _) => "VariableDeclarator"
    case CallExpression(_, _) => "CallExpression"
    case MemberExpression(_, _, _) => "MemberExpression"
    case Identifier(_) => "Identifier"
    case Literal(_) => "Literal"
    case Other(kind, _) => kind
  }

  /**
   `b` is built by the same constructor as `a` and agrees with it on every
   field that is not a child slot. Unlike `Type`, this tells a dedicated node
   from an `Other` node that happens to carry the same type name.
   */
  predicate SameKind(a: Node, b: Node) {
    match a
    case Absent => b.Absent?
    case Program(st, _) => b.Program? && b.sourceType == st
    case ExpressionStatement(_) => b.ExpressionStatement?
    case VariableDeclaration(k, _) => b.VariableDeclaration? && b.kind == k
    case VariableDeclarator(_, _) => b.VariableDeclarator?
    case CallExpression(_, _) => b.CallExpression?
    case MemberExpression(_, _, c) => b.MemberExpression? && b.computed == c
    case Identifier(_) => b == a
    case Literal(_) => b == a
    case Other(t, _) => b.Other? && b.nodeType == t
  }

  /** The child slots of a node, in the order a tree walk visits them. */
  function Children(n: Node): seq<Node> {
    match n
    case Program(_, body) => body
    case ExpressionStatement(e) => [e]
    case VariableDeclaration(_, ds) => ds
    case VariableDeclarator(id, init) => [id, init]
    case CallExpression(callee, args) => [callee] + args
    case MemberExpression(o, p, _) => [o, p]
    case Other(_, cs) => cs
    case _ => []
  }

  /** The node `n` with its child slots replaced by `cs`, every other field kept. */
  function WithChildren(n: Node, cs: seq<Node>): (r: Node)
    requires |cs| == |Children(n)|
    ensures Children(r) == cs
    ensures SameKind(n, r) && Type(r) == Type(n)
  {
    match n
    case Program(st, _) => Program(st, cs)
    case ExpressionStatement(_) => ExpressionStatement(cs[0])
    case VariableDeclaration(k, _) => VariableDeclaration(k, cs)
    case VariableDeclarator(_, _) => VariableDeclarator(cs[0], cs[1])
    case CallExpression(_, _) =>
      assert [cs[0]] + cs[1..] == cs;
      CallExpression(cs[0], cs[1..])
    case MemberExpression(_, _, c) => MemberExpression(cs[0], cs[1], c)
    case Other(k, _) => Other(k, cs)
    case _ => n
  }

  lemma WithOwnChildren(n: Node)
    ensures WithChildren(n, Children(n)) == n
  {
    if n.CallExpression? {
      assert ([n.callee] + n.args)[1..] == n.args;
    }
  }

  /** Number of nodes in a tree; the measure every tree walk decreases. */
  function Size(n: Node): nat
    ensures Size(n) >= 1
  {
    match n
    case Program(_, body) => 1 + SizeSum(body)
    case ExpressionStatement(e) => 1 + Size(e)
    case VariableDeclaration(_, ds) => 1 + SizeSum(ds)
    case VariableDeclarator(id, init) => 1 + Size(id) + Size(init)
    case CallExpression(callee, args) => 1 + Size(callee) + SizeSum(args)
    case MemberExpression(o, p, _) => 1 + Size(o) + Size(p)
    case Other(_, cs) => 1 + SizeSum(cs)
    case _ => 1
  }

  function SizeSum(s: seq<Node>): nat
    ensures |s| > 0 ==> SizeSum(s) >= Size(s[0])
  {
    if s == [] then 0 else Size(s[0]) + SizeSum(s[1..])
  }

  lemma SizeSumPair(a: Node, b: Node)
    ensures SizeSum([a, b]) == Size(a) + Size(b)
  {
    assert [b][1..] == [];
    assert SizeSum([b]) == Size(b);
    assert [a, b][1..] == [b];
  }

  lemma {:induction false} SizeSumCons(a: Node, s: seq<Node>)
    ensures SizeSum([a] + s) == Size(a) + SizeSum(s)
  {
    assert ([a] + s)[1..] == s;
  }

  /** Each element of a sequence is at most as large as the whole sequence. */
  lemma {:induction false} SizeSumAt(s: seq<Node>, k: nat)
    requires k < |s|
    ensures Size(s[k]) <= SizeSum(s)
    decreases k
  {
    if k > 0 {
      SizeSumAt(s[1..], k - 1);
    }
  }

  /** A node is one larger than all its children together. */
  lemma SizeOfChildren(n: Node)
    ensures Size(n) == 1 + SizeSum(Children(n))
  {
    match n
    case ExpressionStatement(e) =>
      assert [e][1..] == [];
    case VariableDeclarator(id, init) =>
      SizeSumPair(id, init);
    case CallExpression(callee, args) =>
      SizeSumCons(callee, args);
    case MemberExpression(o, p, _) =>
      SizeSumPair(o, p);
    case _ =>
  }
}
