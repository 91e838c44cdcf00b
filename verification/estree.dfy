/**
 The ESTree node factory the VBScript grammar calls to build declarations,
 literals and call statements.

 A grammar match is modelled by the parts the factory reads: a `Dim` match
 by its first variable name and the names that follow it, a `Const` match by
 its first item and the items that follow it (an item by its name and its
 value), and the operand of a call statement by the list of its name matches.
 */
module Estree {
  import opened Ast

  /** The root node holding the given statements. */
  function ProgramOf(statements: seq<Node>): (r: Node)
    ensures r.Program? && Type(r) == "Program" && r.sourceType == "script"
    ensures Children(r) == statements
  {
    Program("script", statements)
  }

  /** A literal node carrying exactly `v`. */
  function LiteralOf(v: Value): (r: Node)
    ensures Type(r) == "Literal" && Children(r) == []
    ensures r.Literal? && r.value == v
  {
    Literal(v)
  }

  /**
   A declarator for `name`. Its initialiser is left out (null) when `value` is
   JavaScript-falsy, so a constant equal to 0, "" or false gets no initialiser.
   */
  function Declarator(name: string, value: Value): (r: Node)
    ensures r.VariableDeclarator? && r.id == Identifier(name)
    ensures r.init == Absent <==> Falsy(value)
    ensures !Falsy(value) ==> r.init == LiteralOf(value)
  {
    VariableDeclarator(Identifier(name), if Falsy(value) then Absent else LiteralOf(value))
  }

  /** The parts of a `Dim` match the factory reads: the first name and the others. */
  datatype DimMatch = DimMatch(first: string, others: seq<string>)

  /** One `Name = Value` item of a `Const` statement. */
  datatype ConstItem = ConstItem(name: string, value: Value)

  /** The parts of a `Const` match the factory reads: the first item and the others. */
  datatype ConstMatch = ConstMatch(first: ConstItem, others: seq<ConstItem>)

  /** Declarators for `names`, in order, each without initialiser. */
  function DimDeclarators(names: seq<string>): (r: seq<Node>)
    ensures |r| == |names|
    ensures forall i :: 0 <= i < |names| ==> r[i] == Declarator(names[i], Null)
  {
    if names == [] then [] else [Declarator(names[0], Null)] + DimDeclarators(names[1..])
  }

  /** Declarators for `items`, in order, each built from the item's name and value. */
  function ConstDeclarators(items: seq<ConstItem>): (r: seq<Node>)
    ensures |r| == |items|
    ensures forall i :: 0 <= i < |items| ==> r[i] == Declarator(items[i].name, items[i].value)
  {
    if items == [] then [] else [Declarator(items[0].name, items[0].value)] + ConstDeclarators(items[1..])
  }

  /** `Dim a, b, c`: a `let` declaration with one declarator per name. */
  function VarDecl(m: DimMatch): (r: Node)
    ensures r.VariableDeclaration? && r.kind == Let
    ensures |r.declarations| == 1 + |m.others|
  {
    VariableDeclaration(Let, DimDeclarators([m.first] + m.others))
  }

  /** `Const a = 1, b = 2`: a `const` declaration with one declarator per item. */
  function ConstDecl(m: ConstMatch): (r: Node)
    ensures r.VariableDeclaration? && r.kind == Const
    ensures |r.declarations| == 1 + |m.others|
  {
    VariableDeclaration(Const, ConstDeclarators([m.first] + m.others))
  }

  /**
   A call statement without arguments. One name match calls that name; two or
   more call the second name as a method of the first, and the rest are ignored.
   Each name match carries the name as its first element.
   */
  function CallStatement(data: seq<seq<string>>): (r: Node)
    requires |data| > 0 && |data[0]| > 0
    requires |data| > 1 ==> |data[1]| > 0
    ensures r.ExpressionStatement? && r.expression.CallExpression?
    ensures r.expression.args == []
    ensures |data| > 1 ==> r.expression.callee.MemberExpression? && !r.expression.callee.computed
  {
    if |data| > 1 then
      ExpressionStatement(CallExpression(
        MemberExpression(Identifier(data[0][0]), Identifier(data[1][0]), false), []))
    else
      ExpressionStatement(CallExpression(Identifier(data[0][0]), []))
  }

  /** The name a declarator declares, read back from its node. */
  function DeclaredName(decl: Node): Option<string> {
    if decl.VariableDeclarator? && decl.id.Identifier? then Some(decl.id.name) else None
  }

  /** The names a list of declarators declares, read back in order. */
  function DeclaredNames(decls: seq<Node>): seq<Option<string>> {
    if decls == [] then [] else [DeclaredName(decls[0])] + DeclaredNames(decls[1..])
  }

  /** The value a declarator initialises its variable to; null without initialiser. */
  function InitialValue(decl: Node): Value {
    if decl.VariableDeclarator? && decl.init.Literal? then decl.init.value else Null
  }

  /**
   The dotted name a call statement invokes, read back from its callee. Only
   a non-computed `a.b` reads as a dotted name; `a[b]` reads as none.
   */
  function CalleePath(stmt: Node): seq<string> {
    if stmt.ExpressionStatement? && stmt.expression.CallExpression? then
      var callee := stmt.expression.callee;
      if callee.Identifier? then [callee.name]
      else if callee.MemberExpression? && !callee.computed && callee.obj.Identifier? && callee.prop.Identifier?
      then [callee.obj.name, callee.prop.name]
      else []
    else []
  }

  function Somes(names: seq<string>): (r: seq<Option<string>>)
    ensures |r| == |names|
    ensures forall i :: 0 <= i < |names| ==> r[i] == Some(names[i])
  {
    if names == [] then [] else [Some(names[0])] + Somes(names[1..])
  }

  function Names(items: seq<ConstItem>): (r: seq<string>)
    ensures |r| == |items|
    ensures forall i :: 0 <= i < |items| ==> r[i] == items[i].name
  {
    if items == [] then [] else [items[0].name] + Names(items[1..])
  }

  /** Reading back the declarators of names gives exactly those names, in order. */
  lemma {:induction false} DeclaratorsDeclare(names: seq<string>)
    ensures DeclaredNames(DimDeclarators(names)) == Somes(names)
    decreases |names|
  {
    if names != [] {
      DeclaratorsDeclare(names[1..]);
      assert DimDeclarators(names)[1..] == DimDeclarators(names[1..]);
    }
  }

  /** Reading back the declarators of items gives exactly the items' names, in order. */
  lemma {:induction false} ConstDeclaratorsDeclare(items: seq<ConstItem>)
    ensures DeclaredNames(ConstDeclarators(items)) == Somes(Names(items))
    decreases |items|
  {
    if items != [] {
      ConstDeclaratorsDeclare(items[1..]);
      assert ConstDeclarators(items)[1..] == ConstDeclarators(items[1..]);
      assert Names(items)[1..] == Names(items[1..]);
      assert Somes(Names(items))[1..] == Somes(Names(items)[1..]);
    }
  }

  /** `Dim` declares its first name and then the others, in source order. */
  lemma VarDeclNames(m: DimMatch)
    ensures DeclaredNames(VarDecl(m).declarations) == Somes([m.first] + m.others)
  {
    DeclaratorsDeclare([m.first] + m.others);
  }

  /** Every variable a `Dim` declares starts without initialiser. */
  lemma VarDeclUninitialised(m: DimMatch)
    ensures forall d | d in VarDecl(m).declarations :: d.VariableDeclarator? && d.init == Absent
  {
    var ds := VarDecl(m).declarations;
    forall d | d in ds
      ensures d.VariableDeclarator? && d.init == Absent
    {
      var i :| 0 <= i < |ds| && ds[i] == d;
      assert d == Declarator(([m.first] + m.others)[i], Null);
    }
  }

  /** `Const` declares its first item's name and then the others', in source order. */
  lemma ConstDeclNames(m: ConstMatch)
    ensures DeclaredNames(ConstDecl(m).declarations) == Somes(Names([m.first] + m.others))
  {
    ConstDeclaratorsDeclare([m.first] + m.others);
  }

  /**
   Reading back a declarator's initial value gives the value it was built
   from, except that a falsy value reads back as null.
   */
  lemma DeclaratorInitRoundTrip(name: string, value: Value)
    ensures InitialValue(Declarator(name, value)) == if Falsy(value) then Null else value
    ensures DeclaredName(Declarator(name, value)) == Some(name)
  {
  }

  /** Each constant reads back its own item's value, subject to the falsy rule. */
  lemma ConstDeclValues(m: ConstMatch, i: nat)
    requires i < 1 + |m.others|
    ensures var item := ([m.first] + m.others)[i];
      InitialValue(ConstDecl(m).declarations[i]) == if Falsy(item.value) then Null else item.value
  {
    var item := ([m.first] + m.others)[i];
    DeclaratorInitRoundTrip(item.name, item.value);
  }

  /** A call statement invokes the first one or two names of its operand. */
  lemma CallStatementPath(data: seq<seq<string>>)
    requires |data| > 0 && |data[0]| > 0
    requires |data| > 1 ==> |data[1]| > 0
    ensures CalleePath(CallStatement(data))
            == if |data| > 1 then [data[0][0], data[1][0]] else [data[0][0]]
  {
  }

  /** Name matches after the second one do not affect the statement. */
  lemma CallStatementIgnoresRest(data: seq<seq<string>>, more: seq<seq<string>>)
    requires |data| > 1 && |data[0]| > 0 && |data[1]| > 0
    ensures CallStatement(data + more) == CallStatement(data[..2])
  {
    assert (data + more)[0] == data[0] && (data + more)[1] == data[1];
  }
}
