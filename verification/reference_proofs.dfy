/**
 Properties of the reference-resolution pass: which nodes each sub-pass
 rewrites, what they become, what it never touches, and the order in which
 the sub-passes claim a name.
 */
module ReferenceProofs {
  import opened Ast
  import opened Reference

  // ---------------------------------------------------------------------
  // Trees a sub-pass has nothing to do in

  /** `n` offers the sub-pass `p` nothing to rewrite, whatever its parent. */
  predicate Inert(c: Catalogs, p: Pass, n: Node) {
    match p
    case ItemsPass => n.Identifier? ==> !Resolves(c.elementName(n.name))
    case EnumsPass =>
      n.MemberExpression? && n.obj.Identifier? && n.prop.Identifier? ==> !Resolves(c.enumName(n.obj.name))
    case StdlibPass => n.Identifier? ==> !Resolves(c.stdlibName(n.name))
    case GlobalPass => n.Identifier? ==> !Resolves(c.globalName(n.name))
    case ExecPass => !IsExecuteGlobalCall(n)
  }

  predicate AllInert(c: Catalogs, p: Pass, n: Node) {
    Inert(c, p, n) &&
    match n
    case Program(_, body) => AllInertSeq(c, p, body)
    case ExpressionStatement(e) => AllInert(c, p, e)
    case VariableDeclaration(_, ds) => AllInertSeq(c, p, ds)
    case VariableDeclarator(id, init) => AllInert(c, p, id) && AllInert(c, p, init)
    case CallExpression(callee, args) => AllInert(c, p, callee) && AllInertSeq(c, p, args)
    case MemberExpression(o, q, _) => AllInert(c, p, o) && AllInert(c, p, q)
    case Other(_, cs) => AllInertSeq(c, p, cs)
    case _ => true
  }

  predicate AllInertSeq(c: Catalogs, p: Pass, s: seq<Node>) {
    s == [] || (AllInert(c, p, s[0]) && AllInertSeq(c, p, s[1..]))
  }

  lemma AllInertChildren(c: Catalogs, p: Pass, n: Node)
    requires AllInert(c, p, n)
    ensures AllInertSeq(c, p, Children(n))
  {
    match n
    case ExpressionStatement(e) =>
      assert [e][1..] == [];
    case VariableDeclarator(id, init) =>
      assert [id, init][1..] == [init];
      assert [init][1..] == [];
    case CallExpression(callee, args) =>
      assert ([callee] + args)[1..] == args;
    case MemberExpression(o, q, _) =>
      assert [o, q][1..] == [q];
      assert [q][1..] == [];
    case _ =>
  }

  lemma EnterInert(c: Catalogs, p: Pass, n: Node, parent: Node)
    requires Inert(c, p, n)
    ensures Enter(c, p, n, parent) == Step(n, None, [])
  {
  }

  /** One step of `WalkSeq`: the head child is walked, then the rest. */
  lemma WalkSeqUnfold(c: Catalogs, p: Pass, t: Node, done: seq<Node>, rest: seq<Node>)
    requires Sound(c, p)
    requires |done| + |rest| == |Children(t)|
    requires rest != []
    ensures var v := Walk(c, p, rest[0], WithChildren(t, done + rest));
      var later := if t.MemberExpression? && |done| == 0 then RenameHead(rest[1..], v.rename) else rest[1..];
      var s := WalkSeq(c, p, t, done + [v.node], later);
      WalkSeq(c, p, t, done, rest) == Step(s.node, None, v.warnings + s.warnings)
  {
  }

  /** A node `enter` keeps is followed by a walk of its children. */
  lemma WalkUnfoldKept(c: Catalogs, p: Pass, n: Node, parent: Node)
    requires Sound(c, p)
    requires !n.Absent?
    requires Enter(c, p, n, parent).node == n
    ensures var e := Enter(c, p, n, parent);
      var s := WalkSeq(c, p, n, [], Children(n));
      Walk(c, p, n, parent) == Step(s.node, e.rename, e.warnings + s.warnings)
  {
  }

  lemma SplitAt(all: seq<Node>, i: nat)
    requires i <= |all|
    ensures all[..i] + all[i..] == all
    ensures i == |all| ==> all[i..] == [] && all[..i] == all
    ensures i < |all| ==> all[i..][0] == all[i] && all[i..][1..] == all[i + 1..] && all[..i] + [all[i]] == all[..i + 1]
  {
  }

  /** One child of `all` that walks to itself: the walk moves on to the next one. */
  lemma WalkSeqStep(c: Catalogs, p: Pass, t: Node, all: seq<Node>, i: nat)
    requires Sound(c, p)
    requires |all| == |Children(t)| && i < |all|
    requires Walk(c, p, all[i], WithChildren(t, all)) == Step(all[i], None, [])
    ensures var s := WalkSeq(c, p, t, all[..i + 1], all[i + 1..]);
      WalkSeq(c, p, t, all[..i], all[i..]) == Step(s.node, None, s.warnings)
  {
    SplitAt(all, i);
    WalkSeqUnfold(c, p, t, all[..i], all[i..]);
  }

  lemma {:induction false} WalkSeqFixed(c: Catalogs, p: Pass, t: Node, all: seq<Node>, i: nat)
    requires Sound(c, p)
    requires |all| == |Children(t)| && i <= |all|
    requires forall k | i <= k < |all| :: Walk(c, p, all[k], WithChildren(t, all)) == Step(all[k], None, [])
    ensures WalkSeq(c, p, t, all[..i], all[i..]) == Step(WithChildren(t, all), None, [])
    decreases |all| - i
  {
    if i < |all| {
      WalkSeqStep(c, p, t, all, i);
      WalkSeqFixed(c, p, t, all, i + 1);
    } else {
      SplitAt(all, i);
    }
  }

  /** A node `enter` leaves alone, whose children all walk to themselves, walks to itself. */
  lemma Settled(c: Catalogs, p: Pass, n: Node, parent: Node)
    requires Sound(c, p)
    requires Enter(c, p, n, parent) == Step(n, None, [])
    requires forall i | 0 <= i < |Children(n)| :: Walk(c, p, Children(n)[i], n) == Step(Children(n)[i], None, [])
    ensures Walk(c, p, n, parent) == Step(n, None, [])
  {
    if !n.Absent? {
      WithOwnChildren(n);
      assert [] + Children(n) == Children(n);
      WalkSeqFixed(c, p, n, Children(n), 0);
    }
  }

  lemma {:induction false} AllInertAt(c: Catalogs, p: Pass, s: seq<Node>, k: nat)
    requires AllInertSeq(c, p, s) && k < |s|
    ensures AllInert(c, p, s[k])
    decreases k
  {
    if k > 0 {
      AllInertAt(c, p, s[1..], k - 1);
    }
  }

  /**
   Frame: a tree that offers a sub-pass nothing to rewrite comes out of it
   unchanged and without warnings, wherever it sits.
   */
  lemma {:induction false} WalkInert(c: Catalogs, p: Pass, n: Node, parent: Node)
    requires Sound(c, p)
    requires AllInert(c, p, n)
    ensures Walk(c, p, n, parent) == Step(n, None, [])
    decreases Size(n)
  {
    EnterInert(c, p, n, parent);
    AllInertChildren(c, p, n);
    SizeOfChildren(n);
    var kids := Children(n);
    forall k | 0 <= k < |kids|
      ensures Walk(c, p, kids[k], n) == Step(kids[k], None, [])
    {
      AllInertAt(c, p, kids, k);
      SizeSumAt(kids, k);
      WalkInert(c, p, kids[k], n);
    }
    Settled(c, p, n, parent);
  }

  /** Children after `done` that offer nothing to rewrite walk to themselves. */
  lemma WalkSeqInert(c: Catalogs, p: Pass, t: Node, done: seq<Node>, rest: seq<Node>)
    requires Sound(c, p)
    requires |done| + |rest| == |Children(t)|
    requires AllInertSeq(c, p, rest)
    ensures WalkSeq(c, p, t, done, rest) == Step(WithChildren(t, done + rest), None, [])
  {
    var all := done + rest;
    forall k | |done| <= k < |all|
      ensures Walk(c, p, all[k], WithChildren(t, all)) == Step(all[k], None, [])
    {
      AllInertAt(c, p, rest, k - |done|);
      assert all[k] == rest[k - |done|];
      WalkInert(c, p, all[k], WithChildren(t, all));
    }
    WalkSeqFixed(c, p, t, all, |done|);
    assert all[..|done|] == done;
    assert all[|done|..] == rest;
  }

  /** An identifier leaf that `enter` leaves alone walks to itself. */
  lemma LeafSettled(c: Catalogs, p: Pass, n: Node, parent: Node)
    requires Sound(c, p)
    requires n.Identifier?
    requires Enter(c, p, n, parent) == Step(n, None, [])
    ensures Walk(c, p, n, parent) == Step(n, None, [])
  {
    Settled(c, p, n, parent);
  }

  // ---------------------------------------------------------------------
  // A replacement's children are walked next and stay as they are

  /** Items: neither child of a freshly returned `__items.X` is rewritten again. */
  lemma ItemsReplacementSettled(c: Catalogs, name: string)
    ensures WalkSeq(c, ItemsPass, Qualified(ITEMS, name), [], Children(Qualified(ITEMS, name)))
         == Step(Qualified(ITEMS, name), None, [])
  {
    var q := Qualified(ITEMS, name);
    LeafSettled(c, ItemsPass, Identifier(ITEMS), q);
    LeafSettled(c, ItemsPass, Identifier(name), q);
    MemberChildrenSettled(c, ItemsPass, Identifier(ITEMS), Identifier(name), false);
  }

  lemma StdlibReplacementSettled(c: Catalogs, name: string)
    requires Sound(c, StdlibPass)
    ensures WalkSeq(c, StdlibPass, Qualified(STDLIB, name), [], Children(Qualified(STDLIB, name)))
         == Step(Qualified(STDLIB, name), None, [])
  {
    var q := Qualified(STDLIB, name);
    assert c.isKnown(Identifier(STDLIB), q) && c.isKnown(Identifier(name), q);
    LeafSettled(c, StdlibPass, Identifier(STDLIB), q);
    LeafSettled(c, StdlibPass, Identifier(name), q);
    MemberChildrenSettled(c, StdlibPass, Identifier(STDLIB), Identifier(name), false);
  }

  lemma GlobalReplacementSettled(c: Catalogs, name: string)
    requires Sound(c, GlobalPass)
    ensures WalkSeq(c, GlobalPass, Qualified(GLOBAL, name), [], Children(Qualified(GLOBAL, name)))
         == Step(Qualified(GLOBAL, name), None, [])
  {
    var q := Qualified(GLOBAL, name);
    assert c.isKnown(Identifier(GLOBAL), q) && c.isKnown(Identifier(name), q);
    LeafSettled(c, GlobalPass, Identifier(GLOBAL), q);
    LeafSettled(c, GlobalPass, Identifier(name), q);
    MemberChildrenSettled(c, GlobalPass, Identifier(GLOBAL), Identifier(name), false);
  }

  /** Enums: the children of a rewritten `__enums.Enum.Value` stay as they are. */
  lemma EnumsReplacementSettled(c: Catalogs, enum: string, value: string, computed: bool)
    requires Sound(c, EnumsPass)
    ensures var r := MemberExpression(Qualified(ENUMS, enum), Identifier(value), computed);
      WalkSeq(c, EnumsPass, r, [], Children(r)) == Step(r, None, [])
  {
    var r := MemberExpression(Qualified(ENUMS, enum), Identifier(value), computed);
    assert AllInert(c, EnumsPass, Identifier(ENUMS)) && AllInert(c, EnumsPass, Identifier(enum));
    assert AllInert(c, EnumsPass, Qualified(ENUMS, enum));
    WalkInert(c, EnumsPass, Qualified(ENUMS, enum), r);
    WalkInert(c, EnumsPass, Identifier(value), r);
    MemberChildrenSettled(c, EnumsPass, Qualified(ENUMS, enum), Identifier(value), computed);
  }

  /**
   ExecuteGlobal: after the rewrite, the `eval` callee, the wrapping
   `transpileInline` call and its callee are left as they are, so only the
   original arguments remain to be walked.
   */
  lemma ExecFreshPartsSettled(c: Catalogs, a: Node, parent: Node)
    ensures Walk(c, ExecPass, Identifier(EVAL), parent) == Step(Identifier(EVAL), None, [])
    ensures Enter(c, ExecPass, InlineCall(a), parent) == Step(InlineCall(a), None, [])
    ensures Walk(c, ExecPass, Qualified(VBSHELPER, TRANSPILE_INLINE), InlineCall(a))
         == Step(Qualified(VBSHELPER, TRANSPILE_INLINE), None, [])
  {
    WalkInert(c, ExecPass, Identifier(EVAL), parent);
    assert AllInert(c, ExecPass, Identifier(VBSHELPER));
    assert AllInert(c, ExecPass, Identifier(TRANSPILE_INLINE));
    assert AllInert(c, ExecPass, Qualified(VBSHELPER, TRANSPILE_INLINE));
    WalkInert(c, ExecPass, Qualified(VBSHELPER, TRANSPILE_INLINE), InlineCall(a));
  }

  lemma PairFacts(a: Node, b: Node, x: Node)
    ensures [] + [a, b] == [a, b] && [a, b][1..] == [b] && [] + [x] == [x]
    ensures [a] + [b] == [a, b] && [b][1..] == [] && [a] + [x] == [a, x]
  {
  }

  /** The property visit of a member access: the last child, under the walked object. */
  lemma MemberSecondChild(c: Catalogs, p: Pass, o: Node, q: Node, computed: bool, o': Node, q': Node)
    requires Sound(c, p)
    ensures var node := MemberExpression(o, q, computed);
      var x := Walk(c, p, q', MemberExpression(o', q', computed));
      WalkSeq(c, p, node, [o'], [q']) == Step(MemberExpression(o', x.node, computed), None, x.warnings)
  {
    var node := MemberExpression(o, q, computed);
    var x := Walk(c, p, q', MemberExpression(o', q', computed));
    PairFacts(o', q', x.node);
    WalkSeqUnfold(c, p, node, [o'], [q']);
    assert WalkSeq(c, p, node, [o', x.node], []) == Step(MemberExpression(o', x.node, computed), None, []);
  }

  /** The object visit of a member access; its re-casing lands on the property. */
  lemma MemberFirstChild(c: Catalogs, p: Pass, o: Node, q: Node, computed: bool)
    requires Sound(c, p)
    ensures var node := MemberExpression(o, q, computed);
      var v := Walk(c, p, o, node);
      var q' := RenameHead([q], v.rename)[0];
      var s := WalkSeq(c, p, node, [v.node], [q']);
      WalkSeq(c, p, node, [], Children(node)) == Step(s.node, None, v.warnings + s.warnings)
  {
    var node := MemberExpression(o, q, computed);
    var v := Walk(c, p, o, node);
    var later := RenameHead([q], v.rename);
    assert later == [later[0]];
    PairFacts(o, q, v.node);
    assert Children(node) == [o, q];
    assert WithChildren(node, [o, q]) == node;
    WalkSeqUnfold(c, p, node, [], [o, q]);
  }

  /**
   The walk of `o.q`: the object is visited first; a re-casing it asks for is
   applied to the property, and only then is the property visited, with the
   walked object already in place in its parent.
   */
  lemma MemberWalk(c: Catalogs, p: Pass, o: Node, q: Node, computed: bool, parent: Node)
    requires Sound(c, p)
    requires Enter(c, p, MemberExpression(o, q, computed), parent).node == MemberExpression(o, q, computed)
    ensures var node := MemberExpression(o, q, computed);
      var e := Enter(c, p, node, parent);
      var v := Walk(c, p, o, node);
      var q' := RenameHead([q], v.rename)[0];
      var x := Walk(c, p, q', MemberExpression(v.node, q', computed));
      Walk(c, p, node, parent) == Step(MemberExpression(v.node, x.node, computed), e.rename, e.warnings + v.warnings + x.warnings)
  {
    var node := MemberExpression(o, q, computed);
    var e := Enter(c, p, node, parent);
    WalkUnfoldKept(c, p, node, parent);
    MemberFirstChild(c, p, o, q, computed);
    var v := Walk(c, p, o, node);
    var q' := RenameHead([q], v.rename)[0];
    MemberSecondChild(c, p, o, q, computed, v.node, q');
    var x := Walk(c, p, q', MemberExpression(v.node, q', computed));
    var all := WalkSeq(c, p, node, [], Children(node));
    assert all == Step(MemberExpression(v.node, x.node, computed), None, v.warnings + x.warnings);
    assert e.warnings + (v.warnings + x.warnings) == e.warnings + v.warnings + x.warnings;
  }

  /** A member access whose object and property each walk to themselves walks its children to itself. */
  lemma MemberChildrenSettled(c: Catalogs, p: Pass, o: Node, q: Node, computed: bool)
    requires Sound(c, p)
    requires Walk(c, p, o, MemberExpression(o, q, computed)) == Step(o, None, [])
    requires Walk(c, p, q, MemberExpression(o, q, computed)) == Step(q, None, [])
    ensures var node := MemberExpression(o, q, computed);
      WalkSeq(c, p, node, [], Children(node)) == Step(node, None, [])
  {
    MemberFirstChild(c, p, o, q, computed);
    assert RenameHead([q], None)[0] == q;
    MemberSecondChild(c, p, o, q, computed, o, q);
  }

  /** A member access `enter` leaves alone, whose children walk to themselves, walks to itself. */
  lemma MemberSettled(c: Catalogs, p: Pass, o: Node, q: Node, computed: bool, parent: Node)
    requires Sound(c, p)
    requires Enter(c, p, MemberExpression(o, q, computed), parent) == Step(MemberExpression(o, q, computed), None, [])
    requires Walk(c, p, o, MemberExpression(o, q, computed)) == Step(o, None, [])
    requires Walk(c, p, q, MemberExpression(o, q, computed)) == Step(q, None, [])
    ensures Walk(c, p, MemberExpression(o, q, computed), parent) == Step(MemberExpression(o, q, computed), None, [])
  {
    WalkUnfoldKept(c, p, MemberExpression(o, q, computed), parent);
    MemberChildrenSettled(c, p, o, q, computed);
  }

  /** Stdlib and global: an identifier not known and resolved becomes `ns.Canonical`. */
  lemma QualifyingIdentifier(c: Catalogs, p: Pass, x: string, parent: Node)
    requires p == StdlibPass || p == GlobalPass
    requires Sound(c, p)
    ensures Walk(c, p, Identifier(x), parent).node == QualifiedBy(c, p, x, parent)
  {
    var e := Enter(c, p, Identifier(x), parent);
    if e.node == Identifier(x) {
      assert e.rename.None? && e.warnings == [];
      LeafSettled(c, p, Identifier(x), parent);
    }
  }

  // ---------------------------------------------------------------------
  // Items sub-pass

  /**
   A free identifier becomes `__items.Canonical` exactly when the element
   catalog resolves it, unless its parent is a member access on `__items`.
   */
  lemma ItemsIdentifier(c: Catalogs, n: string, parent: Node)
    ensures var r := Walk(c, ItemsPass, Identifier(n), parent).node;
      && (parent.MemberExpression? && parent.obj == Identifier(ITEMS) ==> r == Identifier(n))
      && (!(parent.MemberExpression? && parent.obj == Identifier(ITEMS)) ==>
            r == if Resolves(c.elementName(n)) then Qualified(ITEMS, c.elementName(n).value) else Identifier(n))
  {
    var e := Enter(c, ItemsPass, Identifier(n), parent);
    if e.node == Identifier(n) {
      assert e.rename.None? && e.warnings == [];
      LeafSettled(c, ItemsPass, Identifier(n), parent);
    }
  }

  /** The name an items rewrite gives the property `pn` of element `el`. */
  function ItemsRecased(c: Catalogs, el: string, pn: string): string {
    if Resolves(c.elementProperty(el, pn)) then c.elementProperty(el, pn).value else pn
  }

  /**
   `Obj.prop` with `Obj` a table element: the object becomes `__items.Obj`
   and the property takes the element's canonical property name if it has
   one. The property child is visited afterwards like any identifier, so if
   its (re-cased) name is itself a table element it becomes `__items.X`
   too: the sub-pass does not look at the identifier's position.
   */
  lemma ItemsMemberAccess(c: Catalogs, o: string, pn: string, computed: bool, parent: Node)
    requires o != ITEMS && pn != ""
    requires Resolves(c.elementName(o))
    ensures var el := c.elementName(o).value;
      var pn' := ItemsRecased(c, el, pn);
      Walk(c, ItemsPass, MemberExpression(Identifier(o), Identifier(pn), computed), parent)
        == Step(MemberExpression(
                  Qualified(ITEMS, el),
                  if Resolves(c.elementName(pn')) then Qualified(ITEMS, c.elementName(pn').value) else Identifier(pn'),
                  computed), None, [])
  {
    var node := MemberExpression(Identifier(o), Identifier(pn), computed);
    var el := c.elementName(o).value;
    var pn' := ItemsRecased(c, el, pn);
    MemberWalk(c, ItemsPass, Identifier(o), Identifier(pn), computed, parent);
    var v := Walk(c, ItemsPass, Identifier(o), node);
    assert v == Step(Qualified(ITEMS, el), RenameTo(c.elementProperty(el, pn)), []);
    assert RenameHead([Identifier(pn)], v.rename)[0] == Identifier(pn');
    ItemsIdentifier(c, pn', MemberExpression(Qualified(ITEMS, el), Identifier(pn'), computed));
  }

  /** An `__items.X` access is never qualified again, whatever X is. */
  lemma ItemsQualifiedUntouched(c: Catalogs, name: string, computed: bool, parent: Node)
    ensures var q := MemberExpression(Identifier(ITEMS), Identifier(name), computed);
      Walk(c, ItemsPass, q, parent) == Step(q, None, [])
  {
    var q := MemberExpression(Identifier(ITEMS), Identifier(name), computed);
    LeafSettled(c, ItemsPass, Identifier(ITEMS), q);
    LeafSettled(c, ItemsPass, Identifier(name), q);
    MemberSettled(c, ItemsPass, Identifier(ITEMS), Identifier(name), computed, parent);
  }

  // ---------------------------------------------------------------------
  // Enums sub-pass

  /**
   `Enum.Value` outside a call: rewritten to `__enums.Enum.Value` when both
   names resolve; a warning and no change when only the enum resolves; no
   change when the enum does not resolve.
   */
  lemma EnumsMemberAccess(c: Catalogs, e: string, v: string, computed: bool, parent: Node)
    requires Sound(c, EnumsPass)
    requires !parent.CallExpression?
    ensures var node := MemberExpression(Identifier(e), Identifier(v), computed);
      var r := Walk(c, EnumsPass, node, parent);
      && (Resolves(c.enumName(e)) && Resolves(c.enumValue(c.enumName(e).value, v)) ==>
            r == Step(MemberExpression(Qualified(ENUMS, c.enumName(e).value),
                                       Identifier(c.enumValue(c.enumName(e).value, v).value), computed), None, []))
      && (Resolves(c.enumName(e)) && !Resolves(c.enumValue(c.enumName(e).value, v)) ==>
            r == Step(node, None, [UnknownEnumValue(v, c.enumName(e).value)]))
      && (!Resolves(c.enumName(e)) ==> r == Step(node, None, []))
  {
    var node := MemberExpression(Identifier(e), Identifier(v), computed);
    var en := Enter(c, EnumsPass, node, parent);
    if en.node == node {
      WalkInert(c, EnumsPass, Identifier(e), node);
      WalkInert(c, EnumsPass, Identifier(v), node);
      WalkUnfoldKept(c, EnumsPass, node, parent);
      MemberChildrenSettled(c, EnumsPass, Identifier(e), Identifier(v), computed);
      assert en.warnings + [] == en.warnings;
    }
  }

  /** `Enum.Value` as the callee or an argument of a call is never rewritten. */
  lemma EnumsUnderCall(c: Catalogs, e: string, v: string, computed: bool, parent: Node)
    requires Sound(c, EnumsPass)
    requires parent.CallExpression?
    ensures var node := MemberExpression(Identifier(e), Identifier(v), computed);
      Walk(c, EnumsPass, node, parent) == Step(node, None, [])
  {
    var node := MemberExpression(Identifier(e), Identifier(v), computed);
    LeafSettled(c, EnumsPass, Identifier(e), node);
    LeafSettled(c, EnumsPass, Identifier(v), node);
    MemberSettled(c, EnumsPass, Identifier(e), Identifier(v), computed, parent);
  }

  /** A member access whose object and property are plain identifiers. */
  predicate EnumShaped(n: Node) {
    n.MemberExpression? && n.obj.Identifier? && n.prop.Identifier?
  }

  /**
   A call whose callee and arguments are each `Enum.Value` shaped or offer
   nothing to rewrite comes out unchanged and without warnings, even when
   the enum names resolve.
   */
  lemma EnumsSkipCall(c: Catalogs, callee: Node, args: seq<Node>, parent: Node)
    requires Sound(c, EnumsPass)
    requires forall i | 0 <= i < |Children(CallExpression(callee, args))| ::
      EnumShaped(Children(CallExpression(callee, args))[i]) || AllInert(c, EnumsPass, Children(CallExpression(callee, args))[i])
    ensures Walk(c, EnumsPass, CallExpression(callee, args), parent) == Step(CallExpression(callee, args), None, [])
  {
    var node := CallExpression(callee, args);
    forall i | 0 <= i < |Children(node)|
      ensures Walk(c, EnumsPass, Children(node)[i], node) == Step(Children(node)[i], None, [])
    {
      var ch := Children(node)[i];
      if EnumShaped(ch) {
        EnumsUnderCall(c, ch.obj.name, ch.prop.name, ch.computed, node);
      } else {
        WalkInert(c, EnumsPass, ch, node);
      }
    }
    Settled(c, EnumsPass, node, parent);
  }

  // ---------------------------------------------------------------------
  // Stdlib and global sub-passes

  /** The name a stdlib rewrite gives the property `pn` of entry `name`. */
  function StdlibRecased(c: Catalogs, name: string, pn: string): string {
    if c.stdlibHasEntry(name) && Resolves(c.stdlibProperty(name, pn)) then c.stdlibProperty(name, pn).value else pn
  }

  /** What the qualifying sub-pass `p` makes of identifier `x` under `parent`. */
  function QualifiedBy(c: Catalogs, p: Pass, x: string, parent: Node): Node
    requires p == StdlibPass || p == GlobalPass
  {
    var lookup := if p == StdlibPass then c.stdlibName(x) else c.globalName(x);
    var ns := if p == StdlibPass then STDLIB else GLOBAL;
    if !c.isKnown(Identifier(x), parent) && Resolves(lookup) then Qualified(ns, lookup.value) else Identifier(x)
  }

  /**
   `Obj.prop` with `Obj` an unknown standard-library name: the object becomes
   `__stdlib.Obj`, and the property takes the entry's canonical property name
   only when the entry exists and resolves it.
   */
  lemma StdlibMemberAccess(c: Catalogs, o: string, pn: string, computed: bool, parent: Node)
    requires Sound(c, StdlibPass)
    requires pn != ""
    requires !c.isKnown(Identifier(o), MemberExpression(Identifier(o), Identifier(pn), computed))
    requires Resolves(c.stdlibName(o))
    ensures var name := c.stdlibName(o).value;
      var pn' := StdlibRecased(c, name, pn);
      var after := MemberExpression(Qualified(STDLIB, name), Identifier(pn'), computed);
      Walk(c, StdlibPass, MemberExpression(Identifier(o), Identifier(pn), computed), parent)
        == Step(MemberExpression(Qualified(STDLIB, name), QualifiedBy(c, StdlibPass, pn', after), computed), None, [])
  {
    var node := MemberExpression(Identifier(o), Identifier(pn), computed);
    var name := c.stdlibName(o).value;
    var pn' := StdlibRecased(c, name, pn);
    MemberWalk(c, StdlibPass, Identifier(o), Identifier(pn), computed, parent);
    var v := Walk(c, StdlibPass, Identifier(o), node);
    assert v.node == Qualified(STDLIB, name);
    assert RenameHead([Identifier(pn)], v.rename)[0] == Identifier(pn');
    QualifyingIdentifier(c, StdlibPass, pn', MemberExpression(Qualified(STDLIB, name), Identifier(pn'), computed));
  }

  /**
   `Obj.prop` with `Obj` an unknown global API name: the object becomes
   `__global.Obj` and the property keeps its name; the global sub-pass never
   re-cases the parent.
   */
  lemma GlobalMemberAccess(c: Catalogs, o: string, pn: string, computed: bool, parent: Node)
    requires Sound(c, GlobalPass)
    requires !c.isKnown(Identifier(o), MemberExpression(Identifier(o), Identifier(pn), computed))
    requires Resolves(c.globalName(o))
    ensures var name := c.globalName(o).value;
      var after := MemberExpression(Qualified(GLOBAL, name), Identifier(pn), computed);
      Walk(c, GlobalPass, MemberExpression(Identifier(o), Identifier(pn), computed), parent)
        == Step(MemberExpression(Qualified(GLOBAL, name), QualifiedBy(c, GlobalPass, pn, after), computed), None, [])
  {
    var node := MemberExpression(Identifier(o), Identifier(pn), computed);
    var name := c.globalName(o).value;
    MemberWalk(c, GlobalPass, Identifier(o), Identifier(pn), computed, parent);
    var v := Walk(c, GlobalPass, Identifier(o), node);
    assert v == Step(Qualified(GLOBAL, name), None, []);
    assert RenameHead([Identifier(pn)], v.rename)[0] == Identifier(pn);
    QualifyingIdentifier(c, GlobalPass, pn, MemberExpression(Qualified(GLOBAL, name), Identifier(pn), computed));
  }

  /** A name already qualified by a namespace isKnown recognises is left alone. */
  lemma QualifiedSettled(c: Catalogs, p: Pass, ns: string, name: string, parent: Node)
    requires p == StdlibPass || p == GlobalPass
    requires Sound(c, p)
    requires RecognisesQualified(c.isKnown, ns)
    ensures Walk(c, p, Qualified(ns, name), parent) == Step(Qualified(ns, name), None, [])
  {
    var q := Qualified(ns, name);
    assert c.isKnown(Identifier(ns), q) && c.isKnown(Identifier(name), q);
    LeafSettled(c, p, Identifier(ns), q);
    LeafSettled(c, p, Identifier(name), q);
    MemberSettled(c, p, Identifier(ns), Identifier(name), false, parent);
  }

  // ---------------------------------------------------------------------
  // ExecuteGlobal sub-pass

  /**
   `ExecuteGlobal a, b, ...` (any letter case) becomes
   `eval(__vbsHelper.transpileInline(a'), b', ...)`, where `a'` is `a` after
   its own walk; a call without arguments gets an undefined one wrapped. When
   the arguments hold no `ExecuteGlobal` call of their own, they all come
   out unchanged.
   */
  lemma ExecuteGlobalCall(c: Catalogs, n: string, args: seq<Node>, parent: Node)
    requires Lower(n) == EXECUTE_GLOBAL
    ensures var r := Walk(c, ExecPass, CallExpression(Identifier(n), args), parent);
      var a0 := FirstArg(args);
      && r.node.CallExpression? && r.node.callee == Identifier(EVAL)
      && |r.node.args| == (if |args| > 0 then |args| else 1)
      && r.node.args[0] == InlineCall(Walk(c, ExecPass, a0, InlineCall(a0)).node)
      && r.rename.None? && r.warnings == []
    ensures AllInertSeq(c, ExecPass, args) ==>
      Walk(c, ExecPass, CallExpression(Identifier(n), args), parent)
        == Step(CallExpression(Identifier(EVAL), [InlineCall(FirstArg(args))] + LaterArgs(args)), None, [])
  {
    var node := CallExpression(Identifier(n), args);
    var r := CallExpression(Identifier(EVAL), [InlineCall(FirstArg(args))] + LaterArgs(args));
    assert Enter(c, ExecPass, node, parent).node == r;
    assert Walk(c, ExecPass, node, parent) == WalkExecuted(c, node);
    if AllInertSeq(c, ExecPass, args) {
      ExecutedArgsSettled(c, n, args);
    }
  }

  /**
   `ExecuteGlobal(ExecuteGlobal(x))`: the inner call is rewritten too, inside
   the outer call's `transpileInline` wrapper.
   */
  lemma ExecuteGlobalNested(c: Catalogs, n: string, m: string, x: Node, parent: Node)
    requires Lower(n) == EXECUTE_GLOBAL && Lower(m) == EXECUTE_GLOBAL
    requires AllInert(c, ExecPass, x)
    ensures Walk(c, ExecPass, CallExpression(Identifier(n), [CallExpression(Identifier(m), [x])]), parent).node
         == CallExpression(Identifier(EVAL), [InlineCall(CallExpression(Identifier(EVAL), [InlineCall(x)]))])
  {
    var inner := CallExpression(Identifier(m), [x]);
    ExecuteGlobalCall(c, n, [inner], parent);
    assert AllInertSeq(c, ExecPass, [x]) by {
      assert [x][1..] == [];
    }
    ExecuteGlobalCall(c, m, [x], InlineCall(inner));
    assert [InlineCall(x)] + LaterArgs([x]) == [InlineCall(x)];
    var r := Walk(c, ExecPass, CallExpression(Identifier(n), [inner]), parent).node;
    assert r.args == [r.args[0]];
  }

  /** The walk that follows the rewrite leaves the wrapped and the later arguments alone. */
  lemma ExecutedArgsSettled(c: Catalogs, n: string, args: seq<Node>)
    requires Lower(n) == EXECUTE_GLOBAL
    requires AllInertSeq(c, ExecPass, args)
    ensures WalkExecuted(c, CallExpression(Identifier(n), args))
         == Step(CallExpression(Identifier(EVAL), [InlineCall(FirstArg(args))] + LaterArgs(args)), None, [])
  {
    var node := CallExpression(Identifier(n), args);
    var a0 := FirstArg(args);
    assert EnterExec(node).node == CallExpression(Identifier(EVAL), [InlineCall(a0)] + LaterArgs(args));
    if |args| > 0 {
      WalkInert(c, ExecPass, a0, InlineCall(a0));
    }
    assert Walk(c, ExecPass, a0, InlineCall(a0)) == Step(a0, None, []);
    LaterArgsSettled(c, a0, args);
  }

  lemma LaterArgsSettled(c: Catalogs, a0: Node, args: seq<Node>)
    requires AllInertSeq(c, ExecPass, args)
    ensures var r := CallExpression(Identifier(EVAL), [InlineCall(a0)] + LaterArgs(args));
      WalkSeq(c, ExecPass, r, [Identifier(EVAL), InlineCall(a0)], LaterArgs(args)) == Step(r, None, [])
  {
    var later := LaterArgs(args);
    var r := CallExpression(Identifier(EVAL), [InlineCall(a0)] + later);
    LaterArgsInert(c, args);
    CallChildren(Identifier(EVAL), InlineCall(a0), later);
    WalkSeqInert(c, ExecPass, r, [Identifier(EVAL), InlineCall(a0)], later);
  }

  lemma LaterArgsInert(c: Catalogs, args: seq<Node>)
    requires AllInertSeq(c, ExecPass, args)
    ensures AllInertSeq(c, ExecPass, LaterArgs(args))
  {
  }

  /** The children of `x(y, later...)`, and that a call is rebuilt from them. */
  lemma CallChildren(x: Node, y: Node, later: seq<Node>)
    ensures var r := CallExpression(x, [y] + later);
      Children(r) == [x, y] + later && WithChildren(r, [x, y] + later) == r
  {
    var r := CallExpression(x, [y] + later);
    assert Children(r) == [x, y] + later;
    WithOwnChildren(r);
  }

  /**
   A call whose callee is not an `ExecuteGlobal` identifier is kept by
   `enter`, whatever its arguments hold: only its children are walked, so it
   stays a call with as many arguments and, when the callee is an
   identifier, the same callee. Without an `ExecuteGlobal` call anywhere
   inside, it comes out unchanged.
   */
  lemma OtherCallUntouched(c: Catalogs, callee: Node, args: seq<Node>, parent: Node)
    requires !(callee.Identifier? && Lower(callee.name) == EXECUTE_GLOBAL)
    ensures var call := CallExpression(callee, args);
      var r := Walk(c, ExecPass, call, parent);
      && Enter(c, ExecPass, call, parent) == Step(call, None, [])
      && r.node.CallExpression? && |r.node.args| == |args| && r.rename.None? && r.warnings == []
      && (callee.Identifier? ==> r.node.callee == callee)
    ensures AllInert(c, ExecPass, callee) && AllInertSeq(c, ExecPass, args) ==>
      Walk(c, ExecPass, CallExpression(callee, args), parent) == Step(CallExpression(callee, args), None, [])
  {
    var call := CallExpression(callee, args);
    WalkUnfoldKept(c, ExecPass, call, parent);
    if callee.Identifier? {
      var all := Children(call);
      WithOwnChildren(call);
      assert [] + all == all && all[0] == callee;
      WalkInert(c, ExecPass, callee, WithChildren(call, all));
      WalkSeqStep(c, ExecPass, call, all, 0);
      assert all[..1] == [callee];
      var s := WalkSeq(c, ExecPass, call, all[..1], all[1..]);
      assert Children(s.node)[..1] == [callee];
    }
    if AllInert(c, ExecPass, callee) && AllInertSeq(c, ExecPass, args) {
      WalkInert(c, ExecPass, call, parent);
    }
  }

  /** The ASCII upper case of a lower-case letter; other characters are kept. */
  function UpperChar(ch: char): char {
    if 'a' <= ch <= 'z' then (ch as int - 32) as char else ch
  }

  /**
   A name lowers to a word of lower-case ASCII letters exactly when it has
   the word's length and each of its characters is the word's letter at that
   position or that letter's upper case.
   */
  lemma LowerMatches(n: string, w: string)
    requires forall i | 0 <= i < |w| :: 'a' <= w[i] <= 'z'
    ensures Lower(n) == w <==> |n| == |w| && forall i | 0 <= i < |n| :: n[i] == w[i] || n[i] == UpperChar(w[i])
  {
    if |n| == |w| {
      forall i | 0 <= i < |n|
        ensures Lower(n)[i] == w[i] <==> n[i] == w[i] || n[i] == UpperChar(w[i])
      {
        assert Lower(n)[i] == LowerChar(n[i]);
      }
      if Lower(n) != w {
        var i :| 0 <= i < |n| && Lower(n)[i] != w[i];
      }
    }
  }

  /**
   The callee test of the `ExecuteGlobal` sub-pass ignores letter case: a
   name matches exactly when it spells "executeglobal" with each letter in
   either case.
   */
  lemma ExecuteGlobalAnyCase(n: string)
    ensures Lower(n) == EXECUTE_GLOBAL <==>
      |n| == |EXECUTE_GLOBAL| &&
      forall i | 0 <= i < |n| :: n[i] == EXECUTE_GLOBAL[i] || n[i] == UpperChar(EXECUTE_GLOBAL[i])
  {
    LowerMatches(n, EXECUTE_GLOBAL);
  }

  // ---------------------------------------------------------------------
  // The whole pass

  /** A program offering no sub-pass anything to rewrite is returned as it is. */
  lemma TransformInert(c: Catalogs, ast: Node)
    requires SoundAll(c)
    requires AllInert(c, ItemsPass, ast) && AllInert(c, EnumsPass, ast) && AllInert(c, StdlibPass, ast)
    requires AllInert(c, GlobalPass, ast) && AllInert(c, ExecPass, ast)
    ensures Transform(c, ast) == Transformed(ast, [])
  {
    WalkInert(c, ItemsPass, ast, ast);
    WalkInert(c, EnumsPass, ast, ast);
    WalkInert(c, StdlibPass, ast, ast);
    WalkInert(c, GlobalPass, ast, ast);
    WalkInert(c, ExecPass, ast, ast);
  }

  /**
   Every sub-pass after the items one leaves an `__items.X` as it is, under
   any parent: the enum sub-pass because the enum catalog does not resolve
   `__items`, the stdlib and global sub-passes because `isKnown` recognises
   its identifiers, and the `ExecuteGlobal` sub-pass because it is no call.
   */
  lemma LaterPassesKeepItems(c: Catalogs, p: Pass, name: string, parent: Node)
    requires p != ItemsPass && Sound(c, p)
    requires p == EnumsPass ==> !Resolves(c.enumName(ITEMS))
    requires p == StdlibPass || p == GlobalPass ==> RecognisesQualified(c.isKnown, ITEMS)
    ensures Walk(c, p, Qualified(ITEMS, name), parent) == Step(Qualified(ITEMS, name), None, [])
  {
    if p == StdlibPass || p == GlobalPass {
      QualifiedSettled(c, p, ITEMS, name, parent);
    } else {
      assert AllInert(c, p, Identifier(ITEMS)) && AllInert(c, p, Identifier(name));
      assert AllInert(c, p, Qualified(ITEMS, name));
      WalkInert(c, p, Qualified(ITEMS, name), parent);
    }
  }

  /** The items sub-pass on a one-statement program naming an element. */
  lemma FirstMatchItems(c: Catalogs, st: string, n: string)
    requires Resolves(c.elementName(n))
    ensures ReplaceElementObjectNames(c, Program(st, [ExpressionStatement(Identifier(n))]))
         == Program(st, [ExpressionStatement(Qualified(ITEMS, c.elementName(n).value))])
  {
    var q := Qualified(ITEMS, c.elementName(n).value);
    var stmt := ExpressionStatement(Identifier(n));
    var ast := Program(st, [stmt]);
    var stmt1 := ExpressionStatement(q);
    var ast1 := Program(st, [stmt1]);
    ItemsIdentifier(c, n, stmt);
    assert Walk(c, ItemsPass, stmt, ast) == Step(stmt1, None, []) by {
      WalkUnfoldKept(c, ItemsPass, stmt, ast);
      WalkSeqUnfold(c, ItemsPass, stmt, [], [Identifier(n)]);
      assert [] + [Identifier(n)] == [Identifier(n)];
      assert [] + [q] == [q];
      assert WalkSeq(c, ItemsPass, stmt, [q], []) == Step(stmt1, None, []);
    }
    WalkUnfoldKept(c, ItemsPass, ast, ast);
    WalkSeqUnfold(c, ItemsPass, ast, [], [stmt]);
    assert [] + [stmt] == [stmt];
    assert [] + [stmt1] == [stmt1];
    assert WalkSeq(c, ItemsPass, ast, [stmt1], []) == Step(ast1, None, []);
  }

  /** Every sub-pass after the items one leaves a program whose statement is `__items.X` alone. */
  lemma FirstMatchLater(c: Catalogs, p: Pass, st: string, name: string)
    requires p != ItemsPass && Sound(c, p)
    requires p == EnumsPass ==> !Resolves(c.enumName(ITEMS))
    requires p == StdlibPass || p == GlobalPass ==> RecognisesQualified(c.isKnown, ITEMS)
    ensures var ast1 := Program(st, [ExpressionStatement(Qualified(ITEMS, name))]);
      Walk(c, p, ast1, ast1) == Step(ast1, None, [])
  {
    var stmt1 := ExpressionStatement(Qualified(ITEMS, name));
    var ast1 := Program(st, [stmt1]);
    LaterPassesKeepItems(c, p, name, stmt1);
    Settled(c, p, stmt1, ast1);
    Settled(c, p, ast1, ast1);
  }

  /**
   First match wins: a statement naming a table element becomes
   `__items.Element` even when the standard library and the global API know
   the same name, because the later sub-passes leave an `__items.X` alone.
   */
  lemma TransformFirstMatch(c: Catalogs, st: string, n: string)
    requires SoundAll(c)
    requires RecognisesQualified(c.isKnown, ITEMS)
    requires !Resolves(c.enumName(ITEMS))
    requires Resolves(c.elementName(n))
    ensures var q := Qualified(ITEMS, c.elementName(n).value);
      Transform(c, Program(st, [ExpressionStatement(Identifier(n))]))
        == Transformed(Program(st, [ExpressionStatement(q)]), [])
  {
    var el := c.elementName(n).value;
    FirstMatchItems(c, st, n);
    FirstMatchLater(c, EnumsPass, st, el);
    FirstMatchLater(c, StdlibPass, st, el);
    FirstMatchLater(c, GlobalPass, st, el);
    FirstMatchLater(c, ExecPass, st, el);
  }

  // ---------------------------------------------------------------------
  // Precedence between the sub-passes

  /** A one-statement program offers a sub-pass nothing when its expression offers nothing. */
  lemma OneStatementInert(c: Catalogs, p: Pass, st: string, x: Node)
    requires AllInert(c, p, x)
    ensures AllInert(c, p, Program(st, [ExpressionStatement(x)]))
  {
    assert [ExpressionStatement(x)][1..] == [];
  }

  /** `ns.name` offers a sub-pass nothing when neither identifier does. */
  lemma QualifiedInert(c: Catalogs, p: Pass, ns: string, name: string)
    requires Inert(c, p, Identifier(ns)) && Inert(c, p, Identifier(name))
    requires Inert(c, p, Qualified(ns, name))
    ensures AllInert(c, p, Qualified(ns, name))
  {
    assert AllInert(c, p, Identifier(ns)) && AllInert(c, p, Identifier(name));
  }

  /** An expression statement walks to the statement around its walked expression. */
  lemma StatementWalk(c: Catalogs, p: Pass, x: Node, parent: Node)
    requires Sound(c, p)
    requires Inert(c, p, ExpressionStatement(x))
    ensures var v := Walk(c, p, x, ExpressionStatement(x));
      Walk(c, p, ExpressionStatement(x), parent) == Step(ExpressionStatement(v.node), None, v.warnings)
  {
    var stmt := ExpressionStatement(x);
    var v := Walk(c, p, x, stmt);
    EnterInert(c, p, stmt, parent);
    WalkUnfoldKept(c, p, stmt, parent);
    WalkSeqUnfold(c, p, stmt, [], [x]);
    assert [] + [x] == [x] && [] + [v.node] == [v.node];
    assert WalkSeq(c, p, stmt, [v.node], []) == Step(ExpressionStatement(v.node), None, []);
    assert [] + (v.warnings + []) == v.warnings;
  }

  /** A program of one expression statement walks as its expression does. */
  lemma OneStatementWalk(c: Catalogs, p: Pass, st: string, x: Node)
    requires Sound(c, p)
    ensures var v := Walk(c, p, x, ExpressionStatement(x));
      var prog := Program(st, [ExpressionStatement(x)]);
      Walk(c, p, prog, prog) == Step(Program(st, [ExpressionStatement(v.node)]), None, v.warnings)
  {
    var stmt := ExpressionStatement(x);
    var prog := Program(st, [stmt]);
    var v := Walk(c, p, x, stmt);
    var stmt1 := ExpressionStatement(v.node);
    StatementWalk(c, p, x, prog);
    EnterInert(c, p, prog, prog);
    WalkUnfoldKept(c, p, prog, prog);
    WalkSeqUnfold(c, p, prog, [], [stmt]);
    assert [] + [stmt] == [stmt] && [] + [stmt1] == [stmt1];
    assert WalkSeq(c, p, prog, [stmt1], []) == Step(Program(st, [stmt1]), None, []);
    assert [] + (v.warnings + []) == v.warnings;
  }

  /**
   Stdlib before global: a name the element catalog does not resolve and the
   standard library does becomes `__stdlib.Name`, whatever the global API
   makes of it, because the global sub-pass runs later and leaves `__stdlib.X`
   alone.
   */
  lemma TransformStdlibOverGlobal(c: Catalogs, st: string, n: string)
    requires SoundAll(c)
    requires !Resolves(c.elementName(n))
    requires !c.isKnown(Identifier(n), ExpressionStatement(Identifier(n)))
    requires Resolves(c.stdlibName(n))
    ensures Transform(c, Program(st, [ExpressionStatement(Identifier(n))]))
         == Transformed(Program(st, [ExpressionStatement(Qualified(STDLIB, c.stdlibName(n).value))]), [])
  {
    var stmt := ExpressionStatement(Identifier(n));
    var prog := Program(st, [stmt]);
    var q := Qualified(STDLIB, c.stdlibName(n).value);
    var prog1 := Program(st, [ExpressionStatement(q)]);
    OneStatementInert(c, ItemsPass, st, Identifier(n));
    OneStatementInert(c, EnumsPass, st, Identifier(n));
    WalkInert(c, ItemsPass, prog, prog);
    WalkInert(c, EnumsPass, prog, prog);
    OneStatementWalk(c, StdlibPass, st, Identifier(n));
    QualifyingIdentifier(c, StdlibPass, n, stmt);
    OneStatementWalk(c, GlobalPass, st, q);
    QualifiedSettled(c, GlobalPass, STDLIB, c.stdlibName(n).value, ExpressionStatement(q));
    QualifiedInert(c, ExecPass, STDLIB, c.stdlibName(n).value);
    OneStatementInert(c, ExecPass, st, q);
    WalkInert(c, ExecPass, prog1, prog1);
  }

  /** A rewritten `__enums.Enum.Value` whose value the pass does not resolve is left alone. */
  lemma EnumsResultKept(c: Catalogs, p: Pass, enum: string, value: string, computed: bool, parent: Node)
    requires p == StdlibPass || p == GlobalPass
    requires Sound(c, p)
    requires RecognisesQualified(c.isKnown, ENUMS)
    requires !Resolves(c.stdlibName(value)) && !Resolves(c.globalName(value))
    ensures var r := MemberExpression(Qualified(ENUMS, enum), Identifier(value), computed);
      Walk(c, p, r, parent) == Step(r, None, [])
  {
    var r := MemberExpression(Qualified(ENUMS, enum), Identifier(value), computed);
    QualifiedSettled(c, p, ENUMS, enum, r);
    WalkInert(c, p, Identifier(value), r);
    MemberSettled(c, p, Qualified(ENUMS, enum), Identifier(value), computed, parent);
  }

  /**
   Enums before stdlib: `Enum.Value` becomes `__enums.Enum.Value` even when
   the standard library resolves `Enum`, because the enum sub-pass runs
   first and the stdlib and global sub-passes leave its result alone.
   */
  lemma TransformEnumsOverStdlib(c: Catalogs, st: string, e: string, v: string, computed: bool)
    requires SoundAll(c)
    requires RecognisesQualified(c.isKnown, ENUMS)
    requires !Resolves(c.elementName(e)) && !Resolves(c.elementName(v))
    requires Resolves(c.enumName(e)) && Resolves(c.enumValue(c.enumName(e).value, v))
    requires var value := c.enumValue(c.enumName(e).value, v).value;
      !Resolves(c.stdlibName(value)) && !Resolves(c.globalName(value))
    ensures var r := MemberExpression(Qualified(ENUMS, c.enumName(e).value),
                                      Identifier(c.enumValue(c.enumName(e).value, v).value), computed);
      Transform(c, Program(st, [ExpressionStatement(MemberExpression(Identifier(e), Identifier(v), computed))]))
        == Transformed(Program(st, [ExpressionStatement(r)]), [])
  {
    var enum := c.enumName(e).value;
    var value := c.enumValue(enum, v).value;
    var m := MemberExpression(Identifier(e), Identifier(v), computed);
    var stmt := ExpressionStatement(m);
    var prog := Program(st, [stmt]);
    var r := MemberExpression(Qualified(ENUMS, enum), Identifier(value), computed);
    var prog1 := Program(st, [ExpressionStatement(r)]);
    assert AllInert(c, ItemsPass, Identifier(e)) && AllInert(c, ItemsPass, Identifier(v));
    assert AllInert(c, ItemsPass, m);
    OneStatementInert(c, ItemsPass, st, m);
    WalkInert(c, ItemsPass, prog, prog);
    OneStatementWalk(c, EnumsPass, st, m);
    EnumsMemberAccess(c, e, v, computed, stmt);
    OneStatementWalk(c, StdlibPass, st, r);
    EnumsResultKept(c, StdlibPass, enum, value, computed, ExpressionStatement(r));
    OneStatementWalk(c, GlobalPass, st, r);
    EnumsResultKept(c, GlobalPass, enum, value, computed, ExpressionStatement(r));
    QualifiedInert(c, ExecPass, ENUMS, enum);
    assert AllInert(c, ExecPass, Identifier(value));
    assert AllInert(c, ExecPass, r);
    OneStatementInert(c, ExecPass, st, r);
    WalkInert(c, ExecPass, prog1, prog1);
  }

  /**
   Global before `ExecuteGlobal`: when the global API resolves the callee
   name of `ExecuteGlobal()` itself, the callee is qualified first, and the
   later `ExecuteGlobal` sub-pass no longer recognises the call.
   */
  lemma TransformGlobalBeforeExec(c: Catalogs, st: string, n: string)
    requires SoundAll(c)
    requires Lower(n) == EXECUTE_GLOBAL
    requires !Resolves(c.elementName(n)) && !Resolves(c.stdlibName(n))
    requires !c.isKnown(Identifier(n), CallExpression(Identifier(n), []))
    requires Resolves(c.globalName(n))
    ensures var g := Qualified(GLOBAL, c.globalName(n).value);
      Transform(c, Program(st, [ExpressionStatement(CallExpression(Identifier(n), []))]))
        == Transformed(Program(st, [ExpressionStatement(CallExpression(g, []))]), [])
  {
    var call := CallExpression(Identifier(n), []);
    var stmt := ExpressionStatement(call);
    var prog := Program(st, [stmt]);
    var g := Qualified(GLOBAL, c.globalName(n).value);
    var call1 := CallExpression(g, []);
    var prog1 := Program(st, [ExpressionStatement(call1)]);
    forall p | p == ItemsPass || p == EnumsPass || p == StdlibPass
      ensures AllInert(c, p, prog)
    {
      assert AllInert(c, p, Identifier(n)) && AllInertSeq(c, p, []);
      assert AllInert(c, p, call);
      OneStatementInert(c, p, st, call);
    }
    WalkInert(c, ItemsPass, prog, prog);
    WalkInert(c, EnumsPass, prog, prog);
    WalkInert(c, StdlibPass, prog, prog);
    OneStatementWalk(c, GlobalPass, st, call);
    assert Walk(c, GlobalPass, call, stmt) == Step(call1, None, []) by {
      QualifyingIdentifier(c, GlobalPass, n, call);
      WalkUnfoldKept(c, GlobalPass, call, stmt);
      assert Children(call) == [Identifier(n)] && WithChildren(call, [] + [Identifier(n)]) == call;
      WalkSeqUnfold(c, GlobalPass, call, [], [Identifier(n)]);
      assert [] + [g] == [g];
      assert WalkSeq(c, GlobalPass, call, [g], []) == Step(call1, None, []);
    }
    QualifiedInert(c, ExecPass, GLOBAL, c.globalName(n).value);
    assert AllInertSeq(c, ExecPass, []);
    assert AllInert(c, ExecPass, call1);
    OneStatementInert(c, ExecPass, st, call1);
    WalkInert(c, ExecPass, prog1, prog1);
  }
}
