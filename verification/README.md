# VPDB scripting and bumper record: a Dafny model

This project models three pieces of the VPDB table player.

- **The reference-resolution pass** (`ReferenceTransformer`). It belongs to the VBScript to JavaScript transpiler. In a table script every name is global. The pass rewrites free names into the namespaces the generated code receives. There are five sub-passes, run in a fixed order, and each one is a whole-tree walk:
  1. table elements become `__items.X`;
  2. `Enum.Value` becomes `__enums.Enum.Value`;
  3. standard-library names become `__stdlib.X`;
  4. global API names become `__global.X`;
  5. `ExecuteGlobal(a)` becomes `eval(__vbsHelper.transpileInline(a))`.
- **The ESTree node factory** (`estree.ts`). The grammar calls it to build programs, `Dim` and `Const` declarations, literals and argument-less call statements.
- **The bumper item record** (`BumperData`). This covers the field defaults, the tag dispatcher `fromTag` and `getName`.

Files:

- `ast.dfy` (module `Ast`) holds the ESTree subset as an immutable datatype. `Absent` stands for a JavaScript `null`/`undefined` slot. Every other node type is an `Other` node carrying its ESTree type and children.
- `reference.dfy` (module `Reference`) holds the five `enter` callbacks and the estraverse `replace` walk. The walk is modelled explicitly, not as a library call:
  - the walk is pre-order;
  - the root is its own parent;
  - the node `enter` returns takes the visited node's place, and its children are walked next;
  - a member expression is visited object first, then property;
  - the parent a child sees already holds its walked earlier children.

  The in-place re-casing of `parent.property.name` is a `rename` that the walk applies to the property slot before the property is visited.

  The catalogs (`Table.getElementApiName`, the item APIs, `EnumsApi`, `Stdlib`, `GlobalApi`) are uninterpreted functions in a `Catalogs` value. So is `Transformer.isKnown`.
- `reference_proofs.dfy` (module `ReferenceProofs`) holds the properties of the pass.
- `estree.dfy` (module `Estree`) holds the factory, together with read-back functions for the round trips.
- `bumper.dfy` (module `Bumper`) holds the record, the dispatcher and an independent table `Written` of the fields each tag writes. Buffer decoding is abstracted as a `Block` of already-decoded values.

Behaviours of the source that the model keeps on purpose:

- The items sub-pass does not look at an identifier's position. In `Obj.Prop` where `Obj` is a table element, the property is visited after `Obj` was rewritten. If the property's (re-cased) name is itself an element, it becomes `__items.X` as well (`ReferenceProofs.ItemsMemberAccess`).
- A catalog answer counts only when it is JavaScript-truthy, so an empty string is treated as "not found".
- In the enum sub-pass a rewritten `Enum.Value` keeps its node, and its children (`__enums.Enum` and the value) are walked next. The walk is sure to end when the enum catalog does not resolve the name `__enums`; otherwise it may not end.
- The stdlib and global sub-passes return a fresh `ns.X`, whose children are walked next. Their walks are sure to end when `isKnown` recognises both identifiers of a fresh `ns.X`; otherwise they may not end.
- These three conditions are the `Sound` preconditions. They are sufficient for the walks to end, not necessary. The "settled" lemmas prove that walking the children of each replacement leaves them as they are.

## Model

| member | source | states |
|---|---|---|
| Reference.Enter | lib/scripting/transformer/reference-transformer.ts:89-211 | Outside the `ExecuteGlobal` sub-pass, an `enter` callback changes the constructor only of an identifier. Any other node keeps its constructor, its non-child fields and its number of children: the enum rewrite keeps the member access and its `computed` flag. A re-casing is requested only by an identifier whose parent has a named property, and only the enum callback logs warnings. |
| Reference.Walk | lib/scripting/transformer/reference-transformer.ts:89-211 | A walk keeps absent slots absent. A node that is not an identifier keeps its constructor and every field that is not a child, such as a program's source type, a declaration's kind and a member access's `computed` flag; `Other` nodes keep their type name. It also keeps its number of children, except a rewritten `ExecuteGlobal` call. A parent rename is requested only by an identifier whose parent has a named property. Only the enum sub-pass emits warnings. |
| Reference.WalkSeq | lib/scripting/transformer/reference-transformer.ts:89-211 | Walking the children of a node keeps its constructor, its non-child fields and its number of children. It never changes a child already walked, and it requests no rename of its own. |
| Reference.WalkExecuted | lib/scripting/transformer/reference-transformer.ts:196-211 | After the rewrite, the result is a call whose callee is `eval`. Its first argument is `__vbsHelper.transpileInline(a')`, where `a'` is the original first argument after its own walk under that wrapper. It has as many arguments as the original call, and one when the original had none. It requests no re-casing and logs no warnings. |
| Reference.Transform | lib/scripting/transformer/reference-transformer.ts:75-82 | The program returned is still a program, with the same source type and the same number of statements. The order of the five sub-passes is pinned by `TransformFirstMatch`, `TransformEnumsOverStdlib`, `TransformStdlibOverGlobal` and `TransformGlobalBeforeExec`; each of these fails for a different order. |
| ReferenceProofs.WalkInert | lib/scripting/transformer/reference-transformer.ts:108 | A tree in which `enter` finds nothing to rewrite walks to itself, with no rename and no warning. |
| ReferenceProofs.MemberWalk | lib/scripting/transformer/reference-transformer.ts:96-101 | In `o.q` the object is walked first. A re-casing that the object's visit requests is applied to the property before the property is walked, and the property then sees the walked object in its parent. |
| ReferenceProofs.MemberSettled | lib/scripting/transformer/reference-transformer.ts:89-110 | A member access that `enter` returns unchanged, and whose object and property each walk to themselves, walks to itself. |
| ReferenceProofs.ItemsIdentifier | lib/scripting/transformer/reference-transformer.ts:91-108 | An identifier becomes `__items.Canonical` exactly when the element catalog resolves it and its parent is not a member access on `__items`. Otherwise it is unchanged. |
| ReferenceProofs.ItemsMemberAccess | lib/scripting/transformer/reference-transformer.ts:96-105 | `Element.prop` becomes `__items.Element.prop'`. `prop'` is the element's canonical property name when the element API resolves it, and `prop` otherwise. `prop'` is itself qualified when it names an element. |
| ReferenceProofs.ItemsQualifiedUntouched | lib/scripting/transformer/reference-transformer.ts:91 | An existing `__items.X` is never qualified again, whatever X is. |
| ReferenceProofs.ItemsReplacementSettled | lib/scripting/transformer/reference-transformer.ts:102-105 | Walking the children of a freshly returned `__items.X` leaves it as it is (no double qualification). |
| ReferenceProofs.EnumsMemberAccess | lib/scripting/transformer/reference-transformer.ts:116-136 | `Enum.Value` outside a call has three outcomes. It becomes `__enums.Enum.CanonicalValue` when both names resolve. It is unchanged with one warning naming the value and the enum when only the enum resolves. It is unchanged without warning when the enum does not resolve. |
| ReferenceProofs.EnumsUnderCall | lib/scripting/transformer/reference-transformer.ts:116-118 | `Enum.Value` whose parent is a call is never rewritten, whether it is the callee or an argument. |
| ReferenceProofs.EnumsSkipCall | lib/scripting/transformer/reference-transformer.ts:116-118 | A call whose callee and arguments are `Enum.Value` shaped, or offer nothing to rewrite, comes out unchanged and without warnings. |
| ReferenceProofs.EnumsReplacementSettled | lib/scripting/transformer/reference-transformer.ts:127-131 | Walking the children of a rewritten `__enums.Enum.Value` leaves them as they are. |
| ReferenceProofs.QualifyingIdentifier | lib/scripting/transformer/reference-transformer.ts:143-181 | In the stdlib and global sub-passes, an identifier becomes `ns.Canonical` exactly when it is not known and the respective catalog resolves it. Otherwise it is unchanged. |
| ReferenceProofs.StdlibMemberAccess | lib/scripting/transformer/reference-transformer.ts:163-176 | An unknown stdlib name `Obj.prop` becomes `__stdlib.Obj.prop'`. The property is re-cased only when the stdlib has an entry for the name and that entry resolves the property. |
| ReferenceProofs.GlobalMemberAccess | lib/scripting/transformer/reference-transformer.ts:146-153 | An unknown global API name `Obj.prop` becomes `__global.Obj.prop`. The global sub-pass never re-cases the parent's property. |
| ReferenceProofs.StdlibReplacementSettled | lib/scripting/transformer/reference-transformer.ts:173-176 | Walking the children of a fresh `__stdlib.X` leaves it as it is. |
| ReferenceProofs.GlobalReplacementSettled | lib/scripting/transformer/reference-transformer.ts:149-152 | Walking the children of a fresh `__global.X` leaves it as it is. |
| ReferenceProofs.QualifiedSettled | lib/scripting/transformer/reference-transformer.ts:146 | A name already qualified by a namespace that `isKnown` recognises is left alone by the stdlib and global sub-passes. |
| ReferenceProofs.ExecuteGlobalCall | lib/scripting/transformer/reference-transformer.ts:198-208 | `ExecuteGlobal(a, b, ...)` in any letter case becomes a call of `eval` whose first argument is `__vbsHelper.transpileInline(a')`, with `a'` being `a` after its own walk. The argument count is kept, and a call without arguments gets an undefined first argument wrapped. No re-casing and no warnings. When no argument holds an `ExecuteGlobal` call, the result is exactly `eval(__vbsHelper.transpileInline(a), b, ...)`. |
| ReferenceProofs.ExecuteGlobalNested | lib/scripting/transformer/reference-transformer.ts:198-208 | `ExecuteGlobal(ExecuteGlobal(x))` becomes `eval(__vbsHelper.transpileInline(eval(__vbsHelper.transpileInline(x))))`: the inner call is rewritten too. |
| ReferenceProofs.ExecutedArgsSettled | lib/scripting/transformer/reference-transformer.ts:198-208 | When nothing in the arguments offers a rewrite, the walk after the rewrite returns `eval(__vbsHelper.transpileInline(a), b, ...)` exactly, with no warnings. |
| ReferenceProofs.ExecFreshPartsSettled | lib/scripting/transformer/reference-transformer.ts:200-207 | After the rewrite, the `eval` callee, the `transpileInline` call and its callee are not rewritten again. |
| ReferenceProofs.OtherCallUntouched | lib/scripting/transformer/reference-transformer.ts:197-210 | `enter` returns a call whose callee is not an identifier equal to "executeglobal" ignoring case unchanged, whatever its arguments hold. The walk then yields a call with as many arguments, the same callee when that is an identifier, no re-casing and no warnings. When nothing inside holds an `ExecuteGlobal` call, the call comes out unchanged. |
| ReferenceProofs.ExecuteGlobalAnyCase | lib/scripting/transformer/reference-transformer.ts:199 | A callee name matches exactly when it has 13 characters and each is the letter of "executeglobal" at that position or its upper case. |
| ReferenceProofs.LowerMatches | lib/scripting/transformer/reference-transformer.ts:199 | For any word of lower-case ASCII letters, a name lower-cases to that word exactly when it has the same length and each character is the word's letter or that letter's upper case. |
| ReferenceProofs.TransformInert | lib/scripting/transformer/reference-transformer.ts:75-82 | A program that offers no sub-pass anything to rewrite is returned unchanged and without warnings. |
| ReferenceProofs.FirstMatchItems | lib/scripting/transformer/reference-transformer.ts:88-111 | The items sub-pass turns a one-statement program naming an element into one naming `__items.Element`, whatever the source type. |
| ReferenceProofs.LaterPassesKeepItems | lib/scripting/transformer/reference-transformer.ts:113-211 | Each sub-pass after the items one leaves `__items.X` as it is, under any parent. The enum pass needs the enum catalog not to resolve `__items`, and the stdlib and global passes need `isKnown` to recognise the two identifiers. |
| ReferenceProofs.FirstMatchLater | lib/scripting/transformer/reference-transformer.ts:113-211 | The enum, stdlib, global and `ExecuteGlobal` sub-passes each leave a program whose statement is `__items.X` as it is. |
| ReferenceProofs.TransformFirstMatch | lib/scripting/transformer/reference-transformer.ts:35-43 | Items come first. A one-statement program naming a name the element catalog resolves ends up as `__items.Element`, even when the enum catalog, the stdlib and the global API know the name too. |
| ReferenceProofs.TransformEnumsOverStdlib | lib/scripting/transformer/reference-transformer.ts:75-82 | Enums before stdlib. A one-statement `Enum.Value` that the element catalog does not know ends up as `__enums.Enum.Value`, whatever the stdlib makes of `Enum`. This holds when `isKnown` recognises the identifiers of `__enums.X` and neither the stdlib nor the global API resolves the canonical value. |
| ReferenceProofs.TransformStdlibOverGlobal | lib/scripting/transformer/reference-transformer.ts:75-82 | Stdlib before global. A one-statement name that the element catalog does not resolve, that `isKnown` does not recognise and that the stdlib resolves ends up as `__stdlib.Name`, whatever the global API makes of it. |
| ReferenceProofs.TransformGlobalBeforeExec | lib/scripting/transformer/reference-transformer.ts:75-82 | Global before `ExecuteGlobal`. When the global API resolves the callee name of a bare `ExecuteGlobal()` statement (and neither the element catalog nor the stdlib does), the callee becomes `__global.Name`. The call is then no longer rewritten to `eval`. |
| ReferenceProofs.OneStatementWalk | lib/scripting/transformer/reference-transformer.ts:89-211 | A program of one expression statement walks, in any sub-pass, to the same program around the walked expression, with the expression's warnings. |
| ReferenceProofs.EnumsResultKept | lib/scripting/transformer/reference-transformer.ts:143-181 | The stdlib and global sub-passes leave a rewritten `__enums.Enum.Value` alone when `isKnown` recognises `__enums.X` and neither catalog resolves the value. |
| Estree.ProgramOf | lib/scripting/estree.ts:26-32 | `program` yields a `Program` of source type "script" whose statements are exactly the given ones. |
| Estree.LiteralOf | lib/scripting/estree.ts:69-74 | `literal(v)` is a leaf `Literal` whose value is exactly `v`. |
| Estree.Declarator | lib/scripting/estree.ts:48-54 | The declarator's id is `Identifier(name)`. `init` is null exactly when the value is JavaScript-falsy (null, false, 0, ""); otherwise it is `literal(value)`. |
| Estree.DeclaratorInitRoundTrip | lib/scripting/estree.ts:52 | Reading a declarator back gives its name. It also gives its value, except that a falsy value reads back as null. |
| Estree.DimDeclarators | lib/scripting/estree.ts:42-44 | One declarator per name, in order, each without initialiser. |
| Estree.VarDecl | lib/scripting/estree.ts:38-46 | `varDecl` yields a `let` declaration with one declarator more than there are further names. |
| Estree.VarDeclNames | lib/scripting/estree.ts:42-44 | The names `varDecl` declares, read back, are the first name followed by the others, in order. |
| Estree.VarDeclUninitialised | lib/scripting/estree.ts:42-48 | Every declarator `varDecl` produces has a null initialiser. |
| Estree.ConstDeclarators | lib/scripting/estree.ts:63-65 | One declarator per item, in order, each built from the item's name and value. |
| Estree.ConstDecl | lib/scripting/estree.ts:59-67 | `constDecl` yields a `const` declaration with one declarator more than there are further names. |
| Estree.ConstDeclNames | lib/scripting/estree.ts:63-65 | The names `constDecl` declares, read back, are the items' names in order. |
| Estree.ConstDeclValues | lib/scripting/estree.ts:63-65 | The i-th constant reads back the i-th item's value, and null when that value is falsy. |
| Estree.CallStatement | lib/scripting/estree.ts:76-111 | `expressionStatement` yields an expression statement holding a call with no arguments. With two or more name matches the callee is a non-computed member expression. |
| Estree.CallStatementPath | lib/scripting/estree.ts:79-105 | The callee, read back, is the non-computed `data[0][0].data[1][0]` when there are two or more name matches, and `data[0][0]` otherwise. A computed `data[0][0][data[1][0]]` would not read back as that path. |
| Estree.CallStatementIgnoresRest | lib/scripting/estree.ts:79-95 | Name matches after the second do not change the statement. |
| Bumper.New | lib/vpt/bumper/bumper-data.ts:27-50 | A fresh record has radius, threshold and height scale 1.0, ring speed 0.5, orientation and ring drop offset 0.0, the timer off, the seven visibility, hit, collide and reflection flags true, and the optional fields unset. |
| Bumper.FromTag | lib/vpt/bumper/bumper-data.ts:106 | The dispatcher always returns 0. |
| Bumper.ParseCode | lib/vpt/bumper/bumper-data.ts:67-104 | Each known tag's four-character code selects that tag's case of the switch. |
| Bumper.ParseKnown | lib/vpt/bumper/bumper-data.ts:67-104 | A string selects a known case only when it is that case's code; every other string reaches `default`. |
| Bumper.DispatchSets | lib/vpt/bumper/bumper-data.ts:68-101 | A field that a tag writes according to the `Written` table receives the tag's decoded value. |
| Bumper.DispatchKeeps | lib/vpt/bumper/bumper-data.ts:68-104 | A field that a tag does not write according to the `Written` table keeps its value. |
| Bumper.DispatchWrites | lib/vpt/bumper/bumper-data.ts:67-105 | After a case runs, each field has its decoded value if the tag writes it, and its old value otherwise. |
| Bumper.FromTagWrites | lib/vpt/bumper/bumper-data.ts:66-107 | One `fromTag` call changes exactly the fields `Written` lists for the selected case, each to its decoded value. |
| Bumper.BvisFansOut | lib/vpt/bumper/bumper-data.ts:84-90 | `BVIS` sets cap, base, ring and skirt visibility to the same decoded boolean, and every other field is unchanged. |
| Bumper.BsvsSparesCap | lib/vpt/bumper/bumper-data.ts:94-98 | `BSVS` sets base, ring and skirt visibility to the decoded boolean. Cap visibility and every other field are unchanged. |
| Bumper.KnownTagWritesOneField | lib/vpt/bumper/bumper-data.ts:68-101 | Every known tag other than `BVIS` and `BSVS` writes exactly one field, to its decoded value, and leaves every other field unchanged. |
| Bumper.UnknownTagKeepsRecord | lib/vpt/bumper/bumper-data.ts:102-104 | A tag that is no known code leaves the record unchanged, and the call returns 0. |
| Bumper.TagKeepsTimer | lib/vpt/bumper/bumper-data.ts:33-34 | No tag changes the timer interval, the timer flag or the item name. |
| Bumper.NameAfterTag | lib/vpt/bumper/bumper-data.ts:82 | Only `NAME` changes the name, and it stores the decoded wide string. |
| Bumper.FromTagsSnoc | lib/vpt/bumper/bumper-data.ts:52-56 | Streaming one more payload is one more `fromTag` call on the record built so far. |
| Bumper.GetNameIsLastName | lib/vpt/bumper/bumper-data.ts:62-64 | After any stream of payloads, `getName` returns the wide string of the last `NAME` payload. If there was none, it returns the name the record started with. |
| Bumper.StreamKeepsTimer | lib/vpt/bumper/bumper-data.ts:52-56 | A whole stream of payloads never changes the timer fields or the item name. |

## Left out

- Catalog internals are not modelled: `Table.getElementApiName`, the item APIs' `_getPropertyName`, `EnumsApi`, `Stdlib` and `GlobalApi`. Their implementation is not part of this model, and that includes their case-insensitive matching. Each is an uninterpreted lookup in `Catalogs`.
- `Transformer.isKnown` and the namespace constants live in `transformer.ts`, which is not part of this model. `isKnown` is a predicate parameter, and the namespace names are constants with the values the generated code uses.
- Reference.Walk: the walk requires `Sound`. That means the enum catalog does not resolve `__enums`, and `isKnown` recognises the identifiers of a fresh `__stdlib.X` or `__global.X`. Without these, the source's own walk rewrites its output again and may not end. `Sound` is sufficient for termination, not necessary, so some runs that do end are not described either. For example, when the enum catalog resolves `__enums` to an enum that does not resolve the value that follows, the source's walk ends after one extra warning (reference-transformer.ts:122-135).
- The walk is estraverse's `replace` reproduced as functions over immutable trees. Node identity and in-place mutation are not modelled. A mutation the source makes (the enum rewrite, the `ExecuteGlobal` rewrite, property re-casing) is a new node in the model, placed where the source's mutated node sits.
- Crashes are not modelled: an element that the item API table lacks, an enum whose API entry is missing, a truthy stdlib entry without `_getPropertyName` (reference-transformer.ts:167-168), or a call statement built from an empty match list. The model assumes these lookups succeed, and `Estree.CallStatement` requires a non-empty list.
- Estree.CallStatement: each name match must carry its name as first element. A match without one would give an identifier named `undefined` in the source.
- ReferenceProofs.TransformFirstMatch: first match, and the precedence lemmas `TransformEnumsOverStdlib`, `TransformStdlibOverGlobal` and `TransformGlobalBeforeExec`, are proved for a program of one statement that names the element. For a name deeper in a tree, `ItemsIdentifier` and `LaterPassesKeepItems` state each sub-pass's part at the name's own position under any parent. The whole-tree composition is not proved, because the model has no notion of a position that survives the rewrites around it. `ReferenceProofs.FirstMatchItems` and `ReferenceProofs.FirstMatchLater` carry the same restriction.
- `logger().warn` is I/O. The enum sub-pass returns its warnings as a list instead.
- The `memberExpression`, `identifier` and `callExpression` helpers the transformer calls are not part of this model. They are taken to build non-computed member expressions, like the member expression `expressionStatement` builds.
- `String.prototype.toLowerCase` is modelled on ASCII letters only. This is exact for the one comparison it serves. The only non-ASCII characters whose lower case holds ASCII letters are the Kelvin sign (to "k") and the capital I with dot above (to "i" and a combining dot), and "executeglobal" contains neither "k" nor "i".
- `NaN` is not among the literal values, so its falsiness is not modelled.
- Integer and float widths are not modelled: decoded floats are `real`.
- The grammar, formatter, For-loop post-processing, code generator, `VbsArray` and `ERR` are not modelled, because only their tests are available.
- Bumper.Dispatch: the `default` case calls `getUnknownBlock`, which is not part of this model. The model assumes it writes no field of the record, so an unknown tag leaves the record unchanged. `Bumper.UnknownTagKeepsRecord`, `Bumper.TagKeepsTimer` and `Bumper.StreamKeepsTimer` rest on that assumption; the timer tags reach `default`.
- `BumperData.fromStorage`, `BiffParser` and the decoders (`getFloat`, `getString`, `getWideString`, `getBool`, `Vertex2D.get`, `getUnknownBlock`) are not modelled. They are asynchronous storage I/O and binary decoding, so a payload is given as its decoded values (`Block`), and a stream of tags as a sequence.
- Bumper mesh generation, trigger meshes and flipper state are not modelled. They are floating-point geometry outside this model.
