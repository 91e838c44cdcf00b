/**
 The bumper's item record as read from a table file: a record of fields with
 their defaults, and the tag dispatcher that overwrites fields one BIFF tag at
 a time.

 Buffer decoding is abstracted: a `Block` holds the values a record's payload
 decodes to under each of the decoders the dispatcher may call (float, string,
 wide string, boolean, 2D vertex), so a tag picks the decoding it needs.
 Fields the source declares optional or definitely-assigned-later (`vCenter`,
 `wzName`, the materials, `force`, ...) start as `None`.
 */
module Bumper {
  import opened Ast

  datatype Vertex2D = Vertex2D(x: real, y: real)

  datatype BumperData = BumperData(
    itemName: string,
    vCenter: Option<Vertex2D>,
    radius: real,
    szCapMaterial: Option<string>,
    szRingMaterial: Option<string>,
    szBaseMaterial: Option<string>,
    szSkirtMaterial: Option<string>,
    timerInterval: Option<real>,
    fTimerEnabled: bool,
    threshold: real,
    force: Option<real>,
    scatter: Option<real>,
    heightScale: real,
    ringSpeed: real,
    orientation: real,
    ringDropOffset: real,
    szSurface: Option<string>,
    wzName: Option<string>,
    fCapVisible: bool,
    fBaseVisible: bool,
    fRingVisible: bool,
    fSkirtVisible: bool,
    fHitEvent: bool,
    fCollidable: bool,
    fReflectionEnabled: bool)

  /** A record payload, already decoded under every decoder a tag may use. */
  datatype Block = Block(float: real, str: string, wide: string, flag: bool, vertex: Vertex2D)

  /** The fields of a bumper record, for stating what a tag may change. */
  datatype Field =
    | ItemName | VCenter | Radius | CapMaterial | RingMaterial | BaseMaterial
    | SkirtMaterial | TimerInterval | TimerEnabled | Threshold | Force | Scatter
    | HeightScale | RingSpeed | Orientation | RingDropOffset | Surface | Name
    | CapVisible | BaseVisible | RingVisible | SkirtVisible | HitEvent
    | Collidable | ReflectionEnabled

  /** The value of one field, whatever its type. */
  datatype FieldValue =
    | Text(s: string)
    | Real(x: real)
    | Flag(b: bool)
    | MaybeVertex(v: Option<Vertex2D>)
    | MaybeText(t: Option<string>)
    | MaybeReal(o: Option<real>)

  function Get(d: BumperData, f: Field): FieldValue {
    match f
    case ItemName => Text(d.itemName)
    case VCenter => MaybeVertex(d.vCenter)
    case Radius => Real(d.radius)
    case CapMaterial => MaybeText(d.szCapMaterial)
    case RingMaterial => MaybeText(d.szRingMaterial)
    case BaseMaterial => MaybeText(d.szBaseMaterial)
    case SkirtMaterial => MaybeText(d.szSkirtMaterial)
    case TimerInterval => MaybeReal(d.timerInterval)
    case TimerEnabled => Flag(d.fTimerEnabled)
    case Threshold => Real(d.threshold)
    case Force => MaybeReal(d.force)
    case Scatter => MaybeReal(d.scatter)
    case HeightScale => Real(d.heightScale)
    case RingSpeed => Real(d.ringSpeed)
    case Orientation => Real(d.orientation)
    case RingDropOffset => Real(d.ringDropOffset)
    case Surface => MaybeText(d.szSurface)
    case Name => MaybeText(d.wzName)
    case CapVisible => Flag(d.fCapVisible)
    case BaseVisible => Flag(d.fBaseVisible)
    case RingVisible => Flag(d.fRingVisible)
    case SkirtVisible => Flag(d.fSkirtVisible)
    case HitEvent => Flag(d.fHitEvent)
    case Collidable => Flag(d.fCollidable)
    case ReflectionEnabled => Flag(d.fReflectionEnabled)
  }

  /** The record tags the dispatcher knows, and every other tag. */
  datatype Tag =
    | VCEN | RADI | MATR | RIMA | BAMA | SKMA | THRS | FORC | BSCT | HISC | RISP
    | ORIN | RDLI | SURF | NAME | BVIS | CAVI | HAHE | COLI | BSVS | RIVS | SKVS
    | REEN | Unknown

  /** The four-character code of a known tag as it appears in the file. */
  function Code(t: Tag): string {
    match t
    case VCEN => "VCEN" case RADI => "RADI" case MATR => "MATR" case RIMA => "RIMA"
    case BAMA => "BAMA" case SKMA => "SKMA" case THRS => "THRS" case FORC => "FORC"
    case BSCT => "BSCT" case HISC => "HISC" case RISP => "RISP" case ORIN => "ORIN"
    case RDLI => "RDLI" case SURF => "SURF" case NAME => "NAME" case BVIS => "BVIS"
    case CAVI => "CAVI" case HAHE => "HAHE" case COLI => "COLI" case BSVS => "BSVS"
    case RIVS => "RIVS" case SKVS => "SKVS" case REEN => "REEN" case Unknown => ""
  }

  /**
   The fields each tag writes, as a table independent of the dispatcher.
   An unknown tag is skipped as an unknown block and writes nothing.
   */
  function Written(t: Tag): set<Field> {
    match t
    case VCEN => {VCenter}
    case RADI => {Radius}
    case MATR => {CapMaterial}
    case RIMA => {RingMaterial}
    case BAMA => {BaseMaterial}
    case SKMA => {SkirtMaterial}
    case THRS => {Threshold}
    case FORC => {Force}
    case BSCT => {Scatter}
    case HISC => {HeightScale}
    case RISP => {RingSpeed}
    case ORIN => {Orientation}
    case RDLI => {RingDropOffset}
    case SURF => {Surface}
    case NAME => {Name}
    case BVIS => {CapVisible, BaseVisible, RingVisible, SkirtVisible}
    case CAVI => {CapVisible}
    case HAHE => {HitEvent}
    case COLI => {Collidable}
    case BSVS => {BaseVisible, RingVisible, SkirtVisible}
    case RIVS => {RingVisible}
    case SKVS => {SkirtVisible}
    case REEN => {ReflectionEnabled}
    case Unknown => {}
  }

  /** The value a field receives when a tag writes it from block `b`. */
  function Decoded(f: Field, b: Block): FieldValue {
    match f
    case ItemName => Text(b.str)
    case VCenter => MaybeVertex(Some(b.vertex))
    case CapMaterial | RingMaterial | BaseMaterial | SkirtMaterial | Surface =>
      MaybeText(Some(b.str))
    case Name => MaybeText(Some(b.wide))
    case TimerInterval | Force | Scatter => MaybeReal(Some(b.float))
    case Radius | Threshold | HeightScale | RingSpeed | Orientation | RingDropOffset =>
      Real(b.float)
    case _ => Flag(b.flag)
  }

  /** A freshly constructed record for the item stored under `itemName`. */
  function New(itemName: string): (d: BumperData)
    ensures d.itemName == itemName
    ensures d.radius == 1.0 && d.threshold == 1.0 && d.heightScale == 1.0
    ensures d.ringSpeed == 0.5 && d.orientation == 0.0 && d.ringDropOffset == 0.0
    ensures !d.fTimerEnabled
    ensures d.fCapVisible && d.fBaseVisible && d.fRingVisible && d.fSkirtVisible
    ensures d.fHitEvent && d.fCollidable && d.fReflectionEnabled
    ensures d.vCenter.None? && d.wzName.None? && d.timerInterval.None?
    ensures d.szCapMaterial.None? && d.szRingMaterial.None? && d.szBaseMaterial.None?
    ensures d.szSkirtMaterial.None? && d.szSurface.None? && d.force.None? && d.scatter.None?
  {
    BumperData(itemName, None, 1.0, None, None, None, None, None, false, 1.0, None, None,
               1.0, 0.5, 0.0, 0.0, None, None, true, true, true, true, true, true, true)
  }

  /** The `switch` of the dispatcher: which case a tag string selects. */
  function ParseTag(tag: string): Tag {
    match tag
    case "VCEN" => VCEN
    case "RADI" => RADI
    case "MATR" => MATR
    case "RIMA" => RIMA
    case "BAMA" => BAMA
    case "SKMA" => SKMA
    case "THRS" => THRS
    case "FORC" => FORC
    case "BSCT" => BSCT
    case "HISC" => HISC
    case "RISP" => RISP
    case "ORIN" => ORIN
    case "RDLI" => RDLI
    case "SURF" => SURF
    case "NAME" => NAME
    case "BVIS" => BVIS
    case "CAVI" => CAVI
    case "HAHE" => HAHE
    case "COLI" => COLI
    case "BSVS" => BSVS
    case "RIVS" => RIVS
    case "SKVS" => SKVS
    case "REEN" => REEN
    case _ => Unknown
  }

  /** The body of each `case` of the dispatcher. */
  function Dispatch(d: BumperData, t: Tag, b: Block): BumperData {
    match t
    case VCEN => d.(vCenter := Some(b.vertex))
    case RADI => d.(radius := b.float)
    case MATR => d.(szCapMaterial := Some(b.str))
    case RIMA => d.(szRingMaterial := Some(b.str))
    case BAMA => d.(szBaseMaterial := Some(b.str))
    case SKMA => d.(szSkirtMaterial := Some(b.str))
    case THRS => d.(threshold := b.float)
    case FORC => d.(force := Some(b.float))
    case BSCT => d.(scatter := Some(b.float))
    case HISC => d.(heightScale := b.float)
    case RISP => d.(ringSpeed := b.float)
    case ORIN => d.(orientation := b.float)
    case RDLI => d.(ringDropOffset := b.float)
    case SURF => d.(szSurface := Some(b.str))
    case NAME => d.(wzName := Some(b.wide))
    case BVIS =>
      d.(fCapVisible := b.flag, fBaseVisible := b.flag, fRingVisible := b.flag, fSkirtVisible := b.flag)
    case CAVI => d.(fCapVisible := b.flag)
    case HAHE => d.(fHitEvent := b.flag)
    case COLI => d.(fCollidable := b.flag)
    case BSVS =>
      var base := d.(fBaseVisible := b.flag);
      base.(fRingVisible := base.fBaseVisible, fSkirtVisible := base.fBaseVisible)
    case RIVS => d.(fRingVisible := b.flag)
    case SKVS => d.(fSkirtVisible := b.flag)
    case REEN => d.(fReflectionEnabled := b.flag)
    case Unknown => d
  }

  /** A field a tag writes receives that tag's decoded value. */
  lemma DispatchSets(d: BumperData, t: Tag, b: Block, f: Field)
    requires f in Written(t)
    ensures Get(Dispatch(d, t, b), f) == Decoded(f, b)
  {
    if t in {VCEN, RADI, MATR, RIMA, BAMA, SKMA, THRS, FORC} {
      DispatchScalarSets(d, t, b, f);
    } else if t in {BSCT, HISC, RISP, ORIN, RDLI, SURF, NAME} {
      DispatchGeometrySets(d, t, b, f);
    } else {
      DispatchVisibilitySets(d, t, b, f);
    }
  }

  lemma DispatchScalarSets(d: BumperData, t: Tag, b: Block, f: Field)
    requires t in {VCEN, RADI, MATR, RIMA, BAMA, SKMA, THRS, FORC}
    requires f in Written(t)
    ensures Get(Dispatch(d, t, b), f) == Decoded(f, b)
  {
    if t == VCEN {
      assert f == VCenter;
    } else if t == RADI {
      assert f == Radius;
    } else if t == MATR {
      assert f == CapMaterial;
    } else if t == RIMA {
      assert f == RingMaterial;
    } else if t == BAMA {
      assert f == BaseMaterial;
    } else if t == SKMA {
      assert f == SkirtMaterial;
    } else if t == THRS {
      assert f == Threshold;
    } else if t == FORC {
      assert f == Force;
    }
  }

  lemma DispatchGeometrySets(d: BumperData, t: Tag, b: Block, f: Field)
    requires t in {BSCT, HISC, RISP, ORIN, RDLI, SURF, NAME}
    requires f in Written(t)
    ensures Get(Dispatch(d, t, b), f) == Decoded(f, b)
  {
    if t == BSCT {
      assert f == Scatter;
    } else if t == HISC {
      assert f == HeightScale;
    } else if t == RISP {
      assert f == RingSpeed;
    } else if t == ORIN {
      assert f == Orientation;
    } else if t == RDLI {
      assert f == RingDropOffset;
    } else if t == SURF {
      assert f == Surface;
    } else if t == NAME {
      assert f == Name;
    }
  }

  lemma DispatchVisibilitySets(d: BumperData, t: Tag, b: Block, f: Field)
    requires t in {BVIS, CAVI, HAHE, COLI, BSVS, RIVS, SKVS, REEN}
    requires f in Written(t)
    ensures Get(Dispatch(d, t, b), f) == Decoded(f, b)
  {
    if t == CAVI {
      assert f == CapVisible;
    } else if t == HAHE {
      assert f == HitEvent;
    } else if t == COLI {
      assert f == Collidable;
    } else if t == RIVS {
      assert f == RingVisible;
    } else if t == SKVS {
      assert f == SkirtVisible;
    } else if t == REEN {
      assert f == ReflectionEnabled;
    }
  }

  lemma DispatchScalarKeeps(d: BumperData, t: Tag, b: Block, f: Field)
    requires t in {VCEN, RADI, MATR, RIMA, BAMA, SKMA, THRS, FORC}
    requires f !in Written(t)
    ensures Get(Dispatch(d, t, b), f) == Get(d, f)
  {
    match t
    case VCEN =>
    case RADI =>
    case MATR =>
    case RIMA =>
    case BAMA =>
    case SKMA =>
    case THRS =>
    case FORC =>
  }

  lemma DispatchGeometryKeeps(d: BumperData, t: Tag, b: Block, f: Field)
    requires t in {BSCT, HISC, RISP, ORIN, RDLI, SURF, NAME}
    requires f !in Written(t)
    ensures Get(Dispatch(d, t, b), f) == Get(d, f)
  {
    match t
    case BSCT =>
    case HISC =>
    case RISP =>
    case ORIN =>
    case RDLI =>
    case SURF =>
    case NAME =>
  }

  lemma DispatchVisibilityKeeps(d: BumperData, t: Tag, b: Block, f: Field)
    requires t in {BVIS, CAVI, HAHE, COLI, BSVS, RIVS, SKVS, REEN}
    requires f !in Written(t)
    ensures Get(Dispatch(d, t, b), f) == Get(d, f)
  {
    match t
    case BVIS =>
    case CAVI =>
    case HAHE =>
    case COLI =>
    case BSVS =>
    case RIVS =>
    case SKVS =>
    case REEN =>
  }

  /** A field a tag does not write keeps its value. */
  lemma DispatchKeeps(d: BumperData, t: Tag, b: Block, f: Field)
    requires f !in Written(t)
    ensures Get(Dispatch(d, t, b), f) == Get(d, f)
  {
    if t in {VCEN, RADI, MATR, RIMA, BAMA, SKMA, THRS, FORC} {
      DispatchScalarKeeps(d, t, b, f);
    } else if t in {BSCT, HISC, RISP, ORIN, RDLI, SURF, NAME} {
      DispatchGeometryKeeps(d, t, b, f);
    } else if t in {BVIS, CAVI, HAHE, COLI, BSVS, RIVS, SKVS, REEN} {
      DispatchVisibilityKeeps(d, t, b, f);
    }
  }

  /** Exactly the fields `Written(t)` names change, each to its decoded value. */
  lemma DispatchWrites(d: BumperData, t: Tag, b: Block)
    ensures forall f :: Get(Dispatch(d, t, b), f) == if f in Written(t) then Decoded(f, b) else Get(d, f)
  {
    forall f
      ensures Get(Dispatch(d, t, b), f) == if f in Written(t) then Decoded(f, b) else Get(d, f)
    {
      if f in Written(t) {
        DispatchSets(d, t, b, f);
      } else {
        DispatchKeeps(d, t, b, f);
      }
    }
  }

  /**
   Applies one tag's payload to the record and returns the updated record with
   the dispatcher's return value, which is always 0.
   */
  function FromTag(d: BumperData, tag: string, b: Block): (r: (BumperData, int))
    ensures r.1 == 0
  {
    (Dispatch(d, ParseTag(tag), b), 0)
  }

  /** Each known tag's code selects that tag's case. */
  lemma ParseCode(t: Tag)
    requires t != Unknown
    ensures ParseTag(Code(t)) == t
  {
  }

  /** A string selects a known case only when it is that case's code. */
  lemma ParseKnown(tag: string)
    requires ParseTag(tag) != Unknown
    ensures Code(ParseTag(tag)) == tag
  {
  }

  /** What one dispatcher call changes: exactly the fields its tag writes. */
  lemma FromTagWrites(d: BumperData, tag: string, b: Block)
    ensures forall f :: Get(FromTag(d, tag, b).0, f)
                        == if f in Written(ParseTag(tag)) then Decoded(f, b) else Get(d, f)
  {
    DispatchWrites(d, ParseTag(tag), b);
  }

  /** The legacy `BVIS` tag sets all four visibility flags to one decoded boolean. */
  lemma BvisFansOut(d: BumperData, b: Block)
    ensures var r := FromTag(d, "BVIS", b).0;
      r.fCapVisible == b.flag && r.fBaseVisible == b.flag
      && r.fRingVisible == b.flag && r.fSkirtVisible == b.flag
    ensures var r := FromTag(d, "BVIS", b).0;
      forall f | f !in {CapVisible, BaseVisible, RingVisible, SkirtVisible} :: Get(r, f) == Get(d, f)
  {
    assert ParseTag("BVIS") == BVIS;
    DispatchWrites(d, BVIS, b);
    var r := Dispatch(d, BVIS, b);
    assert Get(r, CapVisible) == Flag(b.flag);
    assert Get(r, BaseVisible) == Flag(b.flag);
    assert Get(r, RingVisible) == Flag(b.flag);
    assert Get(r, SkirtVisible) == Flag(b.flag);
  }

  /** `BSVS` sets base, ring and skirt visibility and leaves cap visibility alone. */
  lemma BsvsSparesCap(d: BumperData, b: Block)
    ensures var r := FromTag(d, "BSVS", b).0;
      r.fBaseVisible == b.flag && r.fRingVisible == b.flag && r.fSkirtVisible == b.flag
      && r.fCapVisible == d.fCapVisible
    ensures var r := FromTag(d, "BSVS", b).0;
      forall f | f !in {BaseVisible, RingVisible, SkirtVisible} :: Get(r, f) == Get(d, f)
  {
    assert ParseTag("BSVS") == BSVS;
    DispatchWrites(d, BSVS, b);
    var r := Dispatch(d, BSVS, b);
    assert Get(r, CapVisible) == Flag(d.fCapVisible);
    assert Get(r, BaseVisible) == Flag(b.flag);
    assert Get(r, RingVisible) == Flag(b.flag);
    assert Get(r, SkirtVisible) == Flag(b.flag);
  }

  /**
   Every known tag except the two legacy visibility tags writes exactly one
   field, and that field takes the decoded value while every other field keeps
   its value.
   */
  lemma KnownTagWritesOneField(d: BumperData, t: Tag, b: Block)
    requires t !in {Unknown, BVIS, BSVS}
    ensures exists g :: Written(t) == {g}
    ensures forall f :: Get(FromTag(d, Code(t), b).0, f)
                        == if f in Written(t) then Decoded(f, b) else Get(d, f)
  {
    ParseCode(t);
    FromTagWrites(d, Code(t), b);
    match t
    case VCEN => assert Written(t) == {VCenter};
    case RADI => assert Written(t) == {Radius};
    case MATR => assert Written(t) == {CapMaterial};
    case RIMA => assert Written(t) == {RingMaterial};
    case BAMA => assert Written(t) == {BaseMaterial};
    case SKMA => assert Written(t) == {SkirtMaterial};
    case THRS => assert Written(t) == {Threshold};
    case FORC => assert Written(t) == {Force};
    case BSCT => assert Written(t) == {Scatter};
    case HISC => assert Written(t) == {HeightScale};
    case RISP => assert Written(t) == {RingSpeed};
    case ORIN => assert Written(t) == {Orientation};
    case RDLI => assert Written(t) == {RingDropOffset};
    case SURF => assert Written(t) == {Surface};
    case NAME => assert Written(t) == {Name};
    case CAVI => assert Written(t) == {CapVisible};
    case HAHE => assert Written(t) == {HitEvent};
    case COLI => assert Written(t) == {Collidable};
    case RIVS => assert Written(t) == {RingVisible};
    case SKVS => assert Written(t) == {SkirtVisible};
    case REEN => assert Written(t) == {ReflectionEnabled};
  }

  /** A tag that is no known code is skipped: the record comes back unchanged. */
  lemma UnknownTagKeepsRecord(d: BumperData, tag: string, b: Block)
    requires forall t :: t != Unknown ==> Code(t) != tag
    ensures FromTag(d, tag, b) == (d, 0)
  {
    if ParseTag(tag) != Unknown {
      ParseKnown(tag);
      assert false;
    }
  }

  /** No tag touches the timer fields or the item name. */
  lemma TagKeepsTimer(d: BumperData, tag: string, b: Block)
    ensures var r := FromTag(d, tag, b).0;
      r.timerInterval == d.timerInterval && r.fTimerEnabled == d.fTimerEnabled
      && r.itemName == d.itemName
  {
    var t := ParseTag(tag);
    assert TimerInterval !in Written(t) && TimerEnabled !in Written(t) && ItemName !in Written(t);
    DispatchKeeps(d, t, b, TimerInterval);
    DispatchKeeps(d, t, b, TimerEnabled);
    DispatchKeeps(d, t, b, ItemName);
  }

  /** The record's name: the value last stored by a `NAME` tag, if any. */
  function GetName(d: BumperData): Option<string> {
    d.wzName
  }

  /** Feeds a stream of tagged payloads to the dispatcher, first to last. */
  function FromTags(d: BumperData, stream: seq<(string, Block)>): BumperData
    decreases |stream|
  {
    if stream == [] then d else FromTags(FromTag(d, stream[0].0, stream[0].1).0, stream[1..])
  }

  /** Reference: the wide string of the last `NAME` payload in `stream`, else `dflt`. */
  function LastName(stream: seq<(string, Block)>, dflt: Option<string>): Option<string>
    decreases |stream|
  {
    if stream == [] then dflt
    else if stream[|stream| - 1].0 == "NAME" then Some(stream[|stream| - 1].1.wide)
    else LastName(stream[..|stream| - 1], dflt)
  }

  /** Only the `NAME` tag changes the name, and it stores the decoded wide string. */
  lemma NameAfterTag(d: BumperData, tag: string, b: Block)
    ensures FromTag(d, tag, b).0.wzName == if tag == "NAME" then Some(b.wide) else d.wzName
  {
    var t := ParseTag(tag);
    if t == NAME {
      ParseKnown(tag);
      DispatchSets(d, t, b, Name);
    } else {
      DispatchKeeps(d, t, b, Name);
    }
  }

  /** Feeding one more payload at the end of a stream is one more dispatcher call. */
  lemma {:induction false} FromTagsSnoc(d: BumperData, stream: seq<(string, Block)>, x: (string, Block))
    ensures FromTags(d, stream + [x]) == FromTag(FromTags(d, stream), x.0, x.1).0
    decreases |stream|
  {
    if stream == [] {
      assert [] + [x] == [x];
      assert [x][1..] == [];
    } else {
      var d1 := FromTag(d, stream[0].0, stream[0].1).0;
      assert (stream + [x])[0] == stream[0];
      assert (stream + [x])[1..] == stream[1..] + [x];
      FromTagsSnoc(d1, stream[1..], x);
    }
  }

  /** After a stream of payloads, `GetName` is the name the last `NAME` tag stored. */
  lemma {:induction false} GetNameIsLastName(d: BumperData, stream: seq<(string, Block)>)
    ensures GetName(FromTags(d, stream)) == LastName(stream, d.wzName)
    decreases |stream|
  {
    if stream != [] {
      var init := stream[..|stream| - 1];
      var x := stream[|stream| - 1];
      assert stream == init + [x];
      FromTagsSnoc(d, init, x);
      GetNameIsLastName(d, init);
      NameAfterTag(FromTags(d, init), x.0, x.1);
    }
  }

  /** A whole stream of payloads never touches the timer fields or the item name. */
  lemma {:induction false} StreamKeepsTimer(d: BumperData, stream: seq<(string, Block)>)
    ensures var r := FromTags(d, stream);
      r.timerInterval == d.timerInterval && r.fTimerEnabled == d.fTimerEnabled
      && r.itemName == d.itemName
    decreases |stream|
  {
    if stream != [] {
      TagKeepsTimer(d, stream[0].0, stream[0].1);
      StreamKeepsTimer(FromTag(d, stream[0].0, stream[0].1).0, stream[1..]);
    }
  }
}
