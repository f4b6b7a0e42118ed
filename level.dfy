/**
  src/level.ts: a level is saved as a table (a Snap list of lists) whose
  first row names the columns and whose other rows hold one sprite each, and
  loaded back by writing each row's cells through the sprite's setters.

  This module holds the table format and a specification on values: a scene
  is the sequence of the stage's children, each a sprite's record or another
  morph. The methods over the live stage are in level_blocks.dfy.
*/
module Levels {
  import opened Wrappers
  import opened Geometry

  /** A table cell: the source's `string | number | boolean`. */
  datatype Value = Number(n: real) | Text(s: string) | Boolean(b: bool)

  /** JavaScript truthiness of a cell (NaN is not modelled). */
  predicate Truthy(v: Value) {
    match v
    case Number(n) => n != 0.0
    case Text(s) => s != ""
    case Boolean(b) => b
  }

  /** A table row, and a table: the header row followed by the data rows. */
  type Row = seq<Value>
  type Table = seq<Row>

  // ---------------------------------------------------------------------------
  // The attribute slots of `getAttributes`
  // ---------------------------------------------------------------------------

  /** The columns, one per slot of `getAttributes`. */
  datatype Attribute = SpriteName | X | Y | Direction | Size | Costume | Showing | IsClone

  /** The slots in the order `getAttributes` pushes them. */
  const Attributes: seq<Attribute> := [SpriteName, X, Y, Direction, Size, Costume, Showing, IsClone]

  /** A slot's column name. */
  function Name(a: Attribute): string {
    match a
    case SpriteName => "sprite name"
    case X => "x"
    case Y => "y"
    case Direction => "direction"
    case Size => "size"
    case Costume => "costume #"
    case Showing => "showing"
    case IsClone => "is clone"
  }

  /** Different slots have different column names, so a header names each slot at most once. */
  lemma NameInjective(a: Attribute, b: Attribute)
    ensures Name(a) == Name(b) ==> a == b
  {
    if a != b {
      assert |Name(a)| != |Name(b)| || Name(a)[0] != Name(b)[0];
    }
  }

  /** `sprite name` and `is clone` have a null setter: they are read, never written. */
  predicate HasSetter(a: Attribute) {
    !(a.SpriteName? || a.IsClone?)
  }

  /** The header row `saveLevel` writes: the slots' names in order. */
  function Header(): Row {
    seq(|Attributes|, i requires 0 <= i < |Attributes| => Text(Name(Attributes[i])))
  }

  // ---------------------------------------------------------------------------
  // Sprite records and the slots' getters and setters
  // ---------------------------------------------------------------------------

  /** The part of a sprite the level table reads and writes; x, y, rotation and scale are its stage transform. */
  datatype SpriteRecord = SpriteRecord(
    name: string, isTemporary: bool, cloneOriginName: string,
    x: real, y: real, rotation: real, scale: real, costume: real, shown: bool)

  /** A child of the stage: a sprite's record, or any other morph. */
  datatype Entry = SpriteEntry(rec: SpriteRecord) | OtherEntry

  type Scene = seq<Entry>

  /** A slot's getter. A clone reports the name of the sprite it was cloned from. */
  function Get(a: Attribute, r: SpriteRecord): Value {
    match a
    case SpriteName => Text(if r.isTemporary then r.cloneOriginName else r.name)
    case X => Number(r.x)
    case Y => Number(r.y)
    case Direction => Number(r.rotation)
    case Size => Number(r.scale * 100.0)
    case Costume => Number(r.costume)
    case Showing => Boolean(r.shown)
    case IsClone => Boolean(r.isTemporary)
  }

  /**
    A slot's setter: `setXPosition`/`setYPosition` (through `gotoXY`),
    `setHeading`, `setScale`, `doSwitchToCostume`, `setVisibility`. The
    numeric setters take number cells only; slots without a setter ignore
    the value.
  */
  function Write(r: SpriteRecord, a: Attribute, v: Value): (w: SpriteRecord)
    ensures w.name == r.name && w.isTemporary == r.isTemporary && w.cloneOriginName == r.cloneOriginName
    ensures !HasSetter(a) ==> w == r
    ensures a.Showing? ==> w == r.(shown := Truthy(v))
    ensures !v.Number? && !a.Showing? ==> w == r
  {
    match a
    case X => if v.Number? then r.(x := v.n) else r
    case Y => if v.Number? then r.(y := v.n) else r
    case Direction => if v.Number? then r.(rotation := NormalizeHeading(v.n)) else r
    case Size => if v.Number? then r.(scale := StoredScale(v.n)) else r
    case Costume => if v.Number? then r.(costume := v.n) else r
    case Showing => r.(shown := Truthy(v))
    case SpriteName => r
    case IsClone => r
  }

  /** A record is in the form the setters produce: rotation in [0, 360), scale not negative. */
  predicate Normalised(r: SpriteRecord) {
    0.0 <= r.rotation < 360.0 && 0.0 <= r.scale
  }

  /** Whatever is written, the record stays normalised. */
  lemma WriteKeepsNormalised(r: SpriteRecord, a: Attribute, v: Value)
    requires Normalised(r)
    ensures Normalised(Write(r, a, v))
  {
    if a.Direction? && v.Number? {
      HeadingNormalized(v.n);
    }
  }

  /** Writing back the value a slot reports leaves a normalised record as it was. */
  lemma WriteGetIsIdentity(r: SpriteRecord, a: Attribute)
    requires Normalised(r)
    ensures Write(r, a, Get(a, r)) == r
  {
    if a.Direction? {
      HeadingNormalIdentity(r.rotation);
    }
  }

  // ---------------------------------------------------------------------------
  // Looking a column up
  // ---------------------------------------------------------------------------

  /** `Array.prototype.indexOf` with `===`: the first position of `x` in `s`, if any. */
  function IndexOf(s: seq<Value>, x: Value): (r: Option<nat>)
    ensures r.None? <==> x !in s
    ensures r.Some? ==> r.value < |s| && s[r.value] == x && x !in s[..r.value]
  {
    if |s| == 0 then None
    else if s[0] == x then Some(0)
    else
      match IndexOf(s[1..], x)
      case None => None
      case Some(k) => assert s[1..][..k] == s[1..k+1]; Some(k + 1)
  }

  /**
    `getAttribute`: the cell of `row` under the first header column named
    `name`; `None` (`null`, or `undefined` past the end of the row) when no
    column has that name or the row is too short.
  */
  function GetAttribute(name: string, row: Row, header: Row): (r: Option<Value>)
    ensures Text(name) !in header ==> r.None?
    ensures Text(name) in header ==> var k := IndexOf(header, Text(name)).value;
      r == if k < |row| then Some(row[k]) else None
  {
    match IndexOf(header, Text(name))
    case None => None
    case Some(k) => if k < |row| then Some(row[k]) else None
  }

  /** Each slot's name sits in the header at the slot's own position, and nowhere before it. */
  lemma HeaderLookup(i: nat)
    requires i < |Attributes|
    ensures IndexOf(Header(), Text(Name(Attributes[i]))) == Some(i)
  {
    var h := Header();
    assert h[i] == Text(Name(Attributes[i]));
    forall j | 0 <= j < i
      ensures h[j] != h[i]
    {
      NameInjective(Attributes[j], Attributes[i]);
    }
  }

  /** The slot's column of a row under an unknown header; the fallback to the legacy `"Name"` column. */
  function NameCell(row: Row, header: Row): Option<Value> {
    match GetAttribute(Name(SpriteName), row, header)
    case Some(v) => Some(v)
    case None => GetAttribute("Name", row, header)
  }

  /** A `sprite name` column with a cell in the row decides the name, whatever a legacy `Name` column holds. */
  lemma NameCellPrefersSpriteName(row: Row, header: Row, k: nat)
    requires IndexOf(header, Text(Name(SpriteName))) == Some(k) && k < |row|
    ensures NameCell(row, header) == Some(row[k])
  {
  }

  /** A table saved before the `sprite name` column existed is read through its `Name` column. */
  lemma NameCellFallback(row: Row, header: Row, k: nat)
    requires Text(Name(SpriteName)) !in header
    requires IndexOf(header, Text("Name")) == Some(k) && k < |row|
    ensures NameCell(row, header) == Some(row[k])
  {
  }

  // ---------------------------------------------------------------------------
  // saveLevel on values
  // ---------------------------------------------------------------------------

  /** The row `saveLevel` writes for a sprite: one getter value per slot, in order. */
  function SaveRow(r: SpriteRecord): Row {
    seq(|Attributes|, i requires 0 <= i < |Attributes| => Get(Attributes[i], r))
  }

  /** The rows of the sprite children, in stage order; other morphs are skipped. */
  function SpriteRows(scene: Scene): seq<Row> {
    if |scene| == 0 then []
    else
      SpriteRows(scene[..|scene| - 1])
      + match scene[|scene| - 1]
        case SpriteEntry(r) => [SaveRow(r)]
        case OtherEntry => []
  }

  /** The whole table: the header, then one row per sprite. */
  function SaveLevelSpec(scene: Scene): Table {
    [Header()] + SpriteRows(scene)
  }

  /** The number of sprite children. */
  function SpriteCount(scene: Scene): nat {
    |SpriteRows(scene)|
  }

  /** The `k`-th sprite record of the scene, counting sprites only. */
  function NthSprite(scene: Scene, k: nat): SpriteRecord
    requires k < SpriteCount(scene)
    decreases |scene|
  {
    var last := scene[|scene| - 1];
    if last.SpriteEntry? && k == SpriteCount(scene[..|scene| - 1]) then last.rec
    else NthSprite(scene[..|scene| - 1], k)
  }

  /** The `k`-th saved row is that sprite's row. */
  lemma {:induction false} SpriteRowsAt(scene: Scene, k: nat)
    requires k < SpriteCount(scene)
    ensures SpriteRows(scene)[k] == SaveRow(NthSprite(scene, k))
    decreases |scene|
  {
    var init := scene[..|scene| - 1];
    if scene[|scene| - 1].SpriteEntry? && k == SpriteCount(init) {
    } else {
      SpriteRowsAt(init, k);
    }
  }

  /**
    What a saved table says: the header lists the slots' names; there is one
    row per sprite, every column of which, looked up by its slot's name,
    gives back what that slot's getter reports of that sprite.
  */
  lemma SavedTableReadsBack(scene: Scene, k: nat, i: nat)
    requires k < SpriteCount(scene) && i < |Attributes|
    ensures SaveLevelSpec(scene)[0] == Header() && |SaveLevelSpec(scene)| == SpriteCount(scene) + 1
    ensures GetAttribute(Name(Attributes[i]), SaveLevelSpec(scene)[k + 1], Header())
            == Some(Get(Attributes[i], NthSprite(scene, k)))
  {
    SpriteRowsAt(scene, k);
    HeaderLookup(i);
  }

  // ---------------------------------------------------------------------------
  // loadLevel on values
  // ---------------------------------------------------------------------------

  /** `removeAllClones`: the temporary sprites leave the stage, everything else stays in order. */
  function RemoveClones(scene: Scene): Scene {
    if |scene| == 0 then []
    else
      var last := scene[|scene| - 1];
      RemoveClones(scene[..|scene| - 1]) + if last.SpriteEntry? && last.rec.isTemporary then [] else [last]
  }

  /** No clone is left after `removeAllClones`, and a scene without clones is untouched. */
  lemma {:induction false} RemoveClonesProperties(scene: Scene)
    ensures forall j | 0 <= j < |RemoveClones(scene)| :: RemoveClones(scene)[j].SpriteEntry? ==> !RemoveClones(scene)[j].rec.isTemporary
    ensures (forall j | 0 <= j < |scene| :: scene[j].SpriteEntry? ==> !scene[j].rec.isTemporary) ==> RemoveClones(scene) == scene
    decreases |scene|
  {
    if |scene| > 0 {
      var init := scene[..|scene| - 1];
      RemoveClonesProperties(init);
      if forall j | 0 <= j < |scene| :: scene[j].SpriteEntry? ==> !scene[j].rec.isTemporary {
        assert forall j | 0 <= j < |init| :: init[j] == scene[j];
        assert scene == init + [scene[|scene| - 1]];
      }
    }
  }

  /** `removeAllClones` splits over any cut of the scene, so the survivors keep their order. */
  lemma {:induction false} RemoveClonesConcat(a: Scene, b: Scene)
    ensures RemoveClones(a + b) == RemoveClones(a) + RemoveClones(b)
    decreases |b|
  {
    if |b| == 0 {
      assert a + b == a;
    } else {
      var init := b[..|b| - 1];
      RemoveClonesConcat(a, init);
      assert (a + b)[..|a + b| - 1] == a + init;
      assert (a + b)[|a + b| - 1] == b[|b| - 1];
    }
  }

  /**
    A single child is dropped when it is a clone and kept otherwise; with
    `RemoveClonesConcat` this makes `removeAllClones` the order-keeping
    filter of the non-clones.
  */
  lemma RemoveClonesSingle(e: Entry)
    ensures RemoveClones([e]) == if e.SpriteEntry? && e.rec.isTemporary then [] else [e]
  {
    assert [e][..0] == [];
  }

  /** A child survives `removeAllClones` exactly when it was on the stage and is not a clone. */
  lemma {:induction false} RemoveClonesMembers(scene: Scene)
    ensures forall e :: e in RemoveClones(scene) <==> e in scene && !(e.SpriteEntry? && e.rec.isTemporary)
    decreases |scene|
  {
    if |scene| > 0 {
      var init := scene[..|scene| - 1];
      RemoveClonesMembers(init);
      assert scene == init + [scene[|scene| - 1]];
    }
  }

  /** Whether a child is a sprite named `name` (what the `filter` keeps). */
  predicate Named(e: Entry, name: string) {
    e.SpriteEntry? && e.rec.name == name
  }

  /** The position of the first sprite named `name` at or after `from`. */
  function FindFrom(scene: Scene, name: string, from: nat): (r: Option<nat>)
    requires from <= |scene|
    ensures r.Some? ==> from <= r.value < |scene| && Named(scene[r.value], name)
                        && forall j | from <= j < r.value :: !Named(scene[j], name)
    ensures r.None? ==> forall j | from <= j < |scene| :: !Named(scene[j], name)
    decreases |scene| - from
  {
    if from == |scene| then None
    else if Named(scene[from], name) then Some(from)
    else FindFrom(scene, name, from + 1)
  }

  /** `stage.children.filter(s => s instanceof SpriteMorph && s.name === name)[0]`, as a position. */
  function FindByName(scene: Scene, name: string): Option<nat> {
    FindFrom(scene, name, 0)
  }

  /** The record of a fresh clone: the original's, marked temporary, remembering the original's name. */
  function CloneOf(r: SpriteRecord): SpriteRecord {
    r.(isTemporary := true, cloneOriginName := r.name)
  }

  /** One slot of one row: written only when it has a setter and the row has a cell for it. */
  function WriteCell(r: SpriteRecord, a: Attribute, row: Row, header: Row): SpriteRecord {
    if !HasSetter(a) then r
    else
      match GetAttribute(Name(a), row, header)
      case None => r
      case Some(v) => Write(r, a, v)
  }

  /** The slots `attrs`, in order, written from one row. */
  function WriteRow(r: SpriteRecord, row: Row, header: Row, attrs: seq<Attribute>): SpriteRecord {
    if |attrs| == 0 then r
    else WriteCell(WriteRow(r, row, header, attrs[..|attrs| - 1]), attrs[|attrs| - 1], row, header)
  }

  /**
    The loop body of `loadLevel` for one data row: find the sprite the row
    names; skip the row when there is none; otherwise write the row into it,
    or, when the `is clone` cell is truthy, into a new clone appended to the
    stage.
  */
  function ApplyRow(scene: Scene, row: Row, header: Row): Scene {
    match NameCell(row, header)
    case Some(Text(name)) =>
      (match FindByName(scene, name)
       case None => scene
       case Some(k) =>
         var isClone := GetAttribute(Name(IsClone), row, header);
         if isClone.Some? && Truthy(isClone.value) then
           scene + [SpriteEntry(WriteRow(CloneOf(scene[k].rec), row, header, Attributes))]
         else
           scene[k := SpriteEntry(WriteRow(scene[k].rec, row, header, Attributes))])
    case _ => scene
  }

  /** The data rows applied one after the other. */
  function LoadRows(scene: Scene, rows: seq<Row>, header: Row): Scene {
    if |rows| == 0 then scene
    else ApplyRow(LoadRows(scene, rows[..|rows| - 1], header), rows[|rows| - 1], header)
  }

  /**
    `loadLevel`: nothing at all for a null list; otherwise the clones are
    removed and the rows after the header are applied with the first row as
    the header.
  */
  function LoadLevelSpec(scene: Scene, list: Option<Table>): Scene {
    match list
    case None => scene
    case Some(t) => if |t| == 0 then RemoveClones(scene) else LoadRows(RemoveClones(scene), t[1..], t[0])
  }

  // ---------------------------------------------------------------------------
  // Properties of loading
  // ---------------------------------------------------------------------------

  /** The two slots without a setter are never written, whatever the row holds. */
  lemma {:induction false} WriteRowKeepsIdentity(r: SpriteRecord, row: Row, header: Row, attrs: seq<Attribute>)
    ensures WriteRow(r, row, header, attrs).name == r.name
    ensures WriteRow(r, row, header, attrs).isTemporary == r.isTemporary
    ensures WriteRow(r, row, header, attrs).cloneOriginName == r.cloneOriginName
  {
    if |attrs| > 0 {
      WriteRowKeepsIdentity(r, row, header, attrs[..|attrs| - 1]);
    }
  }

  /** A slot whose column is missing, or whose cell is missing from the row, keeps its value. */
  lemma {:induction false} MissingColumnUnchanged(r: SpriteRecord, row: Row, header: Row, attrs: seq<Attribute>, a: Attribute)
    requires GetAttribute(Name(a), row, header).None?
    ensures Get(a, WriteRow(r, row, header, attrs)) == Get(a, r)
  {
    if |attrs| > 0 {
      var init := WriteRow(r, row, header, attrs[..|attrs| - 1]);
      MissingColumnUnchanged(r, row, header, attrs[..|attrs| - 1], a);
      var b := attrs[|attrs| - 1];
      NameInjective(a, b);
    }
  }

  /** A row whose name matches no sprite (or is not text) changes nothing. */
  lemma UnmatchedRowSkipped(scene: Scene, row: Row, header: Row)
    requires !(NameCell(row, header).Some? && NameCell(row, header).value.Text?
               && exists j | 0 <= j < |scene| :: Named(scene[j], NameCell(row, header).value.s))
    ensures ApplyRow(scene, row, header) == scene
  {
  }

  /**
    A row with a truthy `is clone` cell leaves every existing child as it was
    and appends one clone of the sprite it names, marked temporary, with the
    name cell's sprite as its origin.
  */
  lemma CloneRowAppends(scene: Scene, row: Row, header: Row, name: string)
    requires NameCell(row, header) == Some(Text(name))
    requires exists j | 0 <= j < |scene| :: Named(scene[j], name)
    requires GetAttribute(Name(IsClone), row, header).Some? && Truthy(GetAttribute(Name(IsClone), row, header).value)
    ensures var s := ApplyRow(scene, row, header);
      && |s| == |scene| + 1 && s[..|scene|] == scene
      && s[|scene|].SpriteEntry? && s[|scene|].rec.isTemporary
      && s[|scene|].rec.name == name && s[|scene|].rec.cloneOriginName == name
  {
    var k := FindByName(scene, name);
    WriteRowKeepsIdentity(CloneOf(scene[k.value].rec), row, header, Attributes);
    var s := ApplyRow(scene, row, header);
    assert s[..|scene|] == scene;
  }

  /** A null list changes nothing; a list holding only a header just removes the clones. */
  lemma HeaderIsNeverData(scene: Scene, header: Row)
    ensures LoadLevelSpec(scene, None) == scene
    ensures LoadLevelSpec(scene, Some([header])) == RemoveClones(scene)
    ensures LoadLevelSpec(scene, Some([])) == RemoveClones(scene)
  {
    assert [header][1..] == [];
  }

  /** Writing a record's own saved row back into it restores it, when it is normalised. */
  lemma {:induction false} WriteSavedRow(r: SpriteRecord, attrs: seq<Attribute>)
    requires Normalised(r)
    requires forall a | a in attrs :: a in Attributes
    ensures WriteRow(r, SaveRow(r), Header(), attrs) == r
  {
    if |attrs| > 0 {
      var a := attrs[|attrs| - 1];
      assert a in attrs;
      WriteSavedRow(r, attrs[..|attrs| - 1]);
      var i :| 0 <= i < |Attributes| && Attributes[i] == a;
      HeaderLookup(i);
      WriteGetIsIdentity(r, a);
    }
  }

  /** The cells of a saved row that decide where it goes: its name, and `is clone`. */
  lemma SavedRowCells(r: SpriteRecord)
    ensures NameCell(SaveRow(r), Header()) == Some(Text(if r.isTemporary then r.cloneOriginName else r.name))
    ensures GetAttribute(Name(IsClone), SaveRow(r), Header()) == Some(Boolean(r.isTemporary))
  {
    SavedNameCell(r);
    SavedCloneCell(r);
  }

  lemma SavedNameCell(r: SpriteRecord)
    ensures GetAttribute(Name(SpriteName), SaveRow(r), Header()) == Some(Text(if r.isTemporary then r.cloneOriginName else r.name))
  {
    assert Attributes[0] == SpriteName;
    SavedCell(r, 0);
  }

  lemma SavedCloneCell(r: SpriteRecord)
    ensures GetAttribute(Name(IsClone), SaveRow(r), Header()) == Some(Boolean(r.isTemporary))
  {
    assert Attributes[7] == IsClone;
    SavedCell(r, 7);
  }

  /** Looking a slot's name up in a saved row gives the slot's getter value. */
  lemma SavedCell(r: SpriteRecord, i: nat)
    requires i < |Attributes|
    ensures GetAttribute(Name(Attributes[i]), SaveRow(r), Header()) == Some(Get(Attributes[i], r))
  {
    HeaderLookup(i);
  }

  /** The names in a scene are distinct when no two sprites share one. */
  ghost predicate DistinctNames(scene: Scene) {
    forall i, j | 0 <= i < j < |scene| :: scene[i].SpriteEntry? && scene[j].SpriteEntry? ==> scene[i].rec.name != scene[j].rec.name
  }

  /** The scene holds no clones and every record is normalised. */
  ghost predicate Settled(scene: Scene) {
    forall j | 0 <= j < |scene| :: scene[j].SpriteEntry? ==> !scene[j].rec.isTemporary && Normalised(scene[j].rec)
  }

  /** A sprite's own saved row, applied to a scene of distinctly named sprites, restores that very sprite. */
  lemma SavedRowRestores(scene: Scene, i: nat)
    requires DistinctNames(scene) && Settled(scene)
    requires i < |scene| && scene[i].SpriteEntry?
    ensures ApplyRow(scene, SaveRow(scene[i].rec), Header()) == scene
  {
    var r := scene[i].rec;
    var row := SaveRow(r);
    SavedRowCells(r);
    var k := FindByName(scene, r.name);
    assert Named(scene[i], r.name);
    WriteSavedRow(r, Attributes);
    assert scene[i := SpriteEntry(r)] == scene;
  }

  /**
    Loading a saved level back into the scene it was saved from leaves that
    scene as it was, provided it holds no clones, no two sprites share a name
    and every record is normalised.
  */
  lemma SaveThenLoadRestores(scene: Scene)
    requires DistinctNames(scene) && Settled(scene)
    ensures LoadLevelSpec(scene, Some(SaveLevelSpec(scene))) == scene
  {
    RemoveClonesProperties(scene);
    assert SaveLevelSpec(scene)[1..] == SpriteRows(scene);
    LoadSavedPrefix(scene, |scene|);
    assert scene[..|scene|] == scene;
  }

  lemma {:induction false} LoadSavedPrefix(scene: Scene, n: nat)
    requires DistinctNames(scene) && Settled(scene) && n <= |scene|
    ensures LoadRows(scene, SpriteRows(scene[..n]), Header()) == scene
  {
    if n > 0 {
      LoadSavedPrefix(scene, n - 1);
      var p := scene[..n];
      assert p[..|p| - 1] == scene[..n - 1];
      var rows := SpriteRows(p);
      if scene[n - 1].SpriteEntry? {
        assert rows == SpriteRows(scene[..n - 1]) + [SaveRow(scene[n - 1].rec)];
        assert rows[..|rows| - 1] == SpriteRows(scene[..n - 1]);
        SavedRowRestores(scene, n - 1);
      } else {
        assert rows == SpriteRows(scene[..n - 1]);
      }
    }
  }
}
