/**
  The `saveLevel` and `loadLevel` block actions of src/level.ts over the live
  stage: each is proved against the value-level specification in `Levels`,
  through `Depicts`, which says that the stage's children are the scene.
*/
module LevelBlocks {
  import opened Wrappers
  import opened Geometry
  import opened StageModel
  import opened Levels

  /** The record the level table sees of a sprite. */
  function Record(s: Sprite): SpriteRecord
    reads s, s.transform
  {
    SpriteRecord(s.name, s.isTemporary, s.cloneOriginName, s.transform.position.x, s.transform.position.y,
                 s.transform.rotation, s.transform.scale, s.costumeIndex, s.shown)
  }

  function EntryOf(c: Child): Entry
    reads if c.SpriteChild? then {c.sprite, c.sprite.transform} else {}
  {
    match c
    case SpriteChild(s) => SpriteEntry(Record(s))
    case OtherMorph => OtherEntry
  }

  /** The stage's children are, one for one, the entries of `scene`. */
  ghost predicate Depicts(cs: seq<Child>, scene: Scene)
    reads Sprites(cs), Transforms(cs)
  {
    |cs| == |scene| && forall j | 0 <= j < |cs| :: EntryOf(cs[j]) == scene[j]
  }

  // ---------------------------------------------------------------------------
  // saveLevel
  // ---------------------------------------------------------------------------

  /** The row of one sprite: `attrs.forEach(attr => row.add(attr.get(sprite)))`. */
  method SaveSprite(s: Sprite) returns (row: Row)
    ensures row == SaveRow(Record(s))
  {
    row := [];
    var i := 0;
    while i < |Attributes|
      invariant 0 <= i <= |Attributes|
      invariant row == SaveRow(Record(s))[..i]
    {
      var v: Value;
      match Attributes[i] {
        case SpriteName => v := Text(if s.isTemporary then s.cloneOriginName else s.name);
        case X => v := Number(s.XPosition());
        case Y => v := Number(s.YPosition());
        case Direction => v := Number(s.Direction());
        case Size => v := Number(s.GetScale());
        case Costume => v := Number(s.costumeIndex);
        case Showing => v := Boolean(s.shown);
        case IsClone => v := Boolean(s.isTemporary);
      }
      row := row + [v];
      i := i + 1;
    }
  }

  /**
    `saveLevel`: the header row, then, unless there is no IDE (`stage` is
    `null`), one row per sprite child in stage order; what the table says is
    stated by `SavedTableReadsBack` and `SaveThenLoadRestores`.
  */
  method SaveLevel(stage: Stage?, ghost scene: Scene) returns (list: Table)
    requires stage != null ==> Depicts(stage.children, scene)
    ensures stage == null ==> list == [Header()]
    ensures stage != null ==> list == SaveLevelSpec(scene)
  {
    var header: Row := [];
    var i := 0;
    while i < |Attributes|
      invariant 0 <= i <= |Attributes|
      invariant header == Header()[..i]
    {
      header := header + [Text(Name(Attributes[i]))];
      i := i + 1;
    }
    assert header == Header();
    list := [header];
    if stage == null {
      return;
    }
    var cs := stage.children;
    var k := 0;
    while k < |cs|
      invariant 0 <= k <= |cs|
      invariant list == [Header()] + SpriteRows(scene[..k])
    {
      assert scene[..k + 1][..k] == scene[..k];
      if cs[k].SpriteChild? {
        var row := SaveSprite(cs[k].sprite);
        list := list + [row];
      }
      k := k + 1;
    }
    assert scene[..|cs|] == scene;
  }

  // ---------------------------------------------------------------------------
  // loadLevel
  // ---------------------------------------------------------------------------

  /** The children `removeAllClones` keeps, in order: every child that is not a temporary sprite. */
  function NonClones(cs: seq<Child>): seq<Child>
    reads Sprites(cs)
  {
    if |cs| == 0 then []
    else
      var last := cs[|cs| - 1];
      NonClones(cs[..|cs| - 1]) + if last.SpriteChild? && last.sprite.isTemporary then [] else [last]
  }

  /** Appending one child to each side keeps `Depicts` when the child is drawn as the entry. */
  lemma DepictsAppend(cs: seq<Child>, scene: Scene, c: Child, e: Entry)
    requires Depicts(cs, scene) && EntryOf(c) == e
    ensures Depicts(cs + [c], scene + [e])
  {
    assert forall j | 0 <= j < |cs| :: (cs + [c])[j] == cs[j] && (scene + [e])[j] == scene[j];
  }

  /** The kept children are the stage's picture of `RemoveClones` of the scene. */
  lemma {:induction false} NonClonesDepicts(cs: seq<Child>, scene: Scene)
    requires Depicts(cs, scene)
    ensures Depicts(NonClones(cs), RemoveClones(scene))
    decreases |cs|
  {
    if |cs| > 0 {
      var init, last := cs[..|cs| - 1], cs[|cs| - 1];
      var sinit := scene[..|scene| - 1];
      assert Depicts(init, sinit) by {
        assert forall j | 0 <= j < |init| :: init[j] == cs[j] && sinit[j] == scene[j];
      }
      NonClonesDepicts(init, sinit);
      assert EntryOf(last) == scene[|scene| - 1];
      if !(last.SpriteChild? && last.sprite.isTemporary) {
        DepictsAppend(NonClones(init), RemoveClones(sinit), last, scene[|scene| - 1]);
      }
    }
  }

  /** The kept children are old children, and they still own their transforms. */
  lemma {:induction false} NonClonesOwn(cs: seq<Child>)
    ensures Sprites(NonClones(cs)) <= Sprites(cs) && Transforms(NonClones(cs)) <= Transforms(cs)
    ensures OwnTransforms(cs) ==> OwnTransforms(NonClones(cs))
    decreases |cs|
  {
    if |cs| > 0 {
      var init, last := cs[..|cs| - 1], cs[|cs| - 1];
      NonClonesOwn(init);
      assert forall c | c in init :: c in cs;
      assert last in cs;
      assert Sprites(init) <= Sprites(cs) && Transforms(init) <= Transforms(cs);
      if !(last.SpriteChild? && last.sprite.isTemporary) {
        var kept := NonClones(init);
        assert forall c | c in kept + [last] :: c in kept || c == last;
        if OwnTransforms(cs) && last.SpriteChild? {
          assert forall j | 0 <= j < |init| && init[j].SpriteChild? ::
            init[j].sprite != last.sprite && init[j].sprite.transform != last.sprite.transform by {
            assert forall j | 0 <= j < |init| :: init[j] == cs[j];
          }
          assert last.sprite !in Sprites(kept) && last.sprite.transform !in Transforms(kept);
          var k2 := kept + [last];
          assert forall j | 0 <= j < |kept| :: k2[j] == kept[j] && k2[j] in kept;
        }
      }
    }
  }

  /** The host's `removeAllClones`: the temporary sprites leave the stage; the other children stay, in order. */
  method RemoveAllClones(stage: Stage, ghost scene: Scene)
    requires Depicts(stage.children, scene)
    modifies stage`children
    ensures stage.children == old(NonClones(stage.children))
    ensures Depicts(stage.children, RemoveClones(scene))
    ensures old(OwnTransforms(stage.children)) ==> OwnTransforms(stage.children)
    ensures Sprites(stage.children) <= old(Sprites(stage.children))
    ensures Transforms(stage.children) <= old(Transforms(stage.children))
  {
    var cs := stage.children;
    var kept: seq<Child> := [];
    var i := 0;
    while i < |cs|
      invariant 0 <= i <= |cs|
      invariant kept == NonClones(cs[..i])
    {
      assert cs[..i + 1][..i] == cs[..i];
      if !(cs[i].SpriteChild? && cs[i].sprite.isTemporary) {
        kept := kept + [cs[i]];
      }
      i := i + 1;
    }
    assert cs[..|cs|] == cs;
    NonClonesDepicts(cs, scene);
    NonClonesOwn(cs);
    stage.children := kept;
  }

  /** `stage.children.filter(...)[0]`, as the position of the first sprite named `name`. */
  method FindSprite(stage: Stage, name: string, ghost scene: Scene) returns (k: Option<nat>)
    requires Depicts(stage.children, scene)
    ensures k == FindByName(scene, name)
  {
    var cs := stage.children;
    var i := 0;
    while i < |cs|
      invariant 0 <= i <= |cs|
      invariant FindFrom(scene, name, i) == FindByName(scene, name)
    {
      if cs[i].SpriteChild? && cs[i].sprite.name == name {
        return Some(i);
      }
      i := i + 1;
    }
    return None;
  }

  /**
    The host's `newClone`: a new sprite with the original's pose, costume and
    name, marked temporary, remembering the original's name, and with a
    transform of its own holding the original's values.
  */
  method NewClone(s: Sprite) returns (c: Sprite)
    ensures fresh(c) && fresh(c.transform)
    ensures Record(c) == CloneOf(Record(s))
    ensures c.stage == s.stage && !c.isUpdatingGlobalTransform
  {
    c := new Sprite(s.CurrentPose(), s.rotationOffset, s.extent, s.hasCostume, s.stage, s.name);
    c.isTemporary := true;
    c.cloneOriginName := s.name;
    c.costumeIndex := s.costumeIndex;
    c.shown := s.shown;
    c.transform.position := s.transform.position;
    c.transform.scale := s.transform.scale;
    c.transform.rotation := s.transform.rotation;
  }

  /** One slot's setter, on the live sprite. */
  method WriteAttribute(s: Sprite, a: Attribute, v: Value, camera: Camera?)
    modifies s`heading, s`scale, s`position, s`isUpdatingGlobalTransform, s`dirtyTransform, s`costumeIndex, s`shown, s.transform
    ensures Record(s) == Write(old(Record(s)), a, v)
    ensures s.isUpdatingGlobalTransform == old(s.isUpdatingGlobalTransform)
  {
    match a
    case X =>
      if v.Number? {
        s.GotoXY(v.n, s.YPosition(), camera);
      }
    case Y =>
      if v.Number? {
        s.GotoXY(s.XPosition(), v.n, camera);
      }
    case Direction =>
      if v.Number? {
        s.SetHeading(v.n);
      }
    case Size =>
      if v.Number? {
        s.SetScale(v.n);
      }
    case Costume =>
      if v.Number? {
        s.costumeIndex := v.n;
      }
    case Showing =>
      s.shown := Truthy(v);
    case SpriteName =>
    case IsClone =>
  }

  /** `attrs.forEach(...)` of `loadLevel`: every slot with a setter and a cell in the row is written. */
  method WriteAttributes(s: Sprite, row: Row, header: Row, camera: Camera?)
    modifies s`heading, s`scale, s`position, s`isUpdatingGlobalTransform, s`dirtyTransform, s`costumeIndex, s`shown, s.transform
    ensures Record(s) == WriteRow(old(Record(s)), row, header, Attributes)
    ensures s.isUpdatingGlobalTransform == old(s.isUpdatingGlobalTransform)
  {
    var i := 0;
    while i < |Attributes|
      invariant 0 <= i <= |Attributes|
      invariant Record(s) == WriteRow(old(Record(s)), row, header, Attributes[..i])
      invariant s.isUpdatingGlobalTransform == old(s.isUpdatingGlobalTransform)
    {
      var a := Attributes[i];
      assert Attributes[..i + 1][..i] == Attributes[..i];
      if HasSetter(a) {
        var val := GetAttribute(Name(a), row, header);
        if val.Some? {
          WriteAttribute(s, a, val.value, camera);
        }
      }
      i := i + 1;
    }
    assert Attributes[..i] == Attributes;
  }

  /** A row naming the sprite at position `k`, without a truthy `is clone` cell: its cells are written into that sprite. */
  method WriteExisting(stage: Stage, k: nat, row: Row, header: Row, camera: Camera?, ghost scene: Scene)
    requires Depicts(stage.children, scene) && OwnTransforms(stage.children)
    requires k < |scene| && stage.children[k].SpriteChild?
    modifies stage.children[k].sprite`heading, stage.children[k].sprite`scale, stage.children[k].sprite`position
    modifies stage.children[k].sprite`isUpdatingGlobalTransform, stage.children[k].sprite`dirtyTransform
    modifies stage.children[k].sprite`costumeIndex, stage.children[k].sprite`shown, stage.children[k].sprite.transform
    ensures Depicts(stage.children, scene[k := SpriteEntry(WriteRow(scene[k].rec, row, header, Attributes))])
    ensures stage.children[k].sprite.isUpdatingGlobalTransform == old(stage.children[k].sprite.isUpdatingGlobalTransform)
  {
    var cs := stage.children;
    var sprite := cs[k].sprite;
    WriteAttributes(sprite, row, header, camera);
    assert forall j | 0 <= j < |cs| && j != k :: cs[j].SpriteChild? ==> cs[j].sprite != sprite && cs[j].sprite.transform != sprite.transform;
  }

  /** Appending a sprite adds exactly it and its transform to the footprint. */
  lemma SpriteAppended(cs: seq<Child>, s: Sprite)
    ensures Sprites(cs + [SpriteChild(s)]) == Sprites(cs) + {s}
    ensures Transforms(cs + [SpriteChild(s)]) == Transforms(cs) + {s.transform}
  {
    assert forall d :: d in cs + [SpriteChild(s)] <==> d in cs || d == SpriteChild(s);
  }

  /** A row naming the sprite at position `k`, with a truthy `is clone` cell: its cells are written into a new clone appended to the stage. */
  method AppendClone(stage: Stage, k: nat, row: Row, header: Row, camera: Camera?, ghost scene: Scene)
      returns (c: Sprite)
    requires Depicts(stage.children, scene) && OwnTransforms(stage.children)
    requires k < |scene| && stage.children[k].SpriteChild?
    modifies stage`children
    ensures Depicts(stage.children, scene + [SpriteEntry(WriteRow(CloneOf(scene[k].rec), row, header, Attributes))])
    ensures OwnTransforms(stage.children)
    ensures stage.children == old(stage.children) + [SpriteChild(c)] && fresh(c) && fresh(c.transform)
    ensures c.stage == old(stage.children[k].sprite.stage)
    ensures !c.isUpdatingGlobalTransform
  {
    var cs := stage.children;
    c := NewClone(cs[k].sprite);
    WriteAttributes(c, row, header, camera);
    assert Depicts(cs, scene);
    assert forall j | 0 <= j < |cs| && cs[j].SpriteChild? :: cs[j].sprite != c && cs[j].sprite.transform != c.transform;
    var cs' := cs + [SpriteChild(c)];
    assert forall j | 0 <= j < |cs| :: cs'[j] == cs[j];
    stage.children := cs';
  }

  /** The body of `loadLevel`'s row loop, for one data row: the stage ends as `ApplyRow` says. */
  method LoadRow(stage: Stage, row: Row, header: Row, camera: Camera?, ghost scene: Scene) returns (ghost created: set<object>)
    requires Depicts(stage.children, scene) && OwnTransforms(stage.children)
    modifies stage`children, Transforms(stage.children)
    modifies Sprites(stage.children)`heading, Sprites(stage.children)`scale, Sprites(stage.children)`position
    modifies Sprites(stage.children)`isUpdatingGlobalTransform, Sprites(stage.children)`dirtyTransform
    modifies Sprites(stage.children)`costumeIndex, Sprites(stage.children)`shown
    ensures Depicts(stage.children, ApplyRow(scene, row, header)) && OwnTransforms(stage.children)
    ensures |stage.children| >= |old(stage.children)| && stage.children[..|old(stage.children)|] == old(stage.children)
    ensures forall o | o in created :: fresh(o)
    ensures Sprites(stage.children) <= old(Sprites(stage.children)) + created
    ensures Transforms(stage.children) <= old(Transforms(stage.children)) + created
  {
    created := {};
    var nameCell := NameCell(row, header);
    if !(nameCell.Some? && nameCell.value.Text?) {
      assert ApplyRow(scene, row, header) == scene;
      return;
    }
    var found := FindSprite(stage, nameCell.value.s, scene);
    if found.None? {
      assert ApplyRow(scene, row, header) == scene;
      return;
    }
    var k := found.value;
    var isClone := GetAttribute(Name(IsClone), row, header);
    if isClone.Some? && Truthy(isClone.value) {
      assert ApplyRow(scene, row, header) == scene + [SpriteEntry(WriteRow(CloneOf(scene[k].rec), row, header, Attributes))];
      ghost var cs := stage.children;
      var c := AppendClone(stage, k, row, header, camera, scene);
      SpriteAppended(cs, c);
      created := {c, c.transform};
      assert forall o | o in created :: o == c || o == c.transform;
    } else {
      assert ApplyRow(scene, row, header) == scene[k := SpriteEntry(WriteRow(scene[k].rec, row, header, Attributes))];
      WriteExisting(stage, k, row, header, camera, scene);
    }
  }

  /**
    `loadLevel`: for a null list nothing happens; otherwise the clones are
    removed and every row after the header is applied, so the stage ends as
    `LoadLevelSpec` says.
  */
  method LoadLevel(stage: Stage, list: Option<Table>, camera: Camera?, ghost scene: Scene)
    requires Depicts(stage.children, scene) && OwnTransforms(stage.children)
    modifies stage`children, Transforms(stage.children)
    modifies Sprites(stage.children)`heading, Sprites(stage.children)`scale, Sprites(stage.children)`position
    modifies Sprites(stage.children)`isUpdatingGlobalTransform, Sprites(stage.children)`dirtyTransform
    modifies Sprites(stage.children)`costumeIndex, Sprites(stage.children)`shown
    ensures Depicts(stage.children, LoadLevelSpec(scene, list)) && OwnTransforms(stage.children)
    ensures list.None? ==> stage.children == old(stage.children)
    ensures list.Some? ==> var kept := old(NonClones(stage.children));
      |kept| <= |stage.children| && stage.children[..|kept|] == kept
    ensures forall s | s in Sprites(stage.children) :: s in old(Sprites(stage.children)) || fresh(s)
    ensures forall t | t in Transforms(stage.children) :: t in old(Transforms(stage.children)) || fresh(t)
  {
    if list.None? {
      return;
    }
    var t := list.value;
    RemoveAllClones(stage, scene);
    if |t| == 0 {
      return;
    }
    LoadDataRows(stage, t, camera, RemoveClones(scene));
  }

  /** The row loop of `loadLevel`: row 0 is the header, every later row is applied in order. */
  method LoadDataRows(stage: Stage, t: Table, camera: Camera?, ghost base: Scene)
    requires |t| > 0
    requires Depicts(stage.children, base) && OwnTransforms(stage.children)
    modifies stage`children, Transforms(stage.children)
    modifies Sprites(stage.children)`heading, Sprites(stage.children)`scale, Sprites(stage.children)`position
    modifies Sprites(stage.children)`isUpdatingGlobalTransform, Sprites(stage.children)`dirtyTransform
    modifies Sprites(stage.children)`costumeIndex, Sprites(stage.children)`shown
    ensures Depicts(stage.children, LoadRows(base, t[1..], t[0])) && OwnTransforms(stage.children)
    ensures |old(stage.children)| <= |stage.children| && stage.children[..|old(stage.children)|] == old(stage.children)
    ensures forall s | s in Sprites(stage.children) :: s in old(Sprites(stage.children)) || fresh(s)
    ensures forall t | t in Transforms(stage.children) :: t in old(Transforms(stage.children)) || fresh(t)
  {
    ghost var c0 := stage.children;
    ghost var added: set<object> := {};
    var header := t[0];
    var k := 1;
    while k < |t|
      invariant 1 <= k <= |t|
      invariant Depicts(stage.children, LoadRows(base, t[1..k], header)) && OwnTransforms(stage.children)
      invariant forall o | o in added :: fresh(o)
      invariant Sprites(stage.children) <= Sprites(c0) + added
      invariant Transforms(stage.children) <= Transforms(c0) + added
      invariant |c0| <= |stage.children| && stage.children[..|c0|] == c0
    {
      ghost var sc := LoadRows(base, t[1..k], header);
      ghost var created := LoadRow(stage, t[k], header, camera, sc);
      added := added + created;
      assert t[1..k + 1][..k - 1] == t[1..k];
      k := k + 1;
    }
    assert t[1..k] == t[1..];
  }
}
