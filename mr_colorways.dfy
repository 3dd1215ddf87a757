/** The logic of the onboarding colorway picker (`MRColorways.jsx`): which
    colorway an active theme name belongs to, the theme name each radio
    swatch emits, which swatch is checked, which colorway is described, and
    the component's `colorwayId` state cell. */
module MRColorways {
  import opened Wrappers
  import opened JsStrings

  /** One entry of `content.tiles.colorways`; `displayLabel` is its
      `label` (a keyword in Dafny).  Labels and descriptions are kept as
      plain text; their localization payloads are not modelled. */
  datatype Colorway = Colorway(id: string, displayLabel: string, description: string)

  /** The fields the picker reads from `props.content.tiles`. */
  datatype Tiles = Tiles(
    colorways: seq<Colorway>,
    defaultVariationIndex: int,
    systemVariations: seq<string>,
    variations: seq<string>)

  /** What one swatch renders that carries logic: the colorway it stands
      for, the theme name its radio input emits (`None` when the `value`
      expression is `undefined`), whether the input is `checked`, and
      whether the `selected` decision for its icon (the ternary on
      `colorwayId === id`) holds. */
  datatype Swatch = Swatch(id: string, value: Option<string>, checked: bool, selected: bool)

  /** What `ColorwayDescription` renders for a found colorway: the localized
      text and the `colorwayName` argument passed to it. */
  datatype DescriptionView = DescriptionView(text: string, colorwayName: string)

  /** The logic-bearing part of one render of `Colorways`. */
  datatype View = View(swatches: seq<Swatch>, description: Option<DescriptionView>)

  /** The id every theme without a colorway of its own maps to. */
  const DefaultId: string := "default"

  /** The Alpenglow theme, which the picker shows as the default colorway. */
  const Alpenglow: string := "alpenglow"

  /** The separator between colorway and variation in a theme name. */
  const Dash: char := '-'

  /** `!themeName` for a theme name that is absent or a string. */
  predicate IsFalsy(themeName: Option<string>)
  {
    themeName.None? || themeName.value == ""
  }

  /** The themes that the picker shows as the default colorway: none at
      all, the Alpenglow theme and the system variations
      (automatic, light, dark). */
  predicate ShowsAsDefault(themeName: Option<string>, systemVariations: seq<string>)
  {
    IsFalsy(themeName) || themeName.value == Alpenglow || themeName.value in systemVariations
  }

  /** `computeColorWay`: the colorway id of the active theme.  A theme name
      of the form `colorway-variationId` yields its colorway part. */
  function ComputeColorWay(themeName: Option<string>, systemVariations: seq<string>): (id: string)
    ensures themeName == None || themeName == Some("") ==> id == DefaultId
    ensures themeName == Some(Alpenglow) ==> id == DefaultId
    ensures themeName.Some? && themeName.value in systemVariations ==> id == DefaultId
    // otherwise: the part of the name before its first dash
    ensures !ShowsAsDefault(themeName, systemVariations) ==>
              id <= themeName.value && Dash !in id &&
              (|id| == |themeName.value| || themeName.value[|id|] == Dash)
  {
    if ShowsAsDefault(themeName, systemVariations) then DefaultId
    else Split(themeName.value, Dash)[0]
  }

  /** Outside the default cases the colorway id is the longest dash-free
      prefix of the theme name, and a dash-free name is its own id. */
  lemma ColorwayIsLongestDashFreePrefix(name: string, systemVariations: seq<string>, p: string)
    requires !ShowsAsDefault(Some(name), systemVariations)
    requires p <= name && Dash !in p
    ensures |p| <= |ComputeColorWay(Some(name), systemVariations)|
    ensures |p| == |name| ==> ComputeColorWay(Some(name), systemVariations) == name
  {
    FirstPieceIsLongestFreePrefix(name, Dash, p);
  }

  /** "sunrise-warm" belongs to the "sunrise" colorway unless it is itself
      a system variation. */
  lemma SunriseWarmIsSunrise(systemVariations: seq<string>)
    requires "sunrise-warm" !in systemVariations
    ensures ComputeColorWay(Some("sunrise-warm"), systemVariations) == "sunrise"
  {
    var name := "sunrise" + [Dash] + "warm";
    assert name == "sunrise-warm";
    assert name[1] != Alpenglow[1];
    SplitAfterPiece("sunrise", Dash, "warm");
  }

  /** The `value` of a swatch's radio input: the system variation at the
      default index for the default colorway, `id-variation` for any other
      (with "undefined" as the variation when the index is out of range). */
  function RadioValue(id: string, tiles: Tiles): (value: Option<string>)
    ensures id == DefaultId ==>
              (value.Some? <==> 0 <= tiles.defaultVariationIndex < |tiles.systemVariations|)
    ensures id == DefaultId && value.Some? ==>
              value.value == tiles.systemVariations[tiles.defaultVariationIndex]
    ensures id != DefaultId ==> value.Some? && id + [Dash] <= value.value
    ensures id != DefaultId && 0 <= tiles.defaultVariationIndex < |tiles.variations| ==>
              value.value == id + [Dash] + tiles.variations[tiles.defaultVariationIndex]
    ensures id != DefaultId && !(0 <= tiles.defaultVariationIndex < |tiles.variations|) ==>
              value == Some(id + [Dash] + "undefined")
  {
    if id == DefaultId then
      ElementAt(tiles.systemVariations, tiles.defaultVariationIndex)
    else
      Some(id + [Dash] + TemplateString(ElementAt(tiles.variations, tiles.defaultVariationIndex)))
  }

  /** Decoding the theme name a swatch emits gives back that swatch's id:
      always for the default swatch whose index is in range, and for any
      other swatch exactly when its id has no dash and the emitted name is
      not itself a system variation. */
  lemma {:induction false} RadioValueRoundTrip(id: string, tiles: Tiles)
    ensures id == DefaultId && 0 <= tiles.defaultVariationIndex < |tiles.systemVariations| ==>
              ComputeColorWay(RadioValue(id, tiles), tiles.systemVariations) == id
    ensures id != DefaultId ==>
              (ComputeColorWay(RadioValue(id, tiles), tiles.systemVariations) == id <==>
               Dash !in id && RadioValue(id, tiles).value !in tiles.systemVariations)
  {
    if id != DefaultId {
      var w := TemplateString(ElementAt(tiles.variations, tiles.defaultVariationIndex));
      var name := id + [Dash] + w;
      assert RadioValue(id, tiles) == Some(name);
      assert name[|id|] == Dash;
      assert Dash !in Alpenglow;
      assert name != Alpenglow;
      if name !in tiles.systemVariations {
        if Dash !in id {
          SplitAfterPiece(id, Dash, w);
        } else {
          var decoded := ComputeColorWay(Some(name), tiles.systemVariations);
          assert Dash !in decoded;
        }
      }
    }
  }

  /** The swatch rendered for colorway `c` while the state holds `colorwayId`. */
  function RenderSwatch(c: Colorway, colorwayId: string, tiles: Tiles): (swatch: Swatch)
    ensures swatch.id == c.id && swatch.value == RadioValue(c.id, tiles)
    ensures swatch.checked <==> c.id == colorwayId
    ensures swatch.selected == swatch.checked
  {
    Swatch(c.id, RadioValue(c.id, tiles), colorwayId == c.id, colorwayId == c.id)
  }

  /** `colorways.map(...)`: one swatch per colorway, in order.  A swatch is
      checked, and its `selected` decision holds, exactly when its id is the state's
      `colorwayId`. */
  function RenderSwatches(tiles: Tiles, colorwayId: string): (swatches: seq<Swatch>)
    ensures |swatches| == |tiles.colorways|
    ensures forall k :: 0 <= k < |swatches| ==>
              swatches[k].id == tiles.colorways[k].id &&
              swatches[k].value == RadioValue(tiles.colorways[k].id, tiles) &&
              (swatches[k].checked <==> tiles.colorways[k].id == colorwayId) &&
              swatches[k].selected == swatches[k].checked
  {
    seq(|tiles.colorways|, k requires 0 <= k < |tiles.colorways| =>
      RenderSwatch(tiles.colorways[k], colorwayId, tiles))
  }

  /** No two colorways share an id. */
  predicate UniqueIds(colorways: seq<Colorway>)
  {
    forall j, k :: 0 <= j < k < |colorways| ==> colorways[j].id != colorways[k].id
  }

  /** Whether some colorway has the id `id`. */
  predicate HasId(colorways: seq<Colorway>, id: string)
  {
    exists k :: 0 <= k < |colorways| && colorways[k].id == id
  }

  /** The number of checked swatches. */
  function CountChecked(swatches: seq<Swatch>): (n: nat)
    ensures n <= |swatches|
  {
    if swatches == [] then 0
    else (if swatches[0].checked then 1 else 0) + CountChecked(swatches[1..])
  }

  /** Among swatches of distinct ids that are checked exactly when their id
      is `colorwayId`, the number checked is one if `colorwayId` occurs and
      zero otherwise. */
  lemma {:induction false} CountCheckedOfDistinct(swatches: seq<Swatch>, colorwayId: string)
    requires forall j, k :: 0 <= j < k < |swatches| ==> swatches[j].id != swatches[k].id
    requires forall k :: 0 <= k < |swatches| ==> (swatches[k].checked <==> swatches[k].id == colorwayId)
    ensures CountChecked(swatches) ==
            if exists k :: 0 <= k < |swatches| && swatches[k].id == colorwayId then 1 else 0
    decreases |swatches|
  {
    if swatches != [] {
      var rest := swatches[1..];
      CountCheckedOfDistinct(rest, colorwayId);
      if swatches[0].id == colorwayId {
        forall k | 0 <= k < |rest| ensures rest[k].id != colorwayId {
          assert rest[k] == swatches[k + 1];
        }
      } else {
        if exists k :: 0 <= k < |swatches| && swatches[k].id == colorwayId {
          var k :| 0 <= k < |swatches| && swatches[k].id == colorwayId;
          assert rest[k - 1] == swatches[k];
        }
      }
    }
  }

  /** With distinct colorway ids exactly one swatch is checked when the
      state's `colorwayId` is one of them, and none otherwise (a theme whose
      colorway is not offered checks nothing). */
  lemma ExactlyOneCheckedWhenOffered(tiles: Tiles, colorwayId: string)
    requires UniqueIds(tiles.colorways)
    ensures CountChecked(RenderSwatches(tiles, colorwayId)) ==
            if HasId(tiles.colorways, colorwayId) then 1 else 0
  {
    var swatches := RenderSwatches(tiles, colorwayId);
    CountCheckedOfDistinct(swatches, colorwayId);
    if HasId(tiles.colorways, colorwayId) {
      var k :| 0 <= k < |tiles.colorways| && tiles.colorways[k].id == colorwayId;
      assert swatches[k].id == colorwayId;
    }
  }

  /** `colorways.find(colorway => colorway.id === id)`: the first colorway
      with that id, or nothing when none has it. */
  function FindById(colorways: seq<Colorway>, id: string): (found: Option<Colorway>)
    ensures found.None? <==> !HasId(colorways, id)
    ensures found.Some? ==>
              exists k :: 0 <= k < |colorways| && colorways[k] == found.value &&
                          colorways[k].id == id &&
                          forall j :: 0 <= j < k ==> colorways[j].id != id
    decreases |colorways|
  {
    if |colorways| == 0 then None
    else if colorways[0].id == id then Some(colorways[0])
    else
      var found := FindById(colorways[1..], id);
      assert forall j :: 1 <= j < |colorways| ==> colorways[1..][j - 1] == colorways[j];
      found
  }

  /** With distinct ids the colorway found for `id` is the one with that id. */
  lemma FindByUniqueId(colorways: seq<Colorway>, id: string, k: nat)
    requires UniqueIds(colorways)
    requires k < |colorways|
    ensures FindById(colorways, id) == Some(colorways[k]) <==> colorways[k].id == id
  {
    var found := FindById(colorways, id);
    if colorways[k].id == id {
      var j :| 0 <= j < |colorways| && colorways[j] == found.value &&
                colorways[j].id == id && forall i :: 0 <= i < j ==> colorways[i].id != id;
      assert j == k;
    }
  }

  /** `ColorwayDescription`: nothing without a colorway, otherwise its
      description with its label as the `colorwayName` argument. */
  function ColorwayDescription(colorway: Option<Colorway>): (view: Option<DescriptionView>)
    ensures view.None? <==> colorway.None?
    ensures colorway.Some? ==>
              view.value.text == colorway.value.description &&
              view.value.colorwayName == colorway.value.displayLabel
  {
    match colorway
    case None => None
    case Some(c) => Some(DescriptionView(c.description, c.displayLabel))
  }

  /** One render of `Colorways` with state `colorwayId` and prop
      `activeTheme`.  The swatches follow the state; the description
      follows the colorway computed afresh from `activeTheme`. */
  function RenderColorways(tiles: Tiles, colorwayId: string, activeTheme: Option<string>): (view: View)
    ensures view.swatches == RenderSwatches(tiles, colorwayId)
    ensures var activeId := ComputeColorWay(activeTheme, tiles.systemVariations);
            (view.description.None? <==> !HasId(tiles.colorways, activeId)) &&
            (view.description.Some? ==>
               exists k :: 0 <= k < |tiles.colorways| && tiles.colorways[k].id == activeId &&
                           (forall j :: 0 <= j < k ==> tiles.colorways[j].id != activeId) &&
                           view.description.value ==
                             DescriptionView(tiles.colorways[k].description, tiles.colorways[k].displayLabel))
  {
    var activeId := ComputeColorWay(activeTheme, tiles.systemVariations);
    View(RenderSwatches(tiles, colorwayId), ColorwayDescription(FindById(tiles.colorways, activeId)))
  }

  /** Once the state agrees with the active theme, and ids are distinct,
      a swatch is checked exactly when its colorway is the one described. */
  lemma SyncedRenderAgrees(tiles: Tiles, activeTheme: Option<string>, k: nat)
    requires UniqueIds(tiles.colorways)
    requires k < |tiles.colorways|
    ensures var activeId := ComputeColorWay(activeTheme, tiles.systemVariations);
            RenderColorways(tiles, activeId, activeTheme).swatches[k].checked <==>
            FindById(tiles.colorways, activeId) == Some(tiles.colorways[k])
  {
    FindByUniqueId(tiles.colorways, ComputeColorWay(activeTheme, tiles.systemVariations), k);
  }

  /** The `colorwayId` state of one mounted `Colorways` component. */
  class ColorwayPicker {
    var colorwayId: string

    /** `useState(activeId)`: the state starts at the colorway of the theme
        active at mount. */
    constructor(activeTheme: Option<string>, systemVariations: seq<string>)
      ensures colorwayId == ComputeColorWay(activeTheme, systemVariations)
    {
      colorwayId := ComputeColorWay(activeTheme, systemVariations);
    }

    /** The effect run when `activeTheme` changes: the state is reset to the
        colorway of the new theme. */
    method OnActiveThemeChange(activeTheme: Option<string>, systemVariations: seq<string>)
      modifies this
      ensures colorwayId == ComputeColorWay(activeTheme, systemVariations)
    {
      colorwayId := ComputeColorWay(activeTheme, systemVariations);
    }

    /** What the component renders from its current state. */
    function Render(tiles: Tiles, activeTheme: Option<string>): (view: View)
      reads this
      ensures view == RenderColorways(tiles, colorwayId, activeTheme)
      ensures |view.swatches| == |tiles.colorways|
      ensures forall k :: 0 <= k < |view.swatches| ==>
                (view.swatches[k].checked <==> tiles.colorways[k].id == colorwayId) &&
                view.swatches[k].selected == view.swatches[k].checked
    {
      RenderColorways(tiles, colorwayId, activeTheme)
    }
  }

  /** Switching themes: from a fresh picker, through
      any change of theme, the checked swatch follows the active theme. */
  method SwitchTheme(tiles: Tiles, first: Option<string>, next: Option<string>) returns (view: View)
    ensures view == RenderColorways(tiles, ComputeColorWay(next, tiles.systemVariations), next)
  {
    var picker := new ColorwayPicker(first, tiles.systemVariations);
    picker.OnActiveThemeChange(next, tiles.systemVariations);
    view := picker.Render(tiles, next);
  }
}
