# Colorway picker logic of the onboarding flow

This project models, in Dafny, the logic inside
`browser/components/newtab/content-src/aboutwelcome/components/MRColorways.jsx`.
That file renders the colorway theme picker of the about:welcome onboarding flow.
The rendering itself is presentation. Inside it sit a few small decisions, and these are modelled:

- `computeColorWay(themeName, systemVariations)` maps the active theme name to a colorway id.
  The id is `"default"` for no theme, for the empty name, for the Alpenglow theme (`"alpenglow"`) and for a system variation (automatic, light, dark).
  For any other name it is the part before the first `-`, since colorway themes are named `colorway-variationId`.
- Each swatch's radio input emits a theme name as its `value`.
  The default swatch emits the system variation at `defaultVariationIndex`.
  Every other swatch emits `id-variation`.
- A swatch is `checked`, and the `selected` decision for its icon (line 105) holds, exactly when its id equals the state `colorwayId`.
- The description shown is that of the first colorway whose id is the active colorway id, or nothing.
- The `colorwayId` state starts at the active theme's colorway and is reset whenever `activeTheme` changes.

Files:

- `wrappers.dfy`: `Option`, standing for a JavaScript value that may be `undefined`.
- `js_strings.dfy`: the JavaScript semantics used by the component.
  It covers `split` on a one-character separator and its inverse `join`, array indexing that yields `undefined` out of range, and how a template literal renders `undefined`.
- `mr_colorways.dfy`: the component.
  Pure expressions become functions over datatypes (`Colorway`, `Tiles`, `Swatch`, `View`).
  The `useState`/`useEffect` state cell becomes the class `ColorwayPicker`, with one field and a method that overwrites it.

A theme name is `Option<string>`: `None` is an absent (`null`/`undefined`) name, and `None` and `""` are the falsy names.
A JavaScript `undefined` produced by indexing past an array's end is `None` as well.

Two points where the code is weaker than a casual reading suggests:

- Exactly one swatch is checked only when the state's colorway id is one of the offered ids, and the ids are distinct.
  A legacy theme such as `"foo-bar"` with no `"foo"` colorway checks no swatch. `ExactlyOneCheckedWhenOffered` states both cases.
  The comment above `computeColorWay` (lines 26-27) says legacy colorways map to `"default"`, but the code (lines 31-35) does not do that: it maps them to their prefix. The model follows the code.
- The description follows the colorway computed from the current `activeTheme` prop.
  The checked swatch follows the state. They agree once the state has been reset for that theme (`SyncedRenderAgrees`).

## Model

| member | source | states |
|---|---|---|
| `JsStrings.Split` | browser/components/newtab/content-src/aboutwelcome/components/MRColorways.jsx:35 | `split("-")` yields at least one piece, no piece holds the separator, and the first piece is the prefix of the string up to its first separator, or the whole string |
| `JsStrings.JoinSplit` | browser/components/newtab/content-src/aboutwelcome/components/MRColorways.jsx:35 | joining the pieces of a split with the separator gives back the original string |
| `JsStrings.SplitJoin` | browser/components/newtab/content-src/aboutwelcome/components/MRColorways.jsx:35 | splitting the join of separator-free pieces gives back those pieces, so split and join are inverse |
| `JsStrings.SplitAfterPiece` | browser/components/newtab/content-src/aboutwelcome/components/MRColorways.jsx:35 | a separator-free piece followed by the separator splits off as the first piece, and the rest splits on its own |
| `JsStrings.SplitWithoutSeparator` | browser/components/newtab/content-src/aboutwelcome/components/MRColorways.jsx:35 | a string with no separator splits into itself alone |
| `JsStrings.FirstPieceIsLongestFreePrefix` | browser/components/newtab/content-src/aboutwelcome/components/MRColorways.jsx:35 | a string is the first piece of the split if and only if it is a separator-free prefix that is the whole string or is followed by a separator |
| `JsStrings.ElementAt` | browser/components/newtab/content-src/aboutwelcome/components/MRColorways.jsx:91-92 | indexing an array gives an element exactly when the index is in range, and that element is the one at the index |
| `JsStrings.TemplateString` | browser/components/newtab/content-src/aboutwelcome/components/MRColorways.jsx:92 | a template literal renders a string as itself and `undefined` as the text "undefined" |
| `MRColorways.ComputeColorWay` | browser/components/newtab/content-src/aboutwelcome/components/MRColorways.jsx:26-36 | the id is "default" for an absent or empty name, for "alpenglow" and for a system variation; otherwise it is a dash-free prefix of the name that is the whole name or is followed by a dash |
| `MRColorways.ColorwayIsLongestDashFreePrefix` | browser/components/newtab/content-src/aboutwelcome/components/MRColorways.jsx:28-35 | outside the default cases no dash-free prefix of the name is longer than the id, and a dash-free name is its own id |
| `MRColorways.SunriseWarmIsSunrise` | browser/components/newtab/content-src/aboutwelcome/components/MRColorways.jsx:28-35 | "sunrise-warm" maps to "sunrise" whenever it is not a system variation |
| `MRColorways.RadioValue` | browser/components/newtab/content-src/aboutwelcome/components/MRColorways.jsx:89-93 | the default swatch emits the system variation at the default index, and emits nothing when the index is out of range; any other swatch emits its id, a dash and the variation at that index, or its id followed by "-undefined" when the index is out of range |
| `MRColorways.RadioValueRoundTrip` | browser/components/newtab/content-src/aboutwelcome/components/MRColorways.jsx:30-36 | the emitted name of the default swatch decodes to "default" when the index is in range; another swatch's name decodes to its own id if and only if the id has no dash and the name is not a system variation |
| `MRColorways.RenderSwatches` | browser/components/newtab/content-src/aboutwelcome/components/MRColorways.jsx:63-110 | one swatch per colorway, in order, carrying that colorway's radio value; it is checked exactly when its id equals `colorwayId`, and selected exactly when checked |
| `MRColorways.CountCheckedOfDistinct` | browser/components/newtab/content-src/aboutwelcome/components/MRColorways.jsx:94 | among swatches with distinct ids, each checked exactly when its id is `colorwayId`, one is checked if that id occurs and none otherwise |
| `MRColorways.ExactlyOneCheckedWhenOffered` | browser/components/newtab/content-src/aboutwelcome/components/MRColorways.jsx:94-106 | with distinct colorway ids exactly one swatch is checked when `colorwayId` is among them, and none when it is not |
| `MRColorways.FindById` | browser/components/newtab/content-src/aboutwelcome/components/MRColorways.jsx:114 | `find` returns nothing exactly when no colorway has the id, and otherwise the first colorway that has it |
| `MRColorways.FindByUniqueId` | browser/components/newtab/content-src/aboutwelcome/components/MRColorways.jsx:114 | with distinct ids, `find` returns a given colorway exactly when that colorway has the id |
| `MRColorways.ColorwayDescription` | browser/components/newtab/content-src/aboutwelcome/components/MRColorways.jsx:8-24 | nothing is rendered without a colorway; otherwise its description is rendered with its label as the colorway name |
| `MRColorways.RenderColorways` | browser/components/newtab/content-src/aboutwelcome/components/MRColorways.jsx:47-117 | the swatches follow the state; a description appears exactly when some colorway has the active theme's colorway id, and it is the first such colorway's |
| `MRColorways.SyncedRenderAgrees` | browser/components/newtab/content-src/aboutwelcome/components/MRColorways.jsx:47-54 | once the state equals the active theme's colorway id, and ids are distinct, a swatch is checked exactly when its colorway is the one described |
| `MRColorways.ColorwayPicker.constructor` | browser/components/newtab/content-src/aboutwelcome/components/MRColorways.jsx:47-48 | the state starts at the colorway id of the theme active at mount |
| `MRColorways.ColorwayPicker.OnActiveThemeChange` | browser/components/newtab/content-src/aboutwelcome/components/MRColorways.jsx:50-54 | after a change of active theme the state is the colorway id of the new theme |
| `MRColorways.ColorwayPicker.Render` | browser/components/newtab/content-src/aboutwelcome/components/MRColorways.jsx:94-114 | the component renders the view of its current state; a swatch is checked, and the `selected` decision of line 105 holds for it, exactly when its id equals the state |
| `MRColorways.SwitchTheme` | browser/components/newtab/content-src/aboutwelcome/components/MRColorways.jsx:47-54 | after mounting with one theme and switching to another, the view is the one rendered from the new theme's colorway id |

## Left out

- JSX and DOM construction, CSS class strings other than the `selected` decision at line 105, and the `title`, `id`, `key` and `aria-labelledby` attributes: presentation without logic. The icon's class string also includes the id itself (line 106), so an id that is literally `selected` adds that class whatever the state; this is not modelled.
- The `Localized` wrapper and the `data-l10n-args` JSON payloads: they belong to a localization library and a JSON serializer that are not part of this model. Labels and descriptions are plain text here, and the `typeof … === "object"` routing of tooltips and labels is not modelled.
- `props.handleAction` on click: a callback supplied by the caller, whose effect lies outside the file.
- React scheduling: render timing, the dependency-array comparison and the transient render between a new `activeTheme` and its effect are not modelled. The effect is an explicit call of `OnActiveThemeChange`.
- Theme names and array elements of other JavaScript types: a theme name is an absent value or a string, and `defaultVariationIndex` is an integer.
- Absent arrays in `tiles`: `systemVariations`, `colorways` and `variations` are always present sequences here. In the code, an absent one can throw a TypeError (lines 33, 63, 91-92), depending on the theme and the colorways offered.
- What the browser reports as the value of a radio input whose `value` is `undefined`: `RadioValue` returns `None` for it, and the round trip for the default swatch is stated only for an index in range.
