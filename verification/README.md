# Frames panel filter rules

A Dafny model of the rules inside Playroom's frames settings panel
(`src/Playroom/FramesPanel/FramesPanel.tsx`). The panel lets a user narrow
the preview frames to some of the available widths and themes, and edit the
session title. The component itself is React markup; the model keeps the
pure rules embedded in it:

- when a visible-option list counts as an applied filter (non-empty and not
  longer than the available list; only lengths are compared);
- when a single checkbox is checked (the filter is active and the option is
  visible);
- the list a checkbox change produces (checking appends without
  de-duplication, unchecking removes every occurrence);
- whether any real theme exists (a theme other than
  `__PLAYROOM__NO_THEME__`);
- the displayed title (`<title> | Playroom`, else `<configured title> | Playroom`,
  else `Playroom`) and the condition under which the document-title effect
  is issued (the title is defined, including the empty string);
- the panel as a function of the store state, and the action a checkbox
  change dispatches.

Files:

- `wrappers.dfy` — `Option`, standing for a JavaScript value that may be `undefined`.
- `frame_filter.dfy` — module `FrameFilter`: activity, selection and the toggle
  transitions, generic over the option type (numeric widths and theme names
  both use it), with their properties.
- `panel_title.dfy` — module `PanelTitle`: the title derivation and the
  title-effect condition. The configured fallback title, which the component
  reads from a process-wide global, is a parameter.
- `frames_panel.dfy` — module `FramesPanel`: `hasThemes`, the rendered
  sections, the change handlers and the scenarios of the panel.

Widths are modelled as `int`. Strings are `seq<char>`; JavaScript truthiness
of a `string | undefined` is "defined and non-empty" (`PanelTitle.Truthy`).

One might expect checking and then unchecking an option to restore the
earlier list. That holds exactly when the option was not visible before. If
it was, unchecking removes the earlier copies as well, so the result is the
list with every occurrence removed (`FrameFilter.ToggleOnThenOff`).

## Model

| member | source | states |
|---|---|---|
| `FrameFilter.IsActive` | src/Playroom/FramesPanel/FramesPanel.tsx:96-99 | a filter is active only with a non-empty visible list and a non-empty available list, and never when the visible list is the longer one |
| `FrameFilter.IsSelected` | src/Playroom/FramesPanel/FramesPanel.tsx:142 | a selected option is visible and the visible list fits the available list; an option that is not visible is never selected |
| `FrameFilter.InactiveWhenEmpty` | src/Playroom/FramesPanel/FramesPanel.tsx:96-99 | an empty visible list, or an empty available list, is never an active filter |
| `FrameFilter.OversizedSelectsNothing` | src/Playroom/FramesPanel/FramesPanel.tsx:96-99 | a visible list longer than the available list is inactive and selects no option, whatever its entries |
| `FrameFilter.ActivityIgnoresEntries` | src/Playroom/FramesPanel/FramesPanel.tsx:96-99 | two visible lists of the same length are equally active: set containment plays no part |
| `FrameFilter.SelectionFollowsActivity` | src/Playroom/FramesPanel/FramesPanel.tsx:142 | an inactive filter selects no option; an active one selects exactly the visible options |
| `FrameFilter.ToggleOn` | src/Playroom/FramesPanel/FramesPanel.tsx:73-75 | checking grows the list by one, keeps the old list as a prefix, puts the option last and adds one copy of it to the multiset |
| `FrameFilter.RemoveAll` | src/Playroom/FramesPanel/FramesPanel.tsx:76-77 | unchecking leaves no copy of the option, keeps every other entry with its multiplicity and in its relative order, and never lengthens the list |
| `FrameFilter.RemoveAllUnique` | src/Playroom/FramesPanel/FramesPanel.tsx:77 | any order-preserving deletion from the list that drops exactly the option's occurrences equals the unchecked list |
| `FrameFilter.RemoveAllMembership` | src/Playroom/FramesPanel/FramesPanel.tsx:77 | after unchecking, a value is in the list iff it was before and differs from the option |
| `FrameFilter.RemoveAllAbsent` | src/Playroom/FramesPanel/FramesPanel.tsx:77 | unchecking an option that is not visible leaves the list unchanged |
| `FrameFilter.ToggleOffIdempotent` | src/Playroom/FramesPanel/FramesPanel.tsx:77 | unchecking twice gives the same list as unchecking once |
| `FrameFilter.RemoveAllAppend` | src/Playroom/FramesPanel/FramesPanel.tsx:74-77 | removing every occurrence from a concatenation removes it from each part |
| `FrameFilter.ToggleOnThenOff` | src/Playroom/FramesPanel/FramesPanel.tsx:73-77 | checking then unchecking equals unchecking alone, and restores the list exactly when the option was not visible |
| `FrameFilter.ToggleOnDuplicates` | src/Playroom/FramesPanel/FramesPanel.tsx:74 | checking an already visible option leaves at least two copies of it and grows the list by one |
| `FrameFilter.Toggle` | src/Playroom/FramesPanel/FramesPanel.tsx:72-79 | the changed list contains the option iff the box was checked; checking keeps the old list as a prefix and puts the option last; unchecking keeps a subsequence of the old list and never lengthens it; other options keep their multiplicities |
| `FrameFilter.SelectionAfterToggle` | src/Playroom/FramesPanel/FramesPanel.tsx:72-79 | a checked option is selected iff the grown list still fits the available list; an unchecked one is never selected; another option stays selected iff the shortened list is active and contained it |
| `PanelTitle.Truthy` | src/Playroom/FramesPanel/FramesPanel.tsx:13-19 | a possibly undefined string is truthy iff it is neither undefined nor the empty string |
| `PanelTitle.GetTitle` | src/Playroom/FramesPanel/FramesPanel.tsx:12-24 | the displayed title is the bare product name or a name followed by the product suffix, and the bare name exactly when neither title is non-empty |
| `PanelTitle.TitleFallback` | src/Playroom/FramesPanel/FramesPanel.tsx:12-24 | reading the name back from the displayed title gives the explicit title if non-empty, else the configured title if non-empty, else no name and "Playroom" |
| `PanelTitle.EmptyTitleDisplaysAsUnset` | src/Playroom/FramesPanel/FramesPanel.tsx:13-23 | an explicit empty title displays exactly as an absent one |
| `PanelTitle.TitleEffect` | src/Playroom/FramesPanel/FramesPanel.tsx:101-109 | the title effect is issued iff the title is defined, carrying the displayed title |
| `PanelTitle.ClearedTitleStillEmits` | src/Playroom/FramesPanel/FramesPanel.tsx:105-109 | an absent title issues no effect; an empty one still does, with the untouched text ("Playroom" without configuration) |
| `FramesPanel.HasThemes` | src/Playroom/FramesPanel/FramesPanel.tsx:92-95 | real themes exist iff some available theme differs from the sentinel |
| `FramesPanel.NoThemesMeansAllSentinel` | src/Playroom/FramesPanel/FramesPanel.tsx:92-95 | there are no real themes iff every available theme is the sentinel, including an empty theme list |
| `FramesPanel.RenderSection` | src/Playroom/FramesPanel/FramesPanel.tsx:131-156 | one checkbox per available option; "Clear" shown iff the filter is active; no box checked without it; with it, a box is checked iff its option is visible |
| `FramesPanel.Render` | src/Playroom/FramesPanel/FramesPanel.tsx:89-189 | the title effect is the title rule applied to the stored title; the widths section is rendered from the stored visible widths, absent ones read as none; the themes section appears iff real themes exist and is rendered from the stored visible themes, absent ones read as none; so an absent list checks nothing and shows no "Clear" |
| `FramesPanel.OnWidthsChange` | src/Playroom/FramesPanel/FramesPanel.tsx:144-153 | a defined list dispatches an update carrying it; an undefined one a reset |
| `FramesPanel.OnThemesChange` | src/Playroom/FramesPanel/FramesPanel.tsx:172-181 | a defined list dispatches an update carrying it; an undefined one a reset |
| `FramesPanel.WidthCheckboxChange` | src/Playroom/FramesPanel/FramesPanel.tsx:138-155 | a width checkbox change always dispatches an update, never a reset, carrying the stored visible widths (none if absent) toggled by the option, so its list holds the option iff the box was checked |
| `FramesPanel.ThemeCheckboxChange` | src/Playroom/FramesPanel/FramesPanel.tsx:166-183 | a theme checkbox change always dispatches an update, never a reset, carrying the stored visible themes (none if absent) toggled by the option, so its list holds the option iff the box was checked |
| `FramesPanel.UncheckLastWidth` | src/Playroom/FramesPanel/FramesPanel.tsx:144-153 | unchecking the only visible width dispatches an update to the empty list, which shows no "Clear" |
| `FramesPanel.ClearWithoutChecks` | src/Playroom/FramesPanel/FramesPanel.tsx:132-142 | stale visible entries that fit the available list show "Clear" with no box checked |
| `FramesPanel.OversizedWidthsScenario` | src/Playroom/FramesPanel/FramesPanel.tsx:138-143 | available [320, 768, 1024] with visible [320, 768, 1024, 999]: no "Clear", and 320 unchecked although visible |
| `FramesPanel.FittingWidthsScenario` | src/Playroom/FramesPanel/FramesPanel.tsx:138-143 | available [320, 768, 1024] with visible [320, 768]: "Clear" shown, 320 and 768 checked, 1024 not |
| `FramesPanel.DuplicateThemeScenario` | src/Playroom/FramesPanel/FramesPanel.tsx:166-171 | checking "a" twice from nothing gives ["a", "a"], active against two themes, with "a" selected |

## Left out

- Rendering, layout components, CSS classes and the checkbox label text (lines 36-52, 81-85, 110-187 apart from the values modelled): markup with no logic.
- The document-head update through `Helmet` (lines 106-108): a foreign side-effecting library; only the condition and the text it would receive are modelled.
- The global read of the configured title (line 17): passed in as a parameter.
- The store behind `StoreContext` and its reducers: not part of this model, so nothing is claimed about the state an action produces, in particular what a reset leaves behind.
- The title field's handler (lines 121-126) and the "Clear" buttons' handlers (lines 134, 162): each dispatches one fixed action with no logic of its own.
- DOM events: the checked flag of a checkbox is a plain boolean input.
- JavaScript numbers: widths are unbounded integers; fractional widths and `NaN` (for which `!==` differs from equality) are not modelled.
- React keys for repeated available options (lines 140, 168) have no effect on the modelled values and are left out.
