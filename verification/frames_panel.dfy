/**
 * The frames panel as a function of the store state: which sections it shows,
 * which boxes are checked, whether each "Clear" button appears, the document
 * title effect, and the action a checkbox change dispatches. Layout and
 * markup are not modelled.
 */
module FramesPanel {
  import opened Wrappers
  import opened FrameFilter
  import opened PanelTitle

  /** The theme name that stands for "no theme configured". */
  const NoThemeSentinel: string := "__PLAYROOM__NO_THEME__"

  /** The part of the store state the panel reads; every field may be absent. */
  datatype StoreState = StoreState(
    visibleWidths: Option<seq<int>>,
    visibleThemes: Option<seq<string>>,
    title: Option<string>)

  /** The actions the panel dispatches to the store. */
  datatype Action =
    | UpdateTitle(title: string)
    | ResetVisibleWidths
    | UpdateVisibleWidths(widths: seq<int>)
    | ResetVisibleThemes
    | UpdateVisibleThemes(themes: seq<string>)

  /** One option category as shown: whether "Clear" appears, and one checkbox state per available option. */
  datatype Section = Section(showReset: bool, checked: seq<bool>)

  /** What the panel shows for one store state. */
  datatype PanelView = PanelView(titleEffect: Option<string>, widths: Section, themes: Option<Section>)

  /** There are real themes when some available theme is not the sentinel. */
  function HasThemes(availableThemes: seq<string>): (r: bool)
    ensures r <==> exists t :: t in availableThemes && t != NoThemeSentinel
  {
    var named := RemoveAll(availableThemes, NoThemeSentinel);
    RemoveAllMembership(availableThemes, NoThemeSentinel);
    assert named != [] ==> named[0] in named;
    |named| > 0
  }

  /** Without real themes every available theme is the sentinel, which includes an empty theme list. */
  lemma NoThemesMeansAllSentinel(availableThemes: seq<string>)
    ensures !HasThemes(availableThemes)
        <==> forall i :: 0 <= i < |availableThemes| ==> availableThemes[i] == NoThemeSentinel
  {
    if HasThemes(availableThemes) {
      var t :| t in availableThemes && t != NoThemeSentinel;
      var i :| 0 <= i < |availableThemes| && availableThemes[i] == t;
    } else {
      forall i | 0 <= i < |availableThemes| ensures availableThemes[i] == NoThemeSentinel {
        assert availableThemes[i] in availableThemes;
      }
    }
  }

  /**
   * One option category: "Clear" appears while the filter is active; no box is
   * checked while it is not; while it is, a box is checked exactly when its
   * option is visible.
   */
  function RenderSection<T(==)>(available: seq<T>, visible: seq<T>): (s: Section)
    ensures |s.checked| == |available|
    ensures s.showReset <==> 0 < |visible| <= |available|
    ensures !s.showReset ==> forall i :: 0 <= i < |available| ==> !s.checked[i]
    ensures s.showReset ==> forall i :: 0 <= i < |available| ==> (s.checked[i] <==> available[i] in visible)
  {
    Section(
      IsActive(available, visible),
      seq(|available|, i requires 0 <= i < |available| => IsSelected(available[i], available, visible)))
  }

  /**
   * The whole panel: absent visible lists default to empty ones, the themes
   * section appears only with real themes, and the title effect follows the
   * title rules.
   */
  function Render(availableWidths: seq<int>, availableThemes: seq<string>, state: StoreState, configTitle: Option<string>)
    : (v: PanelView)
    ensures v.titleEffect.Some? <==> state.title.Some?
    ensures v.themes.Some? <==> exists t :: t in availableThemes && t != NoThemeSentinel
    ensures |v.widths.checked| == |availableWidths|
    ensures v.themes.Some? ==> |v.themes.value.checked| == |availableThemes|
    ensures v.titleEffect == TitleEffect(state.title, configTitle)
    ensures v.widths == RenderSection(availableWidths, state.visibleWidths.GetOr([]))
    ensures v.themes.Some? ==> v.themes.value == RenderSection(availableThemes, state.visibleThemes.GetOr([]))
    ensures state.visibleWidths.None? ==> !v.widths.showReset && forall i :: 0 <= i < |availableWidths| ==> !v.widths.checked[i]
    ensures state.visibleThemes.None? && v.themes.Some? ==>
      !v.themes.value.showReset && forall i :: 0 <= i < |availableThemes| ==> !v.themes.value.checked[i]
  {
    var visibleWidths := state.visibleWidths.GetOr([]);
    var visibleThemes := state.visibleThemes.GetOr([]);
    PanelView(
      TitleEffect(state.title, configTitle),
      RenderSection(availableWidths, visibleWidths),
      if HasThemes(availableThemes) then Some(RenderSection(availableThemes, visibleThemes)) else None)
  }

  /** The widths section's change handler: a defined list updates the widths, an undefined one resets them. */
  function OnWidthsChange(newWidths: Option<seq<int>>): (a: Action)
    ensures a.UpdateVisibleWidths? || a.ResetVisibleWidths?
    ensures a.UpdateVisibleWidths? <==> newWidths.Some?
    ensures a.UpdateVisibleWidths? ==> a.widths == newWidths.value
  {
    match newWidths
    case Some(widths) => UpdateVisibleWidths(widths)
    case None => ResetVisibleWidths
  }

  /** The themes section's change handler: a defined list updates the themes, an undefined one resets them. */
  function OnThemesChange(newThemes: Option<seq<string>>): (a: Action)
    ensures a.UpdateVisibleThemes? || a.ResetVisibleThemes?
    ensures a.UpdateVisibleThemes? <==> newThemes.Some?
    ensures a.UpdateVisibleThemes? ==> a.themes == newThemes.value
  {
    match newThemes
    case Some(themes) => UpdateVisibleThemes(themes)
    case None => ResetVisibleThemes
  }

  /**
   * A width checkbox change. The option component always hands on a defined
   * list, so the reset branch of the handler is never taken, not even when
   * the last visible width is unchecked.
   */
  function WidthCheckboxChange(state: StoreState, option: int, checked: bool): (a: Action)
    ensures a == UpdateVisibleWidths(Toggle(state.visibleWidths.GetOr([]), option, checked))
    ensures checked ==> option in a.widths
    ensures !checked ==> option !in a.widths
  {
    OnWidthsChange(Some(Toggle(state.visibleWidths.GetOr([]), option, checked)))
  }

  /** A theme checkbox change; as for widths, it always dispatches an update. */
  function ThemeCheckboxChange(state: StoreState, option: string, checked: bool): (a: Action)
    ensures a == UpdateVisibleThemes(Toggle(state.visibleThemes.GetOr([]), option, checked))
    ensures checked ==> option in a.themes
    ensures !checked ==> option !in a.themes
  {
    OnThemesChange(Some(Toggle(state.visibleThemes.GetOr([]), option, checked)))
  }

  /**
   * Unchecking the only visible width dispatches an update to the empty list
   * rather than a reset; that list is no active filter.
   */
  lemma UncheckLastWidth(availableWidths: seq<int>, w: int, configTitle: Option<string>)
    ensures WidthCheckboxChange(StoreState(Some([w]), None, None), w, false) == UpdateVisibleWidths([])
    ensures !Render(availableWidths, [], StoreState(Some([]), None, None), configTitle).widths.showReset
  {
    assert RemoveAll([w], w) == [];
  }

  /**
   * "Clear" can appear with no box checked: a visible list of stale entries
   * that fits within the available list is an active filter matching nothing.
   */
  lemma ClearWithoutChecks()
    ensures var s := RenderSection([320, 768], [999]);
      s.showReset && !s.checked[0] && !s.checked[1]
  {
  }

  /** Oversized visible widths: the filter is ignored, even for an option that is visible. */
  lemma OversizedWidthsScenario()
    ensures var s := RenderSection([320, 768, 1024], [320, 768, 1024, 999]);
      !s.showReset && !s.checked[0]
  {
    OversizedSelectsNothing([320, 768, 1024], [320, 768, 1024, 999], 320);
  }

  /** A fitting visible list checks exactly the visible options. */
  lemma FittingWidthsScenario()
    ensures var s := RenderSection([320, 768, 1024], [320, 768]);
      s.showReset && s.checked == [true, true, false]
  {
  }

  /** Checking the same theme twice keeps a duplicate, which still fits two available themes. */
  lemma DuplicateThemeScenario()
    ensures var twice := Toggle(Toggle([], "a", true), "a", true);
      twice == ["a", "a"] && IsActive(["a", "b"], twice) && IsSelected("a", ["a", "b"], twice)
  {
  }
}
