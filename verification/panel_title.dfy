/**
 * The document title the frames panel shows: the explicit session title if it
 * is a non-empty string, else the configured fallback title if that is
 * non-empty, else the bare product name. The configured title is read from
 * process-wide configuration by the panel; here it is a parameter.
 */
module PanelTitle {
  import opened Wrappers

  const ProductName: string := "Playroom"
  const TitleSuffix: string := " | Playroom"

  /** JavaScript truthiness of a `string | undefined`: defined and not the empty string. */
  predicate Truthy(s: Option<string>)
    ensures Truthy(s) <==> s != None && s != Some("")
  {
    s.Some? && s.value != ""
  }

  /**
   * The displayed title. It is either the bare product name, or a name followed
   * by the product suffix; it is the bare product name exactly when neither the
   * explicit nor the configured title is truthy.
   */
  function GetTitle(title: Option<string>, configTitle: Option<string>): (r: string)
    ensures r == ProductName || (|r| > |TitleSuffix| && r[|r| - |TitleSuffix|..] == TitleSuffix)
    ensures r == ProductName <==> !Truthy(title) && !Truthy(configTitle)
  {
    if Truthy(title) then title.value + TitleSuffix
    else if Truthy(configTitle) then configTitle.value + TitleSuffix
    else ProductName
  }

  /** The name a displayed title carries in front of the product suffix, if it has one. */
  function ShownName(display: string): (n: Option<string>)
    ensures n.Some? ==> n.value + TitleSuffix == display
    ensures n.None? ==> !(|display| > |TitleSuffix| && display[|display| - |TitleSuffix|..] == TitleSuffix)
  {
    if |display| > |TitleSuffix| && display[|display| - |TitleSuffix|..] == TitleSuffix
    then Some(display[..|display| - |TitleSuffix|])
    else None
  }

  /**
   * The three-way fallback, read back from the displayed text: a truthy explicit
   * title is the name shown; otherwise a truthy configured title is; otherwise
   * the display is the bare product name and shows no name.
   */
  lemma TitleFallback(title: Option<string>, configTitle: Option<string>)
    ensures Truthy(title) ==> ShownName(GetTitle(title, configTitle)) == title
    ensures !Truthy(title) && Truthy(configTitle) ==> ShownName(GetTitle(title, configTitle)) == configTitle
    ensures !Truthy(title) && !Truthy(configTitle) ==> GetTitle(title, configTitle) == ProductName
    ensures !Truthy(title) && !Truthy(configTitle) ==> ShownName(GetTitle(title, configTitle)) == None
  {
    var d := GetTitle(title, configTitle);
    if Truthy(title) || Truthy(configTitle) {
      var name := if Truthy(title) then title.value else configTitle.value;
      assert d == name + TitleSuffix;
      assert d[..|d| - |TitleSuffix|] == name;
    }
  }

  /** An explicit empty title is displayed exactly as an absent one. */
  lemma EmptyTitleDisplaysAsUnset(configTitle: Option<string>)
    ensures GetTitle(Some(""), configTitle) == GetTitle(None, configTitle)
  {
  }

  /**
   * The document-title side effect: issued, carrying the displayed title, only
   * when a title is defined, including the empty string.
   */
  function TitleEffect(title: Option<string>, configTitle: Option<string>): (e: Option<string>)
    ensures e.Some? <==> title.Some?
    ensures e.Some? ==> e.value == GetTitle(title, configTitle)
  {
    if title.None? then None else Some(GetTitle(title, configTitle))
  }

  /**
   * A title field that was touched and cleared still issues the effect, with the
   * text an untouched field would display; an untouched field issues none.
   */
  lemma ClearedTitleStillEmits(configTitle: Option<string>)
    ensures TitleEffect(None, configTitle) == None
    ensures TitleEffect(Some(""), configTitle) == Some(GetTitle(None, configTitle))
    ensures configTitle == None ==> TitleEffect(Some(""), configTitle) == Some(ProductName)
  {
  }
}
