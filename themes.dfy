// The application's four colour themes: the names and aliases it accepts,
// the index the settings screen uses for each, the resource dictionary that
// holds each, and the swap of that dictionary when the theme changes. Only
// the dictionaries' sources are modelled; windows and their refresh are not.

module Themes {
  import opened Common
  import opened Text
  import opened Linq

  /** The four themes. `CurrentTheme` only ever holds one of their names. */
  datatype Theme = Dark | Light | Blue | Green

  /** `AvailableThemes`, in index order. */
  const AvailableThemes: seq<Theme> := [Dark, Light, Blue, Green]

  /** The name a theme is stored and shown under. */
  function Name(t: Theme): (r: string)
    ensures |r| >= 4
  {
    match t
    case Dark => "Dark"
    case Light => "Light"
    case Blue => "Blue"
    case Green => "Green"
  }

  /** `NormalizeThemeName`: the lower-cased name, the Persian name or the
    * index digit of a theme gives that theme; anything else gives Dark. */
  function NormalizeThemeName(themeName: string): (r: Theme)
    ensures r == Light <==> ToLower(themeName) in {"light", "روشن", "1"}
    ensures r == Blue <==> ToLower(themeName) in {"blue", "آبی", "2"}
    ensures r == Green <==> ToLower(themeName) in {"green", "سبز", "3"}
  {
    var l := ToLower(themeName);
    if l == "light" || l == "روشن" || l == "1" then Light
    else if l == "blue" || l == "آبی" || l == "2" then Blue
    else if l == "green" || l == "سبز" || l == "3" then Green
    else Dark
  }

  /** Lower-casing the first letter of a name. */
  lemma LowerFirst(s: string)
    requires |s| > 0 && 'A' <= s[0] <= 'Z'
    ensures ToLower(s) == [(s[0] as int + 32) as char] + ToLower(s[1..])
  {
  }

  /** A theme's own name normalises to that theme. */
  lemma NormalizeName(t: Theme)
    ensures NormalizeThemeName(Name(t)) == t
  {
    var n := Name(t);
    LowerFirst(n);
    assert ToLower(n[1..]) == n[1..];
    assert ToLower(n)[0] != '1' && ToLower(n)[0] != '2' && ToLower(n)[0] != '3';
  }

  /** Normalising twice is normalising once. */
  lemma NormalizeIsIdempotent(themeName: string)
    ensures NormalizeThemeName(Name(NormalizeThemeName(themeName))) == NormalizeThemeName(themeName)
  {
    NormalizeName(NormalizeThemeName(themeName));
  }

  /** `GetThemeIndex`: Dark 0, Light 1, Blue 2, Green 3. */
  function ThemeIndex(t: Theme): (r: int)
    ensures 0 <= r < |AvailableThemes| && AvailableThemes[r] == t
  {
    match t
    case Dark => 0
    case Light => 1
    case Blue => 2
    case Green => 3
  }

  /** `GetThemeNameByIndex`; an index out of range gives Dark. */
  function ThemeByIndex(index: int): (r: Theme)
    ensures 0 <= index < |AvailableThemes| ==> r == AvailableThemes[index]
    ensures !(0 <= index < |AvailableThemes|) ==> r == Dark
  {
    if index == 1 then Light
    else if index == 2 then Blue
    else if index == 3 then Green
    else Dark
  }

  /** The index and the theme determine each other. */
  lemma ThemeIndexRoundTrip(t: Theme, index: int)
    ensures ThemeByIndex(ThemeIndex(t)) == t
    ensures 0 <= index < |AvailableThemes| ==> ThemeIndex(ThemeByIndex(index)) == index
  {
  }

  /** The digit aliases agree with the indices: normalising the digit of an
    * index gives the theme of that index. */
  lemma DigitAliasesMatchIndices(index: int)
    requires 0 <= index < |AvailableThemes|
    ensures NormalizeThemeName(IntToString(index)) == ThemeByIndex(index)
  {
    var d := IntToString(index);
    assert d == [('0' as int + index) as char];
    assert ToLower(d) == d;
  }

  /** `GetThemeUri`: the resource file of a theme. */
  function ThemeUri(t: Theme): (r: string)
    ensures EndsWith(r, "Theme.xaml")
  {
    var r := "Resources/" + Name(t) + "Theme.xaml";
    assert r[|r| - 10..] == "Theme.xaml";
    r
  }

  /** Each theme has a resource of its own. */
  lemma ThemeUrisDistinct(a: Theme, b: Theme)
    requires a != b
    ensures ThemeUri(a) != ThemeUri(b)
  {
    assert ThemeUri(a)[10] == Name(a)[0];
    assert ThemeUri(b)[10] == Name(b)[0];
  }

  /** A text ends with a piece only if it contains it. */
  lemma {:induction false} SuffixIsContained(s: string, sub: string)
    requires EndsWith(s, sub)
    ensures Contains(s, sub)
    decreases |s|
  {
    if |s| == |sub| {
      assert s[|s| - |sub|..] == s;
    } else {
      assert s[1..][|s| - 1 - |sub|..] == s[|s| - |sub|..];
      SuffixIsContained(s[1..], sub);
    }
  }

  /** A merged dictionary `ChangeTheme` treats as a theme: one whose source
    * contains "Theme.xaml". */
  predicate IsThemeDictionary(source: Option<string>) {
    source.Some? && Contains(source.value, "Theme.xaml")
  }

  /** Every theme's own dictionary counts as a theme dictionary, so the next
    * change removes it. */
  lemma ThemeUriIsThemeDictionary(t: Theme)
    ensures IsThemeDictionary(Some(ThemeUri(t)))
  {
    SuffixIsContained(ThemeUri(t), "Theme.xaml");
  }

  /** The merged dictionaries without the theme dictionaries: each one that
    * is not a theme dictionary, in order and as often as it occurs. */
  function NonThemes(dictionaries: seq<Option<string>>): (r: seq<Option<string>>)
    ensures |r| <= |dictionaries|
    ensures forall i :: 0 <= i < |r| ==> !IsThemeDictionary(r[i]) && r[i] in dictionaries
    ensures forall d :: d in dictionaries && !IsThemeDictionary(d) ==> d in r
    ensures IsSelection(r, dictionaries, IsOtherDictionary)
  {
    WhereIsSelection(dictionaries, IsOtherDictionary);
    var r := Where(dictionaries, IsOtherDictionary);
    assert forall i :: 0 <= i < |r| ==> !IsThemeDictionary(r[i]) && r[i] in dictionaries by {
      forall i | 0 <= i < |r| ensures !IsThemeDictionary(r[i]) && r[i] in dictionaries {
        assert r[i] in r;
        assert IsOtherDictionary(r[i]);
      }
    }
    assert forall d :: d in dictionaries && !IsThemeDictionary(d) ==> d in r by {
      forall d | d in dictionaries && !IsThemeDictionary(d) ensures d in r {
        assert IsOtherDictionary(d);
      }
    }
    r
  }

  function IsOtherDictionary(source: Option<string>): bool {
    !IsThemeDictionary(source)
  }

  /** The theme the name passed to `ChangeTheme` selects: a blank name is
    * replaced by "Dark" first. */
  function RequestedTheme(themeName: string): (r: Theme)
    ensures IsBlank(themeName) ==> r == Dark
  {
    if IsBlank(themeName) then
      NormalizeName(Dark);
      NormalizeThemeName(Name(Dark))
    else NormalizeThemeName(themeName)
  }

  /** The application's theme state. */
  class App {
    var currentTheme: Theme
    /** The sources of `Resources.MergedDictionaries`, `None` for one without. */
    var mergedDictionaries: seq<Option<string>>

    constructor(dictionaries: seq<Option<string>>)
      ensures currentTheme == Dark && mergedDictionaries == dictionaries
    {
      currentTheme := Dark;
      mergedDictionaries := dictionaries;
    }

    /** The current theme's dictionary is first and no other theme's
      * dictionary is loaded. */
    predicate ThemeLoaded()
      reads this
    {
      |mergedDictionaries| > 0 && mergedDictionaries[0] == Some(ThemeUri(currentTheme))
      && forall i :: 1 <= i < |mergedDictionaries| ==> !IsThemeDictionary(mergedDictionaries[i])
    }

    /** `GetThemeIndex`. */
    function GetThemeIndex(): (r: int)
      reads this`currentTheme
      ensures 0 <= r < |AvailableThemes| && ThemeByIndex(r) == currentTheme
    {
      ThemeIndexRoundTrip(currentTheme, 0);
      ThemeIndex(currentTheme)
    }

    /** `ChangeTheme`: the requested theme, if it is not the current one,
      * replaces every theme dictionary by its own, put first, and becomes
      * current; requesting the current theme changes nothing. */
    method ChangeTheme(themeName: string)
      modifies this`currentTheme, this`mergedDictionaries
      ensures currentTheme == RequestedTheme(themeName)
      ensures RequestedTheme(themeName) == old(currentTheme) ==> unchanged(this)
      ensures RequestedTheme(themeName) != old(currentTheme) ==>
        mergedDictionaries == [Some(ThemeUri(currentTheme))] + NonThemes(old(mergedDictionaries))
        && ThemeLoaded()
    {
      var theme := RequestedTheme(themeName);
      if theme == currentTheme {
        return;
      }
      var kept := NonThemes(mergedDictionaries);
      mergedDictionaries := [Some(ThemeUri(theme))] + kept;
      currentTheme := theme;
    }

    /** `ChangeThemeByIndex`: `ChangeTheme` with the name of the index's theme. */
    method ChangeThemeByIndex(index: int)
      modifies this`currentTheme, this`mergedDictionaries
      ensures currentTheme == ThemeByIndex(index)
      ensures ThemeByIndex(index) == old(currentTheme) ==> unchanged(this)
      ensures ThemeByIndex(index) != old(currentTheme) ==>
        mergedDictionaries == [Some(ThemeUri(currentTheme))] + NonThemes(old(mergedDictionaries))
        && ThemeLoaded()
    {
      var theme := ThemeByIndex(index);
      NormalizeName(theme);
      assert !IsBlank(Name(theme)) by { assert !IsWhiteSpace(Name(theme)[0]); }
      ChangeTheme(Name(theme));
    }
  }
}
