/**
 * The image-filter presets: the name chosen in the settings selects one CSS
 * filter string for the 2D context; a name outside the table draws unfiltered.
 */
module Filters {

  datatype Preset = NoFilter | Vintage | Bright | Contrast | Warm | Cool

  /** The setting value that selects each preset. */
  function NameOf(p: Preset): string {
    match p
    case NoFilter => "none"
    case Vintage => "vintage"
    case Bright => "bright"
    case Contrast => "contrast"
    case Warm => "warm"
    case Cool => "cool"
  }

  /** The switch on the setting: the five named presets, and the default branch for anything else. */
  function PresetOf(name: string): (p: Preset)
    ensures p != NoFilter ==> NameOf(p) == name
  {
    if name == "vintage" then Vintage
    else if name == "bright" then Bright
    else if name == "contrast" then Contrast
    else if name == "warm" then Warm
    else if name == "cool" then Cool
    else NoFilter
  }

  /** The value assigned to the context's `filter` property. */
  function CssFilter(p: Preset): string {
    match p
    case NoFilter => "none"
    case Vintage => "sepia(50%) contrast(120%) brightness(110%)"
    case Bright => "brightness(120%) contrast(110%)"
    case Contrast => "contrast(150%) brightness(105%)"
    case Warm => "sepia(20%) saturate(120%) hue-rotate(10deg)"
    case Cool => "saturate(110%) hue-rotate(-10deg) brightness(105%)"
  }

  /** What `applyImageFilter` sets for a setting value. */
  function FilterFor(name: string): (css: string)
    ensures css == "none" <==> PresetOf(name) == NoFilter
  {
    CssFilter(PresetOf(name))
  }

  /** Every preset is selected by its own name. */
  lemma NameRoundTrip(p: Preset)
    ensures PresetOf(NameOf(p)) == p
  {
  }

  /** A name outside the five presets draws unfiltered. */
  lemma UnknownNameIsUnfiltered(name: string)
    requires name !in {"vintage", "bright", "contrast", "warm", "cool"}
    ensures PresetOf(name) == NoFilter && FilterFor(name) == "none"
  {
  }

  /** The filter strings tell the presets apart. */
  lemma CssFilterInjective(p: Preset, q: Preset)
    requires CssFilter(p) == CssFilter(q)
    ensures p == q
  {
  }
}
