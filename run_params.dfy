/** The parameters a run is shaped with: the layout direction flag, the script
    and language tags, and the font size in millipoints. */
module RunParams {
  import opened Base
  import opened Fonts

  /** LayoutProcessor's "flags not set" sentinel, the Java int -1. */
  const DEFAULT_FLAGS: Int32Bits := 0xFFFF_FFFF

  /** java.awt.Font.LAYOUT_LEFT_TO_RIGHT and LAYOUT_RIGHT_TO_LEFT. */
  const LAYOUT_LEFT_TO_RIGHT: Int32Bits := 0
  const LAYOUT_RIGHT_TO_LEFT: Int32Bits := 1

  /** The direction a Bidi analysis of the text yields, as a layout flag. */
  function BidiFlags(isLeftToRight: bool): (f: Int32Bits)
    ensures f == LAYOUT_LEFT_TO_RIGHT || f == LAYOUT_RIGHT_TO_LEFT
    ensures (f == LAYOUT_LEFT_TO_RIGHT) == isLeftToRight
  {
    if isLeftToRight then LAYOUT_LEFT_TO_RIGHT else LAYOUT_RIGHT_TO_LEFT
  }

  /** The flags both backends start from: the global flags when they were set,
      else the bidi direction of the text. */
  function BaseFlags(globalFlags: Int32Bits, isLeftToRight: bool): (f: Int32Bits)
    ensures globalFlags != DEFAULT_FLAGS ==> f == globalFlags
    ensures globalFlags == DEFAULT_FLAGS ==> f == BidiFlags(isLeftToRight)
    ensures f != DEFAULT_FLAGS
  {
    if globalFlags == DEFAULT_FLAGS then BidiFlags(isLeftToRight) else globalFlags
  }

  /** The flags the AWT backend lays out with: a RUN_DIRECTION attribute of the
      font overrides both the global flags and the bidi direction. */
  function AwtFlags(globalFlags: Int32Bits, isLeftToRight: bool, attrs: Attributes): (f: Int32Bits)
    ensures RunDirection !in attrs ==> f == BaseFlags(globalFlags, isLeftToRight)
    ensures RunDirection in attrs ==>
      f == (if attrs[RunDirection] == RunDirectionLtr then LAYOUT_LEFT_TO_RIGHT else LAYOUT_RIGHT_TO_LEFT)
    ensures f != DEFAULT_FLAGS
  {
    var f := BaseFlags(globalFlags, isLeftToRight);
    if RunDirection in attrs then
      (if attrs[RunDirection] == RunDirectionLtr then LAYOUT_LEFT_TO_RIGHT else LAYOUT_RIGHT_TO_LEFT)
    else f
  }

  /** The script FOP substitutes with: an absent or "auto" script is replaced by
      the dominant script's tag, and then the undetermined tag "zyyy" (or "auto")
      becomes the wildcard "*", so that ligatures keyed to any script apply. */
  function ResolveScript(requested: Option<string>, dominantTag: string): (s: string)
    ensures s != "zyyy" && s != "auto"
    ensures requested.Some? && requested.value !in {"auto", "zyyy"} ==> s == requested.value
    ensures (requested.None? || requested.value == "auto") && dominantTag !in {"auto", "zyyy"} ==>
      s == dominantTag
    ensures s == "*" <==>
      (if requested.None? || requested.value == "auto" then dominantTag else requested.value)
        in {"zyyy", "auto", "*"}
  {
    var script := if requested.None? || requested.value == "auto" then dominantTag else requested.value;
    if script == "zyyy" || script == "auto" then "*" else script
  }

  /** The language FOP substitutes with: absent or "none" becomes "dflt". */
  function ResolveLanguage(requested: Option<string>): (l: string)
    ensures l != "none"
    ensures requested.Some? && requested.value != "none" ==> l == requested.value
    ensures requested.None? || requested.value == "none" ==> l == "dflt"
  {
    if requested.None? || requested.value == "none" then "dflt" else requested.value
  }

  /** Java's (int) cast of a float: rounds toward zero and saturates at the int range. */
  function JavaFloatToInt(r: real): (i: int)
    ensures INT_MIN <= i <= INT_MAX
    ensures 0.0 <= r <= INT_MAX as real ==> i as real <= r < i as real + 1.0
    ensures INT_MIN as real <= r <= INT_MAX as real && r < 0.0 ==> i as real - 1.0 < r <= i as real
    ensures r >= INT_MAX as real ==> i == INT_MAX
    ensures r <= INT_MIN as real ==> i == INT_MIN
  {
    if r >= INT_MAX as real then INT_MAX
    else if r <= INT_MIN as real then INT_MIN
    else if r >= 0.0 then r.Floor
    else -((-r).Floor)
  }

  /** The size FOP is given: the point size times 1000, cast to int. */
  function SizeInMillipoints(fontSize: real): (i: int)
    ensures 0.0 <= fontSize * 1000.0 <= INT_MAX as real ==>
      0 <= i && i as real <= fontSize * 1000.0 < i as real + 1.0
  {
    JavaFloatToInt(fontSize * 1000.0)
  }
}
