/**
 * The colour switcher: `setPrimaryColor` rewrites the page's primary-colour style
 * variables, `updateActiveColorSwatch` marks the swatch of the chosen colour, and
 * `initColorSwitcher` wires both to the saved preference and to swatch clicks.
 */
module ColorSwitcher {
  import opened Wrappers
  import opened Format
  import opened Color
  import opened Storage

  /** The `localStorage` key of the saved primary colour. */
  const PrimaryColorKey := "primaryColor"

  /** The percentage `setPrimaryColor` shades by for the hover/active variant. */
  const DarkerPercent := -15

  const PrimaryVar := "--bs-primary"
  const PrimaryRgbVar := "--bs-primary-rgb"
  const PrimaryDarkerVar := "--bs-primary-darker"
  const LinkColorVar := "--bs-link-color"
  const LinkColorRgbVar := "--bs-link-color-rgb"
  const LinkHoverColorVar := "--bs-link-hover-color"

  /** The style variables `setPrimaryColor` writes, and no others. */
  const PrimaryVarNames: set<string> := {
    PrimaryVar, PrimaryRgbVar, PrimaryDarkerVar, LinkColorVar, LinkColorRgbVar, LinkHoverColorVar
  }

  lemma VarNamesDistinct()
    ensures PrimaryVar != PrimaryRgbVar && PrimaryVar != PrimaryDarkerVar && PrimaryVar != LinkColorVar
    ensures PrimaryVar != LinkColorRgbVar && PrimaryVar != LinkHoverColorVar
    ensures PrimaryRgbVar != PrimaryDarkerVar && PrimaryRgbVar != LinkColorVar
    ensures PrimaryRgbVar != LinkColorRgbVar && PrimaryRgbVar != LinkHoverColorVar
    ensures PrimaryDarkerVar != LinkColorVar && PrimaryDarkerVar != LinkColorRgbVar
    ensures PrimaryDarkerVar != LinkHoverColorVar
    ensures LinkColorVar != LinkColorRgbVar && LinkColorVar != LinkHoverColorVar
    ensures LinkColorRgbVar != LinkHoverColorVar
  {
    assert |PrimaryVar| == 12 && |PrimaryRgbVar| == 16 && |PrimaryDarkerVar| == 19;
    assert |LinkColorVar| == 15 && |LinkColorRgbVar| == 19 && |LinkHoverColorVar| == 21;
    assert PrimaryDarkerVar[5] != LinkColorRgbVar[5];
  }

  /** The text `${rgb.r}, ${rgb.g}, ${rgb.b}`. */
  function RgbList(c: Rgb): string
    requires InRange(c)
  {
    DecimalString(c.r) + ", " + DecimalString(c.g) + ", " + DecimalString(c.b)
  }

  /** Where the parts of `a, b, d` sit. */
  lemma JoinedParts(a: string, b: string, d: string)
    ensures var l := a + ", " + b + ", " + d;
      var i := |a|;
      var j := i + 2 + |b|;
      && |l| == j + 2 + |d|
      && l[..i] == a && l[i..i + 2] == ", " && l[i + 2..j] == b && l[j..j + 2] == ", " && l[j + 2..] == d
  {
    var ab := a + ", " + b;
    var l := ab + ", " + d;
    assert l[..|ab|] == ab && l[|ab|..|ab| + 2] == ", " && l[|ab| + 2..] == d;
    assert ab[..|a|] == a && ab[|a|..|a| + 2] == ", " && ab[|a| + 2..] == b;
  }

  /**
   * `l` holds, at the cut points `i` and `j`, two ", " separators between three
   * canonical decimal numerals whose values are `x`, `y` and `z`.
   */
  predicate SplitsInto(l: string, i: nat, j: nat, x: nat, y: nat, z: nat) {
    && i + 2 <= j && j + 3 <= |l|
    && l[i..i + 2] == ", " && l[j..j + 2] == ", "
    && IsCanonicalDecimal(l[..i]) && ParseDecimal(l[..i]) == x
    && IsCanonicalDecimal(l[i + 2..j]) && ParseDecimal(l[i + 2..j]) == y
    && IsCanonicalDecimal(l[j + 2..]) && ParseDecimal(l[j + 2..]) == z
  }

  lemma NumeralsReadBack(l: string, a: string, b: string, d: string, x: nat, y: nat, z: nat)
    requires l == a + ", " + b + ", " + d
    requires IsCanonicalDecimal(a) && IsCanonicalDecimal(b) && IsCanonicalDecimal(d)
    requires ParseDecimal(a) == x && ParseDecimal(b) == y && ParseDecimal(d) == z
    ensures SplitsInto(l, |a|, |a| + 2 + |b|, x, y, z)
  {
    JoinedParts(a, b, d);
  }

  /**
   * The channel list has two ", " separators that split it into three canonical
   * decimal numerals reading back as the red, green and blue channels.
   */
  lemma RgbListReadsBack(c: Rgb)
    requires InRange(c)
    ensures exists i: nat, j: nat :: SplitsInto(RgbList(c), i, j, c.r, c.g, c.b)
  {
    var r, g, b := DecimalString(c.r), DecimalString(c.g), DecimalString(c.b);
    assert ParseDecimal(r) == c.r by { ParseDecimalString(c.r); }
    assert ParseDecimal(g) == c.g by { ParseDecimalString(c.g); }
    assert ParseDecimal(b) == c.b by { ParseDecimalString(c.b); }
    NumeralsReadBack(RgbList(c), r, g, b, c.r, c.g, c.b);
    assert SplitsInto(RgbList(c), |r|, |r| + 2 + |g|, c.r, c.g, c.b);
  }

  /** The six primary-colour variables set to a colour, its channel list and its darker variant. */
  function StyleVars(color: string, rgb: string, darker: string): (vars: map<string, string>)
    ensures vars.Keys == PrimaryVarNames
    ensures vars[PrimaryVar] == vars[LinkColorVar] == color
    ensures vars[PrimaryRgbVar] == vars[LinkColorRgbVar] == rgb
    ensures vars[PrimaryDarkerVar] == vars[LinkHoverColorVar] == darker
  {
    VarNamesDistinct();
    map[
      PrimaryVar := color, PrimaryRgbVar := rgb, PrimaryDarkerVar := darker,
      LinkColorVar := color, LinkColorRgbVar := rgb, LinkHoverColorVar := darker
    ]
  }

  /** The six `setProperty` calls in the order the script makes them override exactly those variables. */
  lemma SetPropertiesOverride(props: map<string, string>, color: string, rgb: string, darker: string)
    ensures props[PrimaryVar := color][PrimaryRgbVar := rgb][PrimaryDarkerVar := darker]
                 [LinkColorVar := color][LinkColorRgbVar := rgb][LinkHoverColorVar := darker]
         == props + StyleVars(color, rgb, darker)
  {
    VarNamesDistinct();
  }

  /**
   * The values `setPrimaryColor` gives its six variables for a well-formed colour:
   * the colour itself, its decimal channels, and the colour darkened by 15%, which
   * is again a well-formed colour, in lower case.
   */
  function PrimaryColorVars(hex: string): (vars: map<string, string>)
    requires IsHexColor(hex)
    ensures vars.Keys == PrimaryVarNames
    ensures vars[PrimaryVar] == vars[LinkColorVar] == hex
    ensures vars[PrimaryRgbVar] == vars[LinkColorRgbVar] == RgbList(HexToRgb(hex).value)
    ensures vars[PrimaryDarkerVar] == vars[LinkHoverColorVar]
  {
    StyleVars(hex, RgbList(HexToRgb(hex).value), ShadeColor(hex, DarkerPercent))
  }

  /**
   * The darker variant `setPrimaryColor` stores is itself a well-formed colour,
   * written in lower case, whose channels are the colour's own shaded by -15%.
   */
  lemma PrimaryDarkerIsShaded(hex: string)
    requires IsHexColor(hex)
    ensures var darker := PrimaryColorVars(hex)[PrimaryDarkerVar];
      && IsHexColor(darker) && darker[0] == '#' && LowerHexDigitsFrom(darker, 1)
      && HexToRgb(darker) == Some(ShadeRgb(HexToRgb(hex).value, DarkerPercent))
  {
    ShadeColorChannels(hex, DarkerPercent);
  }

  /** The style properties after `setPrimaryColor(hex)`: unchanged for a malformed colour. */
  function WithPrimaryColor(props: map<string, string>, hex: string): (after: map<string, string>)
    ensures !IsHexColor(hex) ==> after == props
    ensures IsHexColor(hex) ==> after.Keys == props.Keys + PrimaryVarNames
    ensures forall k :: k in after && k !in PrimaryVarNames ==> k in props && after[k] == props[k]
  {
    if IsHexColor(hex) then props + PrimaryColorVars(hex) else props
  }

  /** The inline style of `document.documentElement`: custom property name to value. */
  class RootStyle {
    var props: map<string, string>

    constructor (props: map<string, string>)
      ensures this.props == props
    {
      this.props := props;
    }

    /**
     * `setPrimaryColor(hex)`: a malformed colour changes nothing; a well-formed one
     * sets the six primary-colour variables and leaves every other property alone.
     */
    method SetPrimaryColor(hex: string)
      modifies this
      ensures props == WithPrimaryColor(old(props), hex)
    {
      var rgb := HexToRgb(hex);
      if rgb.None? {
        return;
      }
      var list := RgbList(rgb.value);
      props := props[PrimaryVar := hex];
      props := props[PrimaryRgbVar := list];
      var darker := ShadeColor(hex, DarkerPercent);
      props := props[PrimaryDarkerVar := darker];
      props := props[LinkColorVar := hex];
      props := props[LinkColorRgbVar := list];
      props := props[LinkHoverColorVar := darker];
      SetPropertiesOverride(old(props), hex, list, darker);
      assert props == old(props) + PrimaryColorVars(hex);
    }
  }

  /** A colour swatch: its `data-color` and whether it carries the `active` class. */
  datatype Swatch = Swatch(color: string, active: bool)

  /** `after` is `before` with exactly the swatches of `color` active. */
  ghost predicate MarksActive(before: seq<Swatch>, after: seq<Swatch>, color: string) {
    && |after| == |before|
    && (forall i :: 0 <= i < |after| ==> after[i].color == before[i].color)
    && (forall i :: 0 <= i < |after| ==> (after[i].active <==> after[i].color == color))
  }

  /** `updateActiveColorSwatch(container, activeColor)`. */
  method UpdateActiveColorSwatch(swatches: array<Swatch>, activeColor: string)
    modifies swatches
    ensures MarksActive(old(swatches[..]), swatches[..], activeColor)
  {
    for i := 0 to swatches.Length
      invariant forall j :: 0 <= j < swatches.Length ==> swatches[j].color == old(swatches[j].color)
      invariant forall j :: 0 <= j < i ==> (swatches[j].active <==> swatches[j].color == activeColor)
    {
      swatches[i] := swatches[i].(active := swatches[i].color == activeColor);
    }
  }

  /**
   * `initColorSwitcher`: re-applies a saved colour, hides the picker when not in
   * demo mode, and otherwise marks the saved colour's swatch. `wired` says whether
   * the swatch click handler is installed.
   */
  method InitColorSwitcher(storage: LocalStorage, style: RootStyle, hasDropdown: bool,
                           demoMode: bool, hasSwitcher: bool, swatches: array<Swatch>)
    returns (dropdownHidden: bool, wired: bool)
    modifies style, swatches
    ensures var saved := Lookup(storage.items, PrimaryColorKey);
      style.props == if Truthy(saved) then WithPrimaryColor(old(style.props), saved.value)
                     else old(style.props)
    ensures dropdownHidden == (hasDropdown && !demoMode)
    ensures wired == (hasSwitcher && !dropdownHidden)
    ensures var saved := Lookup(storage.items, PrimaryColorKey);
      if wired && Truthy(saved) then MarksActive(old(swatches[..]), swatches[..], saved.value)
      else swatches[..] == old(swatches[..])
  {
    var saved := storage.GetItem(PrimaryColorKey);
    if Truthy(saved) {
      style.SetPrimaryColor(saved.value);
    }
    dropdownHidden := hasDropdown && !demoMode;
    if dropdownHidden || !hasSwitcher {
      wired := false;
      return;
    }
    wired := true;
    if Truthy(saved) {
      UpdateActiveColorSwatch(swatches, saved.value);
    }
  }

  /**
   * A click in the switcher. A click on swatch `i` applies its colour, marks it and
   * saves it (even a malformed one); a click anywhere else changes nothing.
   */
  method OnSwatchClick(storage: LocalStorage, style: RootStyle, swatches: array<Swatch>, i: int)
    modifies storage, style, swatches
    ensures !(0 <= i < swatches.Length) ==>
      storage.items == old(storage.items) && style.props == old(style.props) &&
      swatches[..] == old(swatches[..])
    ensures 0 <= i < swatches.Length ==>
      var color := old(swatches[i].color);
      && storage.items == old(storage.items)[PrimaryColorKey := color]
      && style.props == WithPrimaryColor(old(style.props), color)
      && MarksActive(old(swatches[..]), swatches[..], color)
  {
    if !(0 <= i < swatches.Length) {
      return;
    }
    var color := swatches[i].color;
    style.SetPrimaryColor(color);
    UpdateActiveColorSwatch(swatches, color);
    storage.SetItem(PrimaryColorKey, color);
  }
}
