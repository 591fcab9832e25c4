/**
 * The shared widget styling of src/widgets/core/widgetStyles.js: the
 * background colour `hexToRgba` derives from a hex string, the class list
 * and inline style `getWidgetContainerStyle` builds from the global
 * `widgetStyles` settings, and the inner-radius table behind the card and
 * input classes.
 */
module WidgetStyles {
  import opened Wrappers
  import opened Strings
  import opened JsValues
  import opened ParseInt
  import opened Seqs

  /** The colour of the inline background style; `alpha` is the opacity percentage, passed on as it is. */
  datatype Color = Rgba(r: int, g: int, b: int, alpha: int)

  function White(alpha: int): Color {
    Rgba(255, 255, 255, alpha)
  }

  /** The hex string with a `#` in front, as `hexToRgba` normalises it. */
  function NormalizedHex(hex: string): (r: string)
    ensures StartsWith(r, "#")
  {
    if StartsWith(hex, "#") then hex else "#" + hex
  }

  /**
   * `hexToRgba(hex, alpha)`: white for anything but a non-empty string, for
   * a normalised length other than 7, and when a channel does not parse;
   * otherwise the three parsed pairs.
   */
  function HexToRgba(hex: Value, alpha: int): (c: Color)
    ensures !hex.Str? || hex.s == "" || |NormalizedHex(hex.s)| != 7 ==> c == White(alpha)
    ensures c.alpha == alpha
  {
    if !hex.Str? || hex.s == "" then White(alpha)
    else
      var h := NormalizedHex(hex.s);
      if |h| != 7 then White(alpha) else FromPairs(h, alpha)
  }

  /**
   * The three `parseInt` calls on `#rrggbb`; each `slice(i, i + 2)` is the
   * two characters at `i` and `i + 1`.
   */
  function FromPairs(h: string, alpha: int): (c: Color)
    requires |h| == 7
  {
    Channels(ParsePair(h[1], h[2]), ParsePair(h[3], h[4]), ParsePair(h[5], h[6]), alpha)
  }

  /** The `isNaN` test on the three channels. */
  function Channels(r: Option<int>, g: Option<int>, b: Option<int>, alpha: int): (c: Color)
    ensures r.Some? && g.Some? && b.Some? ==> c == Rgba(r.value, g.value, b.value, alpha)
    ensures r.None? || g.None? || b.None? ==> c == White(alpha)
  {
    if r.Some? && g.Some? && b.Some? then Rgba(r.value, g.value, b.value, alpha) else White(alpha)
  }

  /** Six hex digits after the `#` are read pair by pair. */
  lemma {:induction false} FromHexPairs(h: string, alpha: int)
    requires |h| == 7 && forall i :: 1 <= i < 7 ==> IsHexDigit(h[i])
    ensures FromPairs(h, alpha) == Rgba(
      16 * HexDigitValue(h[1]) + HexDigitValue(h[2]),
      16 * HexDigitValue(h[3]) + HexDigitValue(h[4]),
      16 * HexDigitValue(h[5]) + HexDigitValue(h[6]),
      alpha)
  {
    assert IsHexDigit(h[1]) && IsHexDigit(h[2]) && IsHexDigit(h[3]) && IsHexDigit(h[4]) && IsHexDigit(h[5]) && IsHexDigit(h[6]);
  }

  /** Six hex digits, with or without `#`, give the three pairs as channels within 0 to 255. */
  lemma {:induction false} HexToRgbaChannels(digits: string, withHash: bool, alpha: int)
    requires |digits| == 6 && forall i :: 0 <= i < 6 ==> IsHexDigit(digits[i])
    ensures var c := HexToRgba(Str(if withHash then "#" + digits else digits), alpha);
      && c.r == 16 * HexDigitValue(digits[0]) + HexDigitValue(digits[1])
      && c.g == 16 * HexDigitValue(digits[2]) + HexDigitValue(digits[3])
      && c.b == 16 * HexDigitValue(digits[4]) + HexDigitValue(digits[5])
      && 0 <= c.r <= 255 && 0 <= c.g <= 255 && 0 <= c.b <= 255
      && c.alpha == alpha
  {
    var s := if withHash then "#" + digits else digits;
    assert !StartsWith(digits, "#") by {
      DiffersAt(digits, "#", 0);
    }
    if withHash {
      assert s[..1] == "#";
    }
    var h := NormalizedHex(s);
    assert h == "#" + digits;
    FromHexPairs(h, alpha);
  }

  /** A lower-case hex digit. */
  function HexDigit(n: int): (c: char)
    requires 0 <= n < 16
    ensures IsHexDigit(c) && HexDigitValue(c) == n
  {
    if n < 10 then ('0' as int + n) as char else ('a' as int + n - 10) as char
  }

  /** `#rrggbb` for three bytes. */
  function ColorHex(r: int, g: int, b: int): (s: string)
    requires 0 <= r <= 255 && 0 <= g <= 255 && 0 <= b <= 255
    ensures |s| == 7 && s[0] == '#'
    ensures forall i :: 1 <= i < 7 ==> IsHexDigit(s[i])
    ensures s[1] == HexDigit(r / 16) && s[2] == HexDigit(r % 16)
    ensures s[3] == HexDigit(g / 16) && s[4] == HexDigit(g % 16)
    ensures s[5] == HexDigit(b / 16) && s[6] == HexDigit(b % 16)
  {
    "#" + [HexDigit(r / 16), HexDigit(r % 16), HexDigit(g / 16), HexDigit(g % 16), HexDigit(b / 16), HexDigit(b % 16)]
  }

  /** Writing a colour as `#rrggbb` and reading it with `hexToRgba` gives the colour back. */
  lemma {:induction false} HexToRgbaOfColorHex(r: int, g: int, b: int, alpha: int)
    requires 0 <= r <= 255 && 0 <= g <= 255 && 0 <= b <= 255
    ensures HexToRgba(Str(ColorHex(r, g, b)), alpha) == Rgba(r, g, b, alpha)
  {
    ReadBytes(ColorHex(r, g, b), r, g, b, alpha);
  }

  /** A `#` and the digit pairs of three bytes read back as those bytes. */
  lemma {:induction false} ReadBytes(h: string, r: int, g: int, b: int, alpha: int)
    requires 0 <= r <= 255 && 0 <= g <= 255 && 0 <= b <= 255
    requires |h| == 7 && h[0] == '#'
    requires h[1] == HexDigit(r / 16) && h[2] == HexDigit(r % 16)
    requires h[3] == HexDigit(g / 16) && h[4] == HexDigit(g % 16)
    requires h[5] == HexDigit(b / 16) && h[6] == HexDigit(b % 16)
    ensures HexToRgba(Str(h), alpha) == Rgba(r, g, b, alpha)
  {
    HexToRgbaOfHashed(h, alpha);
    BytePairs(h, r, g, b, alpha);
  }

  /** The three pairs of such a string are the three bytes. */
  lemma {:induction false} BytePairs(h: string, r: int, g: int, b: int, alpha: int)
    requires 0 <= r <= 255 && 0 <= g <= 255 && 0 <= b <= 255
    requires |h| == 7
    requires h[1] == HexDigit(r / 16) && h[2] == HexDigit(r % 16)
    requires h[3] == HexDigit(g / 16) && h[4] == HexDigit(g % 16)
    requires h[5] == HexDigit(b / 16) && h[6] == HexDigit(b % 16)
    ensures FromPairs(h, alpha) == Rgba(r, g, b, alpha)
  {
    FromHexPairs(h, alpha);
    ByteDigits(r, h[1], h[2]);
    ByteDigits(g, h[3], h[4]);
    ByteDigits(b, h[5], h[6]);
  }

  /** A string of `#` and six hex digits goes straight to the three `parseInt` calls. */
  lemma {:induction false} HexToRgbaOfHashed(h: string, alpha: int)
    requires |h| == 7 && h[0] == '#'
    ensures HexToRgba(Str(h), alpha) == FromPairs(h, alpha)
  {
    assert StartsWith(h, "#") by {
      assert h[..1] == "#";
    }
  }

  /** The two digits `HexDigit` writes for a byte read back as the byte. */
  lemma {:induction false} ByteDigits(n: int, hi: char, lo: char)
    requires 0 <= n <= 255 && hi == HexDigit(n / 16) && lo == HexDigit(n % 16)
    ensures 16 * HexDigitValue(hi) + HexDigitValue(lo) == n
  {
  }

  datatype Background = Background(color: Value, colorDark: Value, opacity: int, blur: string)
  datatype Border = Border(enabled: bool, width: int, color: string, colorDark: string)
  datatype Interactive = Interactive(hoverBg: string, hoverBgDark: string, activeBg: string, activeBgDark: string)

  /** The global `widgetStyles` settings the helpers read. */
  datatype Styles = Styles(
    background: Background,
    borderRadius: string,
    shadow: string,
    padding: int,
    border: Border,
    primaryColor: string,
    interactive: Interactive)

  /** The `options` argument; `None` is an option left out. */
  datatype ContainerOptions = ContainerOptions(
    showBackground: Option<bool>,
    showBorder: Option<bool>,
    showShadow: Option<bool>,
    showPadding: Option<bool>)

  /** The options after destructuring with defaults. */
  datatype Shown = Shown(background: bool, border: bool, shadow: bool, padding: bool)

  /** `showBackground` defaults to true; the other three default to it. */
  function Resolve(options: ContainerOptions): (s: Shown)
    ensures options.showBackground.None? ==> s.background
    ensures options.showBorder.None? ==> s.border == s.background
    ensures options.showShadow.None? ==> s.shadow == s.background
    ensures options.showPadding.None? ==> s.padding == s.background
    ensures options.showBackground.Some? ==> s.background == options.showBackground.value
    ensures options.showBorder.Some? ==> s.border == options.showBorder.value
    ensures options.showShadow.Some? ==> s.shadow == options.showShadow.value
    ensures options.showPadding.Some? ==> s.padding == options.showPadding.value
  {
    var background := options.showBackground.GetOr(true);
    Shown(background, options.showBorder.GetOr(background), options.showShadow.GetOr(background),
      options.showPadding.GetOr(background))
  }

  /**
   * One class of the container's list, by the setting it renders; the
   * class name is `Render` of it.
   */
  datatype Class =
    | Fixed(name: string)
    | Padding(padding: int)
    | Rounded(radius: string)
    | Shadow(shadow: string)
    | Blur(blur: string)
    | BorderWidth(width: int)
    | BorderColor(color: string)
    | BorderColorDark(colorDark: string)

  /** The Tailwind class name of a class. */
  function Render(c: Class): string {
    match c
    case Fixed(name) => name
    case Padding(padding) => "p-" + IntToString(padding)
    case Rounded(radius) => "rounded-" + radius
    case Shadow(shadow) => "shadow-" + shadow
    case Blur(blur) => "backdrop-blur-" + blur
    case BorderWidth(width) => "border-" + IntToString(width)
    case BorderColor(color) => "border-" + color
    case BorderColorDark(colorDark) => "dark:border-" + colorDark
  }

  /** The classes only a shown background brings. */
  predicate IsBackgroundClass(c: Class) {
    c.Padding? || c.Rounded? || c.Shadow? || c.Blur?
  }

  /** The three border classes, pushed together. */
  function BorderClasses(border: Border): seq<Class> {
    [BorderWidth(border.width), BorderColor(border.color), BorderColorDark(border.colorDark)]
  }

  /** `getWidgetContainerStyle(...)`'s result: the class list, its joined `className`, and `style.backgroundColor`. */
  datatype ContainerStyle = ContainerStyle(classes: seq<Class>, className: string, backgroundColor: Option<Color>)

  /** The classes a shown background brings, in the order they are pushed. */
  function BackgroundClasses(styles: Styles, shown: Shown): (r: seq<Class>)
    ensures forall i :: 0 <= i < |r| ==> IsBackgroundClass(r[i])
  {
    (if shown.padding then [Padding(styles.padding)] else [])
    + [Rounded(styles.borderRadius)]
    + (if shown.shadow then [Shadow(styles.shadow)] else [])
    + (if styles.background.blur != "none" then [Blur(styles.background.blur)] else [])
  }

  /** The class list of `getWidgetContainerStyle`. */
  function ContainerClasses(styles: Styles, shown: Shown): seq<Class> {
    [Fixed("w-full"), Fixed("h-full")]
    + (if shown.background then BackgroundClasses(styles, shown) else [])
    + (if shown.border && styles.border.enabled then BorderClasses(styles.border) else [])
  }

  /** The list always starts with `w-full h-full`. */
  lemma {:induction false} ContainerClassesStart(styles: Styles, shown: Shown)
    ensures var r := ContainerClasses(styles, shown);
      |r| >= 2 && r[..2] == [Fixed("w-full"), Fixed("h-full")]
  {
    var bg := if shown.background then BackgroundClasses(styles, shown) else [];
    var border := if shown.border && styles.border.enabled then BorderClasses(styles.border) else [];
    assert ContainerClasses(styles, shown) == [Fixed("w-full"), Fixed("h-full")] + (bg + border);
  }

  /** Without a shown background there is no padding, radius, shadow or blur class. */
  lemma {:induction false} NoBackgroundClasses(styles: Styles, shown: Shown)
    requires !shown.background
    ensures forall c :: c in ContainerClasses(styles, shown) ==> !IsBackgroundClass(c)
  {
  }

  /**
   * With a shown background, the radius is always there, padding and shadow
   * exactly when their options are on, and the blur exactly when it is not
   * `none`; without one, none of them.
   */
  lemma {:induction false} BackgroundClassesIff(styles: Styles, shown: Shown)
    ensures var r := ContainerClasses(styles, shown);
      && (Rounded(styles.borderRadius) in r <==> shown.background)
      && (Padding(styles.padding) in r <==> shown.background && shown.padding)
      && (Shadow(styles.shadow) in r <==> shown.background && shown.shadow)
      && (Blur(styles.background.blur) in r <==> shown.background && styles.background.blur != "none")
  {
    var r := ContainerClasses(styles, shown);
    var border := if shown.border && styles.border.enabled then BorderClasses(styles.border) else [];
    if shown.background {
      var bg := BackgroundClasses(styles, shown);
      assert r == [Fixed("w-full"), Fixed("h-full")] + bg + border;
      assert Rounded(styles.borderRadius) in bg;
      assert Blur("none") !in bg;
    } else {
      NoBackgroundClasses(styles, shown);
    }
  }

  /** The border classes end the list exactly when the border is shown and enabled. */
  lemma {:induction false} BorderClassesLast(styles: Styles, shown: Shown)
    ensures var r := ContainerClasses(styles, shown);
      shown.border && styles.border.enabled <==> |r| >= 5 && r[|r| - 3..] == BorderClasses(styles.border)
  {
    var r := ContainerClasses(styles, shown);
    if !(shown.border && styles.border.enabled) && |r| >= 5 {
      assert !r[|r| - 1].BorderColorDark?;
    }
  }

  /**
   * `getWidgetContainerStyle(styles, isDark, options)`: the classes are
   * pushed one by one, and `style.backgroundColor` is set with a shown
   * background, from the dark colour in dark mode.
   */
  method ContainerStyleOf(styles: Styles, isDark: bool, options: ContainerOptions) returns (result: ContainerStyle)
    ensures result.classes == ContainerClasses(styles, Resolve(options))
    ensures result.className == Join(Map(result.classes, Render), " ")
    ensures result.backgroundColor == if Resolve(options).background
      then Some(HexToRgba(if isDark then styles.background.colorDark else styles.background.color, styles.background.opacity))
      else None
  {
    var shown := Resolve(options);
    var classes := [Fixed("w-full"), Fixed("h-full")];
    var backgroundColor: Option<Color> := None;
    if shown.background {
      ghost var before := classes;
      if shown.padding {
        classes := classes + [Padding(styles.padding)];
      }
      classes := classes + [Rounded(styles.borderRadius)];
      if shown.shadow {
        classes := classes + [Shadow(styles.shadow)];
      }
      if styles.background.blur != "none" {
        classes := classes + [Blur(styles.background.blur)];
      }
      assert classes == before + BackgroundClasses(styles, shown);
      var bgColor := if isDark then styles.background.colorDark else styles.background.color;
      backgroundColor := Some(HexToRgba(bgColor, styles.background.opacity));
    }
    if shown.border && styles.border.enabled {
      classes := classes + BorderClasses(styles.border);
    }
    result := ContainerStyle(classes, Join(Map(classes, Render), " "), backgroundColor);
  }

  /** `borderRadiusMap`: the radius of inner elements, one step smaller from `lg` up to `3xl`. */
  function InnerRadius(radius: string): (r: string)
  {
    if radius == "none" then "none"
    else if radius == "sm" then "sm"
    else if radius == "md" then "md"
    else if radius == "lg" then "md"
    else if radius == "xl" then "lg"
    else if radius == "2xl" then "xl"
    else if radius == "3xl" then "2xl"
    else if radius == "full" then "full"
    else "lg"
  }

  /** The radius scale of the settings, smallest first. */
  const RadiusScale: seq<string> := ["none", "sm", "md", "lg", "xl", "2xl", "3xl", "full"]

  /**
   * Inner radii stay on the scale and never grow: `lg` to `3xl` go one step
   * down, `none`, `sm`, `md` and `full` stay, and a radius off the scale
   * falls back to `lg`.
   */
  lemma {:induction false} InnerRadiusSteps(radius: string)
    ensures InnerRadius(radius) in RadiusScale
    ensures forall i :: 3 <= i < 7 && radius == RadiusScale[i] ==> InnerRadius(radius) == RadiusScale[i - 1]
    ensures forall i :: (i < 3 || i == 7) && 0 <= i && radius == RadiusScale[i] ==> InnerRadius(radius) == radius
    ensures radius !in RadiusScale ==> InnerRadius(radius) == "lg"
  {
  }

  /** `getHoverBgClass(styles)`. */
  function HoverBgClass(styles: Styles): string {
    "hover:bg-" + styles.interactive.hoverBg + " dark:hover:bg-" + styles.interactive.hoverBgDark
  }

  /** The list `getCardClass(styles)` joins. */
  function CardClasses(styles: Styles): (r: seq<string>)
    ensures |r| == 4 && r[2] == "rounded-" + InnerRadius(styles.borderRadius)
  {
    ["bg-white/50", "dark:bg-gray-800/50", "rounded-" + InnerRadius(styles.borderRadius), HoverBgClass(styles)]
  }

  /** The list `getInputClass(styles)` joins. */
  function InputClasses(styles: Styles): (r: seq<string>)
    ensures |r| == 6 && r[4] == "rounded-" + InnerRadius(styles.borderRadius)
  {
    [
      "bg-white dark:bg-gray-800",
      "text-gray-900 dark:text-gray-100",
      "placeholder-gray-400 dark:placeholder-gray-500",
      "border border-" + styles.border.color + " dark:border-" + styles.border.colorDark,
      "rounded-" + InnerRadius(styles.borderRadius),
      "focus:outline-none focus:ring-2 focus:ring-" + styles.primaryColor
    ]
  }

  function CardClass(styles: Styles): string {
    Join(CardClasses(styles), " ")
  }

  function InputClass(styles: Styles): string {
    Join(InputClasses(styles), " ")
  }
}
