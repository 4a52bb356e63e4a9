/** The fixed CSS the browser scripts write before any class is seen: the
    `@font-face` rule for the icon font and the base rule every `if-`
    element gets. */
module Preamble {

  const FontName: string := "IconForge"

  const Banner: string := "/* Injected by IconForge */"

  /** The one-line `@font-face` rule for the font at `fontUrl`. */
  function FontFace(fontUrl: string): string {
    "@font-face { font-family: '" + FontName + "'; src: url('" + fontUrl
      + "') format('woff2'); font-display: block; font-weight: normal; font-style: normal; }"
  }

  /** The rule that gives every element with an `if-` class the icon font. */
  const BaseClassRule: string :=
    "[class^=\"if-\"], [class*=\" if-\"] { font-family: '" + FontName
      + "' !important; display: inline-block; font-style: normal; font-weight: normal; "
      + "font-variant: normal; text-transform: none; line-height: 1; "
      + "-webkit-font-smoothing: antialiased; -moz-osx-font-smoothing: grayscale; }"
}
