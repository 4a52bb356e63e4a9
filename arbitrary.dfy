/** Arbitrary-value classes `is-<keyword>-[<value>]`: the keywords the
    copies of the engine accept and the keyword-to-declarations table of
    bin/iconforge-cli.cjs. The first twenty keywords (`color` to `mx`) and
    their declarations are the whole table of dist/iconforge.js. */
module Arbitrary {
  import opened Options
  import opened JsString

  /** The alternatives of the keyword group, one constructor each. */
  datatype Keyword =
    Color | Bg | W | H | Sq | Size | P | Pt | Pr | Pb | Pl | Px | Py | M | Mt | Mr | Mb | Ml |
    My | Mx | Z | Scale | Opacity | Rot | GridCols | GridRows | Gap | Top | Bottom | Left |
    Right | Translate | TranslateX | TranslateY | Border | BorderT | BorderB | BorderL |
    BorderR | FixedBg | GradientLinear | GradientRadial | GradientConic | Outline |
    OutlineDashed | OutlineDotted | OutlineDouble | Blur | BackdropBlur | Brightness |
    Contrast | Grayscale | Saturate

  /** The keyword as written in the expression and in the `case 'is-…'` labels. */
  function Name(k: Keyword): string {
    match k
    case Color => "color"
    case Bg => "bg"
    case W => "w"
    case H => "h"
    case Sq => "sq"
    case Size => "size"
    case P => "p"
    case Pt => "pt"
    case Pr => "pr"
    case Pb => "pb"
    case Pl => "pl"
    case Px => "px"
    case Py => "py"
    case M => "m"
    case Mt => "mt"
    case Mr => "mr"
    case Mb => "mb"
    case Ml => "ml"
    case My => "my"
    case Mx => "mx"
    case Z => "z"
    case Scale => "scale"
    case Opacity => "opacity"
    case Rot => "rot"
    case GridCols => "grid-cols"
    case GridRows => "grid-rows"
    case Gap => "gap"
    case Top => "top"
    case Bottom => "bottom"
    case Left => "left"
    case Right => "right"
    case Translate => "translate"
    case TranslateX => "translate-x"
    case TranslateY => "translate-y"
    case Border => "border"
    case BorderT => "border-t"
    case BorderB => "border-b"
    case BorderL => "border-l"
    case BorderR => "border-r"
    case FixedBg => "fixed-bg"
    case GradientLinear => "gradient-linear"
    case GradientRadial => "gradient-radial"
    case GradientConic => "gradient-conic"
    case Outline => "outline"
    case OutlineDashed => "outline-dashed"
    case OutlineDotted => "outline-dotted"
    case OutlineDouble => "outline-double"
    case Blur => "blur"
    case BackdropBlur => "backdrop-blur"
    case Brightness => "brightness"
    case Contrast => "contrast"
    case Grayscale => "grayscale"
    case Saturate => "saturate"
  }

  /** The alternatives of the expression in dist/iconforge.js and
      tools/iconforge-cli.js, in order; also the first twenty of
      bin/iconforge-cli.cjs. */
  const RuntimeKeywords: seq<Keyword> := [
    Color, Bg, W, H, Sq, Size, P, Pt, Pr, Pb, Pl, Px, Py, M, Mt, Mr, Mb, Ml, My, Mx
  ]

  /** The alternatives of the expression in bin/iconforge-cli.cjs, in order. */
  const CliKeywords: seq<Keyword> := RuntimeKeywords + [
    Z, Scale, Opacity, Rot, GridCols, GridRows, Gap, Top, Bottom, Left, Right, Translate,
    TranslateX, TranslateY, Border, BorderT, BorderB, BorderL, BorderR, FixedBg,
    GradientLinear, GradientRadial, GradientConic, Outline, OutlineDashed, OutlineDotted,
    OutlineDouble, Blur, BackdropBlur, Brightness, Contrast, Grayscale, Saturate
  ]

  /** A value `(.+)` accepts: non-empty, and no character `.` refuses. */
  predicate ValueOk(v: string) {
    v != [] && forall i :: 0 <= i < |v| ==> !IsLineTerminator(v[i])
  }

  function Opening(k: string): string {
    "is-" + k + "-["
  }

  /** The value `v` when `base` is the opening `o`, then `(.+)` matching `v`, then `]`. */
  function Enclosed(o: string, base: string): Option<string> {
    if o <= base && |base| >= |o| + 2 && base[|base| - 1] == ']' && ValueOk(base[|o|..|base| - 1])
    then Some(base[|o|..|base| - 1])
    else None
  }

  lemma EnclosedMeans(o: string, base: string, v: string)
    ensures Enclosed(o, base) == Some(v) <==> base == o + v + "]" && ValueOk(v)
  {
    if base == o + v + "]" && ValueOk(v) {
      assert o <= base;
      assert base[|o|..|base| - 1] == v;
    }
    if Enclosed(o, base) == Some(v) {
      assert base == o + base[|o|..|base| - 1] + "]";
    }
  }

  /** The expression with only the alternative `k` for the keyword: the value, when it matches. */
  function MatchWith(k: Keyword, base: string): Option<string> {
    Enclosed(Opening(Name(k)), base)
  }

  lemma MatchWithMeans(k: Keyword, base: string, v: string)
    ensures MatchWith(k, base) == Some(v) <==> base == Opening(Name(k)) + v + "]" && ValueOk(v)
  {
    EnclosedMeans(Opening(Name(k)), base, v);
  }

  /** `^(is-(?:k1|k2|…))-\[(.+)\]$`: the alternatives are tried in order and
      the first one after which the rest of the expression matches is taken. */
  function Match(keywords: seq<Keyword>, base: string): (r: Option<(Keyword, string)>)
    ensures r.Some? ==> r.value.0 in keywords && MatchWith(r.value.0, base) == Some(r.value.1)
    ensures r.None? ==> forall k :: k in keywords ==> MatchWith(k, base).None?
  {
    if keywords == [] then None
    else match MatchWith(keywords[0], base)
      case Some(v) => Some((keywords[0], v))
      case None => Match(keywords[1..], base)
  }

  /** Every token `is-<k>-[<v>]` with `k` a listed keyword is matched. */
  lemma {:induction false} MatchComplete(keywords: seq<Keyword>, k: Keyword, v: string)
    requires k in keywords && ValueOk(v)
    ensures Match(keywords, Opening(Name(k)) + v + "]").Some?
  {
    MatchWithMeans(k, Opening(Name(k)) + v + "]", v);
    if keywords[0] != k {
      MatchComplete(keywords[1..], k, v);
    }
  }

  /** The expression matches a token exactly when the token is
      `is-<k>-[<v>]` for a listed keyword `k` and a value `v` that `(.+)`
      accepts; a match yields such a keyword and value. */
  lemma MatchMeans(keywords: seq<Keyword>, base: string)
    ensures Match(keywords, base).Some? <==>
            exists k, v :: k in keywords && ValueOk(v) && base == Opening(Name(k)) + v + "]"
    ensures Match(keywords, base).Some? ==>
            var (k, v) := Match(keywords, base).value;
            k in keywords && ValueOk(v) && base == Opening(Name(k)) + v + "]"
  {
    if Match(keywords, base).Some? {
      var (k, v) := Match(keywords, base).value;
      MatchWithMeans(k, base, v);
    }
    if exists k, v :: k in keywords && ValueOk(v) && base == Opening(Name(k)) + v + "]" {
      var k, v :| k in keywords && ValueOk(v) && base == Opening(Name(k)) + v + "]";
      MatchComplete(keywords, k, v);
    }
  }

  /** `value.replace(/_/g, ' ')`. */
  function UnderscoresToSpaces(v: string): (r: string)
    ensures |r| == |v|
    ensures forall i :: 0 <= i < |v| ==> r[i] == (if v[i] == '_' then ' ' else v[i])
  {
    if v == [] then [] else [if v[0] == '_' then ' ' else v[0]] + UnderscoresToSpaces(v[1..])
  }

  /** The declarations the `switch` of bin/iconforge-cli.cjs builds for
      keyword `k`, cut where the value is inserted: `Lead(k)` comes before
      the first copy of the value, `Trail(k)` after each copy. */
  function Lead(k: Keyword): (r: string)
    ensures r != []
  {
    match k
    case Color => "color: "
    case Bg => "background-color: "
    case W => "width: "
    case H => "height: "
    case Sq => "width: "
    case Size => "font-size: "
    case P => "padding: "
    case Pt => "padding-top: "
    case Pr => "padding-right: "
    case Pb => "padding-bottom: "
    case Pl => "padding-left: "
    case Px => "padding-left: "
    case Py => "padding-top: "
    case M => "margin: "
    case Mt => "margin-top: "
    case Mr => "margin-right: "
    case Mb => "margin-bottom: "
    case Ml => "margin-left: "
    case My => "margin-top: "
    case Mx => "margin-left: "
    case Z => "z-index: "
    case Scale => "transform: scale("
    case Opacity => "opacity: "
    case Rot => "transform: rotate("
    case GridCols => "grid-template-columns: repeat("
    case GridRows => "grid-template-rows: repeat("
    case Gap => "gap: "
    case Top => "top: "
    case Bottom => "bottom: "
    case Left => "left: "
    case Right => "right: "
    case Translate => "transform: translate("
    case TranslateX => "transform: translateX("
    case TranslateY => "transform: translateY("
    case Border => "border-width: "
    case BorderT => "border-top-width: "
    case BorderB => "border-bottom-width: "
    case BorderL => "border-left-width: "
    case BorderR => "border-right-width: "
    case FixedBg => CoverViewport + "background-image: url(\""
    case GradientLinear => "background: linear-gradient("
    case GradientRadial => "background: radial-gradient("
    case GradientConic => "background: conic-gradient("
    case Outline => "outline: 1px solid "
    case OutlineDashed => "outline: 1px dashed "
    case OutlineDotted => "outline: 1px dotted "
    case OutlineDouble => "outline: 2px solid "
    case Blur => "filter: blur("
    case BackdropBlur => "backdrop-filter: blur("
    case Brightness => "filter: brightness("
    case Contrast => "filter: contrast("
    case Grayscale => "filter: grayscale("
    case Saturate => "filter: saturate("
  }

  function Trail(k: Keyword): seq<string> {
    match k
    case Color => [";"]
    case Bg => [";"]
    case W => [";"]
    case H => [";"]
    case Sq => ["; height: ", ";"]
    case Size => [";"]
    case P => [";"]
    case Pt => [";"]
    case Pr => [";"]
    case Pb => [";"]
    case Pl => [";"]
    case Px => ["; padding-right: ", ";"]
    case Py => ["; padding-bottom: ", ";"]
    case M => [";"]
    case Mt => [";"]
    case Mr => [";"]
    case Mb => [";"]
    case Ml => [";"]
    case My => ["; margin-bottom: ", ";"]
    case Mx => ["; margin-right: ", ";"]
    case Z => [";"]
    case Scale => [");"]
    case Opacity => [";"]
    case Rot => [");"]
    case GridCols => [", minmax(0, 1fr));"]
    case GridRows => [", minmax(0, 1fr));"]
    case Gap => [";"]
    case Top => [";"]
    case Bottom => [";"]
    case Left => [";"]
    case Right => [";"]
    case Translate => [", ", ");"]
    case TranslateX => [");"]
    case TranslateY => [");"]
    case Border => [" ", " ", " ", "; border-style: solid;"]
    case BorderT => ["; border-style: solid;"]
    case BorderB => ["; border-style: solid;"]
    case BorderL => ["; border-style: solid;"]
    case BorderR => ["; border-style: solid;"]
    case FixedBg => ["\");"]
    case GradientLinear => ["); background-clip: text;  -webkit-text-fill-color: transparent;"]
    case GradientRadial => ["); background-clip: text;  -webkit-text-fill-color: transparent;"]
    case GradientConic => ["); background-clip: text;  -webkit-text-fill-color: transparent;"]
    case Outline => [";"]
    case OutlineDashed => [";"]
    case OutlineDotted => [";"]
    case OutlineDouble => [";"]
    case Blur => [");"]
    case BackdropBlur => [");"]
    case Brightness => [");"]
    case Contrast => [");"]
    case Grayscale => [");"]
    case Saturate => [");"]
  }

  /** The fixed, viewport-sized, non-repeating cover background of `is-fixed-bg`. */
  const CoverViewport: string :=
    "position: fixed; top: 0; left: 0; width: 100dvw; height: 100dvh; z-index: -1; "
    + "background-repeat: no-repeat; background-size: cover; "

  predicate IsGradient(k: Keyword) {
    k.GradientLinear? || k.GradientRadial? || k.GradientConic?
  }

  /** The declarations for keyword `k` and value `v`: the value fills every
      hole, with `_` read as a space for the three gradients. The `"`
      replacements of the source replace `"` with `"` and leave the value as
      it is. */
  function Template(k: Keyword, v: string): string {
    Join([Lead(k)] + Trail(k), if IsGradient(k) then UnderscoresToSpaces(v) else v)
  }

  /** No keyword the expression accepts reaches the `default` branch: every
      template is non-empty. */
  lemma TemplateNonEmpty(k: Keyword, v: string)
    ensures Lead(k) != [] && Lead(k) <= Template(k, v)
  {
    JoinStartsWithFirst([Lead(k)] + Trail(k), if IsGradient(k) then UnderscoresToSpaces(v) else v);
  }

  /** `is-p-[v]` writes `padding: v;`, the value verbatim. */
  lemma TemplatePadding(v: string)
    ensures Template(P, v) == "padding: " + v + ";"
  {
    JoinTwo("padding: ", ";", v);
  }

  /** `is-sq-[v]` writes the value twice, as width and as height. */
  lemma TemplateSquare(v: string)
    ensures Template(Sq, v) == "width: " + v + "; height: " + v + ";"
  {
    JoinThree("width: ", "; height: ", ";", v);
  }

  /** `is-fixed-bg-[v]` pins a cover image at `url("v")`, keeping any `"` of
      the value as it is. */
  lemma TemplateFixedBg(v: string)
    ensures Template(FixedBg, v) == CoverViewport + "background-image: url(\"" + v + "\");"
  {
    JoinTwo(Lead(FixedBg), "\");", v);
  }

  /** `is-gradient-linear-[v]` reads `_` as a space and clips the gradient
      to the text. */
  lemma TemplateGradient(v: string)
    ensures Template(GradientLinear, v) ==
              "background: linear-gradient(" + UnderscoresToSpaces(v)
              + "); background-clip: text;  -webkit-text-fill-color: transparent;"
  {
    var tail := "); background-clip: text;  -webkit-text-fill-color: transparent;";
    assert [Lead(GradientLinear)] + Trail(GradientLinear) == ["background: linear-gradient(", tail];
    assert IsGradient(GradientLinear);
    JoinTwo("background: linear-gradient(", tail, UnderscoresToSpaces(v));
  }

  lemma JoinTwo(a: string, b: string, sep: string)
    ensures Join([a, b], sep) == a + sep + b
  {
    assert [a, b][1..] == [b];
  }

  lemma JoinThree(a: string, b: string, c: string, sep: string)
    ensures Join([a, b, c], sep) == a + sep + b + sep + c
  {
    assert [a, b, c][1..] == [b, c];
    JoinTwo(b, c, sep);
  }

  lemma JoinStartsWithFirst(parts: seq<string>, sep: string)
    requires parts != []
    ensures parts[0] <= Join(parts, sep)
  {
  }
}
