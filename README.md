# IconForge class-token engine, modelled in Dafny

IconForge turns class tokens such as `if-home`, `hover:is-color-[red]` or
`md:dark:is-p-[4px]` into CSS. It does this in two places:

- Three build-time command-line tools read the class attributes of source
  files. From them they write a stylesheet and a font subset:
  `bin/iconforge-cli.cjs`, `tools/iconforge-cli.js` and `bin/iconforge-cli.js`.
- Three browser scripts scan the live page. They write style elements as
  classes appear: `dist/iconforge.js`, `iconforge.js` and `iconforge-jit.js`.

Each tool and script has its own module: `CliCjs`, `ToolsCli`, `CliJs`,
`DistRuntime`, `Runtime` and `JitRuntime`. Each module states what its
program computes and proves what it promises. The pieces the programs
share are defined once and used by all of them:

- `Selector`: selector escaping.
- `Prefixes`: stripping variant prefixes.
- `Arbitrary`: the arbitrary-value table `is-<kind>-[<value>]`.
- `Braces`: the `{…}` body regular expression.
- `CodePoint`: the `content: '\<hex>'` regular expression.
- `Scan`: collecting the used classes.
- `Sheet`: aggregation into keyframes and media buckets, then serialisation.
- `FontSubset`: planning the font subset.
- `LiveSheet`: the append-once passes of the two older browser scripts.
- `OrderedSet`: a JavaScript `Set`, modelled as a sequence without repeats
  in insertion order.

The metadata documents are `map<string, Entry>`. An entry is a string or an
object with `class`, `keyframes` and `value` fields, where an absent field
reads as `""`. The `Meta` module gives JavaScript's truthiness for entries
and the coercion `entry + ''`.

The browser scripts are classes whose fields are the script's state:

- the `usedIf` and `usedIs` sets;
- the injected set;
- the style element's text;
- the metadata;
- `sessionStorage`.

Their methods change those fields and state the new state exactly.

The build tools are mostly pure functions with loop methods proved against
them. Every loop of the source (parsing variants, collecting classes,
resolving, serialising, stripping prefixes) is a method with invariants.
Its `ensures` ties the result to a specification function, and lemmas prove
what that function means.

Where the code and its documentation disagree, the model follows the code:

- `bin/iconforge-cli.cjs` lets the last breakpoint of a stacked token set the
  media query (`sm:md:x` goes to the `md` block).
- `bin/iconforge-cli.cjs` keeps pseudo-classes in the order they are written.
- In `bin/iconforge-cli.cjs` the `"` replacements of `is-fixed-bg` and the
  gradients replace `"` with `"`, so they change nothing.
- The gradients write `background:` together with
  `background-clip: text; -webkit-text-fill-color: transparent;`.
- `tools/iconforge-cli.js` writes no rule for an arbitrary value. Its
  `switch` assigns `rule` and leaves `properties` empty (`ToolsCli.ArbitraryNoRule`).
- `dist/iconforge.js` has no `xs:` and no `disabled:` prefix
  (`DistRuntime.NoXsOrDisabled`).
- In `dist/iconforge.js` every repeated `dark:` adds one more `.dark `
  ancestor (`DistRuntime.DarkCompounds`).

## Model

| member | source | states |
|---|---|---|
| Selector.Escape | bin/iconforge-cli.cjs:48-50 | one backslash is added per special character and nothing else; the result is empty only for the empty token; it starts with the token's first character, or with a backslash when that character is special |
| Selector.UnescapeEscape | bin/iconforge-cli.cjs:48-50 | reading the escaped selector back gives the class token, whatever the set of special characters |
| Selector.EscapeInjective | tools/iconforge-cli.js:20-22 | distinct class tokens never share a selector |
| Selector.EscapePlain | dist/iconforge.js:26-28 | a token without special characters is its own selector |
| Selector.EscapeSelector | bin/iconforge-cli.cjs:48-50 | `escapeSelector` with the punctuation class of the expression (no backslash): the length grows by the number of punctuation characters and unescaping gives the token back; dist/iconforge.js lines 26-28 hold the same expression, so the runtime uses this definition too |
| ToolsCli.EscapeSelector | tools/iconforge-cli.js:20-22 | the same for this copy, whose class also holds the backslash |
| JsString.Trim | bin/iconforge-cli.cjs:224 | `trim()`: the result is the middle of the text, only white space is cut from both ends, and it neither starts nor ends with white space |
| JsString.SplitOn | dist/iconforge.js:81 | `split(' ')` gives at least one part and no part holds the separator |
| JsString.JoinSplitOn | dist/iconforge.js:81 | joining the parts with the separator gives the text back |
| JsString.SplitSpaceRuns | bin/iconforge-cli.cjs:125 | `split(/\s+/)`: no part holds white space, only the first and last part can be empty, and the first part is the leading word |
| JsString.SplitSpaceRunsMeans | bin/iconforge-cli.cjs:125 | `split(/\s+/)` is the one way to cut the text at non-empty white-space runs: its parts with some gaps give the text back, and any parts that do so are its parts |
| JsString.SplitTwoWords | bin/iconforge-cli.cjs:125 | two words with white space between them come out as two parts |
| JsString.SplitSpaceRunsKeepsText | bin/iconforge-cli.cjs:125 | the parts, put together, are the text with its white space removed |
| OrderedSet.Add | bin/iconforge-cli.cjs:130 | `set.add(x)`: the old elements keep their order as a prefix, the members are the old ones and `x`, and no element is repeated |
| OrderedSet.Dedup | bin/iconforge-cli.cjs:115-133 | the set built by adding a list in order has no repeats and exactly the list's members |
| OrderedSet.DedupOfNoDup | bin/iconforge-cli.cjs:282 | `Array.from` of a set built from a list without repeats is that list |
| OrderedSet.DedupPrefix | bin/iconforge-cli.cjs:142 | the set built from a prefix of the input is a prefix of the final set: insertion order is kept |
| OrderedSet.DedupSnoc | bin/iconforge-cli.cjs:130 | one more element of input is one more `add` |
| Braces.MatchAtMeans | bin/iconforge-cli.cjs:223 | `/{([^}]+)}/` matches at a position exactly when the text holds `{`, a non-empty body free of `}`, and `}` there |
| Braces.Search | bin/iconforge-cli.cjs:223 | the leftmost match at or after a position, or none when no position matches |
| Braces.FirstBody | bin/iconforge-cli.cjs:223 | `match(/{([^}]+)}/)[1]`: the body of the leftmost match, or none when no position matches |
| Braces.FirstBodyShape | bin/iconforge-cli.cjs:238-240 | a found body is non-empty and holds no `}` |
| Braces.NoBraceNoBody | dist/iconforge.js:150-152 | a text without `{` never matches |
| CodePoint.ContentAtSound | bin/iconforge-cli.cjs:314 | a match of `content:\s*'\\([0-9a-fA-F]+)'` is that literal shape with non-empty hex digits |
| CodePoint.ContentAtComplete | bin/iconforge-cli.cjs:314 | every occurrence of that shape is a match |
| CodePoint.Search | bin/iconforge-cli.cjs:314 | the leftmost matching position, or none when no position matches |
| CodePoint.GlyphOf | bin/iconforge-cli.cjs:314-319 | a code point that is kept is at most 0x10FFFF; there is no match exactly when no position matches; an out-of-range value throws |
| CodePoint.Points | bin/iconforge-cli.cjs:321-322 | `.filter(Boolean)` keeps exactly the code points, in order; the result is empty exactly when there are none |
| CodePoint.Plan | bin/iconforge-cli.cjs:324-344 | the whole font is copied exactly when a callback threw or no class gave a code point; otherwise the subset holds those code points |
| Prefixes.FirstIndex | dist/iconforge.js:36 | `find`: the first token the text starts with, and no earlier token is a prefix of it |
| Prefixes.Strips | dist/iconforge.js:34-42 | the positions of the tokens stripped, in order; there are none exactly when the text starts with no token |
| Prefixes.Base | dist/iconforge.js:34-42 | what is left starts with no token, and a text that starts with none is left as it is |
| Prefixes.Reassemble | dist/iconforge.js:30-44 | the stripped tokens followed by the base spell the input again |
| Prefixes.BaseUnchanged | dist/iconforge.js:30-44 | the base is the input exactly when the input starts with no token |
| Prefixes.OnlyCandidate | bin/iconforge-cli.cjs:81-82 | in a prefix-free table the first token that matches is the only one, so the order of the scan does not matter |
| Prefixes.BaseAfterAny | bin/iconforge-cli.cjs:285-298 | stripping any matching token first leads to the same base |
| Prefixes.StripsFront | dist/iconforge.js:34-42 | a text that starts with a token strips it first and then goes on with the rest |
| Arbitrary.EnclosedMeans | bin/iconforge-cli.cjs:147 | `-\[(.+)\]$` after an opening gives `v` exactly when the base is the opening, `v` and `]`, and `v` is non-empty without line terminators |
| Arbitrary.MatchWithMeans | bin/iconforge-cli.cjs:147 | one keyword alternative matches exactly the bases `is-<k>-[<v>]` |
| Arbitrary.Match | bin/iconforge-cli.cjs:147 | a match names a listed keyword whose alternative matches; no match means that no listed keyword matches |
| Arbitrary.MatchComplete | bin/iconforge-cli.cjs:147 | every `is-<k>-[<v>]` with a listed keyword matches |
| Arbitrary.MatchMeans | bin/iconforge-cli.cjs:147 | the expression matches exactly the bases `is-<k>-[<v>]` with `k` listed, and yields that keyword and value |
| Arbitrary.UnderscoresToSpaces | bin/iconforge-cli.cjs:203 | `replace(/_/g, ' ')`: same length, each `_` becomes a space and every other character stays |
| Arbitrary.TemplatePadding | bin/iconforge-cli.cjs:159 | `is-p-[v]` yields `padding: v;` with the value as written |
| Arbitrary.TemplateSquare | bin/iconforge-cli.cjs:157 | `is-sq-[v]` yields the value twice, as width and then as height |
| Arbitrary.TemplateFixedBg | bin/iconforge-cli.cjs:202 | `is-fixed-bg-[v]` yields the fixed cover declarations and `background-image: url("v");`, with any `"` of the value kept unchanged |
| Arbitrary.TemplateGradient | bin/iconforge-cli.cjs:203 | `is-gradient-linear-[v]` turns every `_` into a space and clips the gradient to the text |
| Arbitrary.TemplateNonEmpty | bin/iconforge-cli.cjs:152-208 | every keyword the expression accepts has a non-empty template, so neither `default` nor an empty `properties` is reached |
| Rules.RuleStartsWithSelector | dist/iconforge.js:138-161 | every rule starts with its selector |
| Scan.KeptTokensMeans | bin/iconforge-cli.cjs:125-131 | a token is kept exactly when it is one of the parts and passes the filter |
| Scan.ScannedByMeans | bin/iconforge-cli.cjs:122-133 | a token is scanned exactly when the filter keeps it and one attribute value yields it, whatever the cutting |
| Scan.ScannedMeans | bin/iconforge-cli.cjs:122-133 | the same with the values cut at runs of white space |
| Scan.UsedClassesMeans | bin/iconforge-cli.cjs:115-133 | a class is used exactly when it is safelisted, or kept and found in an attribute value; no class is listed twice |
| Scan.CollectUsed | bin/iconforge-cli.cjs:115-133 | the safelist loop and the scanning loops build exactly the used classes |
| Scan.ScanValue | bin/iconforge-cli.cjs:125-132 | the loop over one value's tokens adds its kept tokens in order |
| Sheet.Collect | bin/iconforge-cli.cjs:142-143 | one contribution per used class, in order |
| Sheet.KeyframesFoundMeans | bin/iconforge-cli.cjs:218 | a keyframes text is found exactly when some class contributes it |
| Sheet.RulesFoundMeans | bin/iconforge-cli.cjs:248-252 | a rule lands in a bucket exactly when some class contributes it to that bucket |
| Sheet.BucketRulesMeans | bin/iconforge-cli.cjs:248-252 | a bucket lists each rule once, and exactly the rules put into it |
| Sheet.KeyframesSetMeans | bin/iconforge-cli.cjs:139 | the keyframes set lists each keyframes text once, and exactly those found |
| Sheet.Aggregate | bin/iconforge-cli.cjs:139-253 | the resolution loop builds the keyframes set and the buckets of the contributions; `default` exists from the start and a bucket exists exactly when it has a rule |
| Sheet.Absorb | bin/iconforge-cli.cjs:142-253 | one class more keeps both invariants: the keyframes set and every bucket reflect the classes seen so far |
| Sheet.Serialize | bin/iconforge-cli.cjs:255-277 | the string building writes keyframes, default rules, the media blocks in breakpoint order and the custom files |
| Sheet.WriteBlocks | bin/iconforge-cli.cjs:261-266 | one block per breakpoint with rules, in breakpoint order, each rule indented by two spaces |
| Sheet.AppendCustom | bin/iconforge-cli.cjs:268-277 | each custom file that exists is appended with a line break, in order; a missing one adds nothing |
| Sheet.OutputStarts | bin/iconforge-cli.cjs:255 | the stylesheet starts with the header, then the keyframes |
| Sheet.WriteSheet | bin/iconforge-cli.cjs:139-279 | resolution, aggregation and serialisation write the stylesheet of the used classes' contributions |
| Sheet.SameMedia | bin/iconforge-cli.cjs:257-266 | the buckets the loop built give the default rules and per-query rule sets of the contributions |
| FontSubset.SubsetNamesMeans | bin/iconforge-cli.cjs:282 | one name per used class, in the same order, each the class with its prefixes stripped |
| FontSubset.GlyphsMeans | bin/iconforge-cli.cjs:303-320 | `filter` then `map`: a glyph is produced exactly when some `if-` class with a truthy icon entry yields it |
| FontSubset.GlyphsAppend | bin/iconforge-cli.cjs:303-320 | the glyphs of two lists, one after the other |
| FontSubset.SameNameTwice | bin/iconforge-cli.cjs:282 | two classes that strip to the same name yield that name's glyph twice |
| FontSubset.SubsetPlanMeans | bin/iconforge-cli.cjs:300-344 | the whole font is copied exactly when some eligible class throws or none yields a code point; a subset keeps exactly the eligible classes' code points, all in range |
| FontSubset.GlyphPointInRange | bin/iconforge-cli.cjs:316 | a callback that never yields an out-of-range code point puts none in the subset |
| InputGlobs.InputGlob | bin/iconforge-cli.cjs:365-371 | the pattern argument when given, else a non-empty `content` list, else the default pattern; a pattern list is never empty |
| CliCjs.VariantTokensShape | bin/iconforge-cli.cjs:52-71 | the ten variant tokens are non-empty and none is a prefix of another |
| CliCjs.ParseVariants | bin/iconforge-cli.cjs:73-104 | `parseVariants` computes the base, the media query, the pseudo-classes and the dark prefix |
| CliCjs.ParseLoop | bin/iconforge-cli.cjs:80-96 | the labelled loop over a token table computes what the table's parse specifies |
| CliCjs.FirstMatch | bin/iconforge-cli.cjs:81-94 | the inner `for` finds the first token the rest starts with |
| CliCjs.ParseReassembles | bin/iconforge-cli.cjs:73-104 | the base starts with no variant token, and the stripped tokens followed by the base spell the token again |
| CliCjs.ParseUnchanged | bin/iconforge-cli.cjs:73-104 | a token comes back unchanged, with no variants, exactly when it starts with no variant token |
| CliCjs.ParseFront | bin/iconforge-cli.cjs:80-96 | a leading variant token leaves the same base, puts its pseudo-class in front, sets the dark prefix, and sets the media query only when no later breakpoint does |
| CliCjs.StripAllPrefixes | bin/iconforge-cli.cjs:285-298 | `stripAllPrefixes` gives the same base as `parseVariants` |
| CliCjs.StackedBreakpoints | bin/iconforge-cli.cjs:84-85 | with `sm:md:` the later breakpoint, `md`, sets the media query |
| CliCjs.PseudoOrder | bin/iconforge-cli.cjs:88-89 | pseudo-classes appear in the order they are written, so `hover:focus:` and `focus:hover:` differ |
| CliCjs.DarkRepeat | bin/iconforge-cli.cjs:86-87 | a repeated `dark:` still gives one `.dark ` |
| CliCjs.UsedClassesMeans | bin/iconforge-cli.cjs:115-133 | a class is used exactly when it is safelisted, or found in an attribute value with a non-empty base starting with `if-` or `is-`; no class is listed twice |
| CliCjs.IsKept | bin/iconforge-cli.cjs:126-131 | the filter of the scanning loop is the kept test |
| CliCjs.ArbitraryWins | bin/iconforge-cli.cjs:147-211 | an arbitrary-value base gives its template rule and no keyframes, whatever the metadata holds for it |
| CliCjs.StyleBody | bin/iconforge-cli.cjs:213-228 | a style entry whose source has a brace body gives the trimmed body, or no rule when that is blank |
| CliCjs.StyleWhole | bin/iconforge-cli.cjs:219-227 | a style entry without a brace body uses its whole source text, or no rule when that is empty |
| CliCjs.IconRule | bin/iconforge-cli.cjs:229-245 | otherwise a truthy icon entry gives a `:before` rule with its trimmed body, or no rule without a body; no keyframes |
| CliCjs.VariantKeepsEntry | bin/iconforge-cli.cjs:143-246 | a variant prefix changes neither the keyframes found nor whether a rule is written |
| CliCjs.ResolveNothing | bin/iconforge-cli.cjs:145-246 | a base on none of the three paths gives no rule and no keyframes |
| CliCjs.ResolveSelector | bin/iconforge-cli.cjs:209-242 | every rule starts with `${darkPrefix}.${escapeSelector(cls)}${variantSel}` |
| CliCjs.GlyphForInRange | bin/iconforge-cli.cjs:314-316 | the subset callback never yields an out-of-range code point |
| CliCjs.VariantGlyphRepeats | bin/iconforge-cli.cjs:282 | a class and its variant form strip to the same base, so the subset lists the icon's glyph once for each |
| CliCjs.BuildCss | bin/iconforge-cli.cjs:110-283 | `buildCSS` writes the stylesheet of the used classes and plans the subset of their stripped names |
| CliCjs.WriteStylesheet | bin/iconforge-cli.cjs:139-279 | resolution, aggregation and serialisation of the used classes |
| CliCjs.StripEach | bin/iconforge-cli.cjs:282 | `Array.from(usedClasses).map(stripAllPrefixes)` gives the base of each used class, in order |
| CliCjs.WrapMedia | bin/iconforge-cli.cjs:106-108 | no media query leaves the rule as it is; otherwise the result is the query, then ` { `, then the rule, then ` }`, each piece at its stated position |
| DistRuntime.PrefixKinds | dist/iconforge.js:8-16 | `orderedPrefixes` is the breakpoint keys, then `dark:`, then the states, and the position of a prefix tells its kind |
| DistRuntime.PrefixTable | dist/iconforge.js:16 | the eight prefixes are non-empty and none is a prefix of another |
| DistRuntime.ParseReassembles | dist/iconforge.js:30-44 | the base starts with no prefix, and the variants followed by the base spell the class again |
| DistRuntime.ParseFront | dist/iconforge.js:34-42 | a leading prefix is the first variant, and the rest is parsed on its own |
| DistRuntime.NoXsOrDisabled | dist/iconforge.js:8-16 | `xs:` and `disabled:` are no prefixes here: such a class is its own base |
| DistRuntime.NotAPrefix | dist/iconforge.js:36 | a class whose first two characters begin no prefix has no variants |
| DistRuntime.ParseVariants | dist/iconforge.js:30-44 | `parseVariants` returns the base and the variants in order |
| DistRuntime.ParseLoop | dist/iconforge.js:34-42 | the `while (changed)` loop strips the prefixes the specification strips and leaves the base |
| DistRuntime.ApplyVariants | dist/iconforge.js:104-108 | the `forEach` over the variants builds the state text, the theme text and the media query |
| DistRuntime.PiecesAppend | dist/iconforge.js:104-106 | the text of two runs of variants is the text of the first followed by that of the second |
| DistRuntime.MediaOfAppend | dist/iconforge.js:107 | a later breakpoint overrides an earlier one |
| DistRuntime.DarkAlone | dist/iconforge.js:106 | one `dark:` gives one `.dark ` ancestor |
| DistRuntime.DarkCompounds | dist/iconforge.js:106 | each `dark:` adds one more `.dark ` |
| DistRuntime.StateAlone | dist/iconforge.js:105 | a state prefix alone gives its pseudo-class |
| DistRuntime.StateFirst | dist/iconforge.js:105 | pseudo-classes follow the order of the prefixes |
| DistRuntime.BreakpointAlone | dist/iconforge.js:107 | a breakpoint alone selects its query |
| DistRuntime.QueryTable | dist/iconforge.js:8-13 | the first four prefixes are the breakpoints, whose queries are the media blocks of the output, in order |
| DistRuntime.LastBreakpointWins | dist/iconforge.js:107 | of stacked breakpoints the last one sets the media query |
| DistRuntime.Classify | dist/iconforge.js:82-85 | `scanElement`'s tests: empty tokens are skipped, an `if-` base goes to `usedIf`, otherwise an `is-` base to `usedIs` |
| DistRuntime.Disjoint | dist/iconforge.js:84-85 | no class goes into both sets |
| DistRuntime.ArbitraryWins | dist/iconforge.js:111-138 | a base of the twenty-keyword table gives its template and no keyframes, whatever the metadata holds |
| DistRuntime.MatchedBody | dist/iconforge.js:113-138 | a matched base takes the template of its match |
| DistRuntime.ClasslessStyle | dist/iconforge.js:143-154 | an object style entry without a truthy `class` gives no rule and no keyframes |
| DistRuntime.StyleSourceCases | dist/iconforge.js:149-153 | a brace body gives its trimmed text; a source without `{` is used whole; a `{` without a valid body gives nothing |
| DistRuntime.IconOnlyText | dist/iconforge.js:155-163 | an icon entry gives a `:before` rule exactly when it is a string with a brace body |
| DistRuntime.BlockMeans | dist/iconforge.js:175-176 | an empty bucket writes nothing, and a non-empty one writes its query header |
| DistRuntime.Push | dist/iconforge.js:94-169 | the resolution loop builds the keyframes set and buckets that keep every rule in order, repeats included |
| DistRuntime.WriteText | dist/iconforge.js:171-178 | the string building writes keyframes, the default rules and the non-empty media blocks in breakpoint order |
| DistRuntime.Rebuild | dist/iconforge.js:93-178 | `newCSSText` is the text of the used classes' contributions |
| DistRuntime.SavedMeans | dist/iconforge.js:201-207 | a payload is stored exactly when it fits the 5242880 limit and the host accepts it; a refusal, swallowed by the `catch`, leaves storage as it was; every stored payload stays within the limit and other keys are untouched |
| DistRuntime.TokensMeans | dist/iconforge.js:76-91 | a token is scanned exactly when some element's class name yields it |
| DistRuntime.AcceptedMeans | dist/iconforge.js:84-85 | a token is accepted exactly when it was offered and passes the test |
| DistRuntime.FileClass | dist/iconforge.js:82-85 | one token offered keeps both sets filed |
| DistRuntime.FileAll | dist/iconforge.js:81-86 | the `forEach` over a class name's parts keeps both sets filed |
| DistRuntime.UsedMeans | dist/iconforge.js:82-86 | `usedIf` holds exactly the offered tokens with an `if-` base, `usedIs` exactly those with an `is-` base and no `if-` base, each once, and no token is in both |
| DistRuntime.Page.constructor | dist/iconforge.js:46-52 | the page starts with empty sets and metadata, the banner, the font face and the base rule in the first style element, and no dynamic element |
| DistRuntime.Page.FetchMeta | dist/iconforge.js:54-74 | both cached documents are used when both are stored; otherwise a successful fetch is used and saved as far as the limit and the host allow; a failed fetch changes nothing |
| DistRuntime.Page.SafeSave | dist/iconforge.js:201-207 | `sessionStorage` gets the payload only when it fits and `setItem` does not throw |
| DistRuntime.Page.ScanElement | dist/iconforge.js:78-87 | every part of `className.split(' ')` is offered, and the sets stay filed |
| DistRuntime.Page.OfferAll | dist/iconforge.js:81-86 | the parts are offered in order, the sets stay filed, and each old set stays a prefix of the new one |
| DistRuntime.FiledGrows | dist/iconforge.js:18-19 | the sets only grow: offering more tokens keeps every old member in its place, and new members come after them |
| DistRuntime.Page.ScanNode | dist/iconforge.js:76-91 | the root, then every element the walker visits, is scanned in document order; a class-less element's subtree is not visited |
| DistRuntime.WalkedMeans | dist/iconforge.js:89-90 | the walker visits exactly the classed elements whose ancestors below the root all have a `class` attribute |
| DistRuntime.RejectHidesDescendants | dist/iconforge.js:89 | a classed element inside a class-less one is in the tree but is never visited |
| DistRuntime.WalkedAllMeans | dist/iconforge.js:89-90 | the walk with `FILTER_SKIP` visits every classed element of the tree |
| DistRuntime.Page.InjectStyles | dist/iconforge.js:93-191 | the dynamic element holds the text of the used classes, and it is rewritten only when that text changes |
| DistRuntime.Page.Run | dist/iconforge.js:193-199 | the metadata and the store end up as `fetchMeta` leaves them (cached documents used; else a fetched pair used and saved as the limit and host allow; else nothing changes), the walk from the root is offered, the sets only grow, and the dynamic element holds the text of the used classes under that metadata |
| DistRuntime.Page.Refresh | dist/iconforge.js:195-196 | the walk from the root is offered and the dynamic element holds the text of the used classes; the metadata is not touched |
| DistRuntime.InjectTwice | dist/iconforge.js:187-189 | a second pass over unchanged sets and metadata writes nothing |
| ToolsCli.PrefixTable | tools/iconforge-cli.js:35-41 | the eight prefixes are non-empty and none is a prefix of another |
| ToolsCli.ParseOneFront | tools/iconforge-cli.js:65-76 | a class that starts with a prefix is read with that prefix, and the rest is its base |
| ToolsCli.ParseOneClean | tools/iconforge-cli.js:61-64 | a class without a prefix is its own base with no variant and the `default` bucket |
| ToolsCli.OnlyOneStripped | tools/iconforge-cli.js:47-50 | only the first prefix is stripped: with two stacked prefixes the base starts with the second |
| ToolsCli.UsedClassesMeans | tools/iconforge-cli.js:42-55 | a class is used exactly when an attribute value holds it and its base starts with `if-` or `is-`; no class is listed twice |
| ToolsCli.StackedDropped | tools/iconforge-cli.js:45-54 | a class with two stacked prefixes is never collected |
| ToolsCli.ArbitraryNoRule | tools/iconforge-cli.js:77-152 | an arbitrary-value base gives neither a rule nor keyframes, whatever the metadata holds |
| ToolsCli.StyleRule | tools/iconforge-cli.js:154-173 | a style entry gives `${prefix}.${cls}${variantCSS} { … }` with its body, or with its whole source when it has no body, and no rule when that is empty |
| ToolsCli.IconRule | tools/iconforge-cli.js:174-194 | otherwise a truthy icon entry gives a `:before` rule with its trimmed body, or no rule without a body |
| ToolsCli.IconPseudoOrder | tools/iconforge-cli.js:187-189 | with a pseudo-class prefix the icon rule reads `.<cls>:before:hover` |
| ToolsCli.ResolveNothing | tools/iconforge-cli.js:154-194 | a base with neither entry gives no rule and no keyframes |
| ToolsCli.ResolveSelector | tools/iconforge-cli.js:168-189 | every rule starts with `${prefix}.${escapeSelector(cls)}` |
| ToolsCli.BucketKnown | tools/iconforge-cli.js:64-76 | the bucket of a class is `default` or one of the four breakpoint queries |
| ToolsCli.VariantSubset | tools/iconforge-cli.js:195 | an icon class written with a prefix is looked up under its base for the subset |
| ToolsCli.BuildCss | tools/iconforge-cli.js:24-195 | `buildCSS` writes the stylesheet of the used classes and plans the subset of their stripped names |
| ToolsCli.WriteStylesheet | tools/iconforge-cli.js:57-195 | the resolution loop and the string building |
| ToolsCli.StripEach | tools/iconforge-cli.js:195 | the `map` that strips the first prefix from each used class |
| CliJs.UsedClassesMeans | bin/iconforge-cli.js:26-36 | a class is used exactly when an attribute value holds it and it starts with `if-` or `is-`; no class is listed twice |
| CliJs.PieceEmpty | bin/iconforge-cli.js:43-56 | a class adds no text exactly when it has no truthy icon entry and no style entry that is a string or an object with a truthy `class` |
| CliJs.IconThenStyle | bin/iconforge-cli.js:43-55 | a class with both entries adds its icon text, then its style text, each with a line break |
| CliJs.MainTextAppend | bin/iconforge-cli.js:42-57 | the main output of two lists of classes is the first's followed by the second's |
| CliJs.MainTextOrder | bin/iconforge-cli.js:42-57 | each class's text follows the texts of all earlier classes |
| CliJs.KeyframesFoundMeans | bin/iconforge-cli.js:48-51 | a keyframes text is found exactly when some class's object style entry with a truthy `class` has it |
| CliJs.Resolve | bin/iconforge-cli.js:39-57 | the loop builds the main output and the keyframes set |
| CliJs.ResolveClass | bin/iconforge-cli.js:43-56 | one iteration: the text the class adds and the keyframes it finds |
| CliJs.KeyframesFirst | bin/iconforge-cli.js:59-60 | the stylesheet starts with the header and the keyframes, followed by the main output |
| CliJs.ObjectIconCopiesFont | bin/iconforge-cli.js:91-98 | one `if-` class whose icon entry is an object makes `.match` throw, so the whole font is copied |
| CliJs.BuildCss | bin/iconforge-cli.js:21-84 | `buildCSS` writes the stylesheet of the used classes and plans the subset of those classes |
| CliJs.WriteStylesheet | bin/iconforge-cli.js:38-78 | the resolution loop, then the string building |
| LiveSheet.FiledDisjoint | iconforge.js:52-53 | `usedIf` and `usedIs` share no class |
| LiveSheet.ScannedMeans | iconforge.js:50-55 | scanning keeps the sets filed, only grows them, and adds exactly the scanned `if-` and `is-` classes |
| LiveSheet.ScannedNoop | iconforge.js:52-53 | tokens already in their set change nothing |
| LiveSheet.ScannedTwice | iconforge.js:47-62 | scanning the same tokens twice is scanning them once |
| LiveSheet.ScanTokens | iconforge.js:51-54 | `classList.forEach` adds each token to its set |
| LiveSheet.ScannedAppend | iconforge.js:57-61 | scanning elements one after another is scanning all their tokens |
| LiveSheet.ScanElements | iconforge.js:61 | `forEach(scanElement)` over the elements |
| LiveSheet.FreshMeans | iconforge.js:67-79 | a class is injected by a pass exactly when it is used, not injected yet and has a truthy entry; none is injected twice |
| LiveSheet.InjectSet | iconforge.js:67-72 | one set's loop appends the entries of its fresh classes and marks them injected |
| LiveSheet.IconsLeaveStyles | iconforge.js:67-79 | the icon loop's marks do not change what the style loop injects |
| LiveSheet.Inject | iconforge.js:64-82 | a pass appends the icon texts, then the style texts, logs each injected class once, and leaves nothing for a second pass |
| LiveSheet.ScanKeeps | iconforge.js:47-62 | scanning keeps the state consistent |
| LiveSheet.InjectKeeps | iconforge.js:64-82 | a pass keeps the state consistent |
| LiveSheet.SecondPassIdle | iconforge.js:64-82 | after a pass, a second pass over the same sets and metadata appends nothing |
| Runtime.Page.constructor | iconforge.js:27-36 | the style element holds the banner, the font face and the base rule; the sets are empty |
| Runtime.Page.ScanNode | iconforge.js:47-62 | nothing for a non-element; otherwise the element's own tokens, when it has a class, then those of every descendant with one |
| Runtime.Page.ScanNodes | iconforge.js:92 | `addedNodes.forEach(scanNode)` |
| Runtime.Page.InjectStyles | iconforge.js:64-82 | appends the fresh icon texts, then the fresh style texts, and a second pass would append nothing |
| Runtime.Page.ScanMutations | iconforge.js:90-96 | the added nodes of a child list mutation and the target of a class mutation are scanned, mutation by mutation |
| Runtime.Page.Observe | iconforge.js:89-98 | the observer callback scans every mutation, then appends exactly the fresh icon texts and then the fresh style texts of the classes found, logs them, and leaves nothing for a second pass |
| Runtime.Page.Run | iconforge.js:84-88 | a failed fetch changes nothing (metadata, sets, marks, log, text); otherwise the metadata is replaced, the document scanned, and exactly the fresh icon then style texts appended and logged, leaving nothing for a second pass |
| JitRuntime.Page.constructor | iconforge-jit.js:8-15 | the page starts with empty sets, an empty style element and empty metadata |
| JitRuntime.Page.InjectFontFace | iconforge-jit.js:27-38 | one more style element with the font rule |
| JitRuntime.Page.ScanDom | iconforge-jit.js:49-56 | the tokens of every element with a class, in document order |
| JitRuntime.Page.InjectStyles | iconforge-jit.js:58-76 | the fresh icon texts, then the fresh style texts, each followed by a line break, are appended once |
| JitRuntime.Page.Run | iconforge-jit.js:78-84 | metadata fetched only while either document is empty; a failed fetch stops the run; otherwise a scan and a pass |
| JitRuntime.Page.Start | iconforge-jit.js:95-105 | start-up adds the font element, then has every outcome of `run`: metadata kept or replaced, the stop on a failed fetch with nothing changed, or a scan and exactly the fresh texts appended with line breaks |
| JitRuntime.RunTwice | iconforge-jit.js:78-87 | a second run over the same document with the same fetch result leaves the text as the first left it |

## Left out

- I/O and the environment are not modelled. This covers the file system,
  `glob`, `chokidar` watching, `console`, `process.argv`, `runInit`,
  `loadConfig` and `require`/`import` of the configuration. What they
  deliver becomes parameters instead:
  - the metadata maps;
  - the attribute values;
  - the safelist;
  - the custom files, with `None` for a missing file;
  - the optional pattern argument and `content` list.
- `runBuild`'s file list and content concatenation, and `main`'s mode
  dispatch, are left out. They are plumbing around `buildCSS`.
- The class-attribute regular expressions of the three tools are left out.
  The model starts from the captured attribute values, because matching
  `.*?` with the `s` flag across quotes is regular-expression machinery, not
  IconForge logic.
- The `subset-font` library and the size report are left out. The model
  stops at the plan: which code points to keep, or copying the whole font.
- The DOM is reduced to token lists:
  - `classList` and `className` are sequences of tokens.
  - `querySelectorAll('[class]')` in iconforge.js and iconforge-jit.js gives
    the class names of a subtree in document order.
  - The `TreeWalker` of dist/iconforge.js walks a tree of elements
    (`DistRuntime.Element`), because its filter prunes subtrees.
  - A node is an element or not.
- The scheduling of `MutationObserver`, `DOMContentLoaded` and
  `requestAnimationFrame` is left out. The callbacks are methods, and the
  deferred write of `dist/iconforge.js` happens at once.
- `preloadFont` adds a link element. It changes no style text, so it is left
  out.
- `fetch` and `JSON.parse`/`JSON.stringify` are parameters: the fetch result
  as an `Option`, and decode/encode functions. A cached text that fails to
  parse is not modelled.
- JSON values other than strings and objects with string fields are not
  modelled, and neither are JavaScript prototype keys such as `constructor`
  looked up in the metadata.
- DistRuntime.SavedMeans: compares the length in characters, not in UTF-16
  code units, because Dafny strings hold Unicode scalar values. Lone
  surrogates cannot occur either.
- CodePoint.Plan: `unicodes.length` is taken to be non-zero exactly when
  some code point was kept, which is what the UTF-16 length gives.
- DistRuntime.Page.Run: only the first pass is modelled. The observer's
  callback repeats `scanNode` and `injectStyles`, so it is the same two
  method calls.

## Findings

| source | as written | input that shows it | evidently intended | confidence | as-written member | corrected member |
|---|---|---|---|---|---|---|
| dist/iconforge.js:89 | `acceptNode` answers `FILTER_REJECT` for an element without a `class` attribute, so the walker skips that element's whole subtree | a page whose `body` has no `class`: no class inside the body is scanned, so `<section><i class="if-b">` gets no rule | `FILTER_SKIP`: pass over the class-less element but still walk its children, as `querySelectorAll('[class]')` does in iconforge.js | high; not executed | DistRuntime.RejectHidesDescendants | DistRuntime.WalkedAllMeans |

`DistRuntime.Page.ScanNode` keeps the walk as written (`DistRuntime.Walked`),
since that is what the script does. `DistRuntime.WalkedAll` is the walk the
script evidently means, and `DistRuntime.WalkedAllMeans` proves that it
visits every classed element.
