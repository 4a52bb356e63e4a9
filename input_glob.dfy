/** `getInputGlob`: where the build reads its input from. */
module InputGlobs {
  import opened Options

  /** Where the inputs come from. */
  datatype Glob = Pattern(pattern: string) | Patterns(patterns: seq<string>)

  const DefaultPatterns: seq<string> := ["**/*.{html,js,ts,vue,jsx,tsx}"]

  /** `getInputGlob`: the command-line argument when given, else the
      configured content patterns when non-empty, else the default. */
  function InputGlob(arg: Option<string>, content: Option<seq<string>>): (g: Glob)
    ensures arg.Some? && arg.value != "" ==> g == Pattern(arg.value)
    ensures !(arg.Some? && arg.value != "") && content.Some? && content.value != [] ==> g == Patterns(content.value)
    ensures !(arg.Some? && arg.value != "") && !(content.Some? && content.value != []) ==> g == Patterns(DefaultPatterns)
    ensures g.Patterns? ==> g.patterns != []
  {
    if arg.Some? && arg.value != "" then Pattern(arg.value)
    else if content.Some? && content.value != [] then Patterns(content.value)
    else Patterns(DefaultPatterns)
  }
}
