/** The rule text of the copies that build one rule per class from a
    selector, a pseudo-class suffix and declarations: a style rule on the
    element, an icon rule on its `:before` pseudo-element, with the
    pseudo-class after `:before`. */
module Rules {
  import opened Options
  import opened OrderedSet

  /** The declarations of the rule of a base, and whether it is written on
      the `:before` pseudo-element. */
  datatype Body = NoRule | Plain(props: string) | Before(props: string)

  /** The rule for selector `sel`, pseudo-class text `pseudo` and body `b`:
      on an icon the pseudo-class follows `:before`. */
  function RuleOf(sel: string, pseudo: string, b: Body): Option<string> {
    match b
    case NoRule => None
    case Plain(p) => Some(sel + pseudo + " { " + p + " }")
    case Before(p) => Some(sel + ":before" + pseudo + " { " + p + " }")
  }

  /** A rule starts with its selector. */
  lemma RuleStartsWithSelector(sel: string, pseudo: string, b: Body)
    ensures RuleOf(sel, pseudo, b).Some? ==> sel <= RuleOf(sel, pseudo, b).value
  {
    match b
    case NoRule =>
    case Plain(p) =>
      AppendAssoc(sel, pseudo, " { " + p + " }");
      PrefixOfAppend(sel, pseudo + " { " + p + " }");
    case Before(p) =>
      AppendAssoc(sel, ":before", pseudo);
      AppendAssoc(sel, ":before" + pseudo, " { " + p + " }");
      PrefixOfAppend(sel, (":before" + pseudo) + " { " + p + " }");
  }
}
