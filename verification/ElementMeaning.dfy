/**
 * What an element means to a machine reader, by its fields: contracts compare elements with
 * these, and no projection is computed from them.
 */
module ElementMeaning {
  import opened Wrappers
  import opened Scene

  // ---- text up to line endings ----

  /** The length of the line break the text starts with: `\r\n` counts as one break. */
  ghost function BreakAt(s: string): nat {
    if s == "" then 0
    else if s[0] == '\n' then 1
    else if s[0] == '\r' then (if |s| > 1 && s[1] == '\n' then 2 else 1)
    else 0
  }

  /** The same characters between breaks, and breaks in the same places, however each is written. */
  ghost predicate SameUpToLineEndings(a: string, b: string) {
    if a == "" || b == "" then a == b
    else if BreakAt(a) > 0 || BreakAt(b) > 0 then
      BreakAt(a) > 0 && BreakAt(b) > 0 && SameUpToLineEndings(a[BreakAt(a)..], b[BreakAt(b)..])
    else a[0] == b[0] && SameUpToLineEndings(a[1..], b[1..])
  }

  // ---- the fields that carry meaning ----

  ghost predicate Empty(o: Option<string>) {
    o == None || o == Some("")
  }

  ghost predicate SameOrBothEmpty(a: Option<string>, b: Option<string>) {
    a == b || (Empty(a) && Empty(b))
  }

  ghost function KindOf(e: Element): string {
    if Empty(e.kind) then "unknown" else e.kind.value
  }

  /** What was authored, or what is rendered where nothing was. */
  ghost function WordsOf(e: Element): Option<string> {
    if !Empty(e.originalText) then e.originalText else if !Empty(e.text) then e.text else None
  }

  ghost predicate SameWords(a: Option<string>, b: Option<string>) {
    match (a, b)
    case (None, None) => true
    case (Some(s), Some(t)) => SameUpToLineEndings(s, t)
    case _ => false
  }

  /** The same id, type, words and link; geometry, style and rendering are no part of it. */
  ghost predicate SameMeaning(a: Element, b: Element) {
    a.id == b.id && KindOf(a) == KindOf(b) && SameWords(WordsOf(a), WordsOf(b)) && SameOrBothEmpty(a.link, b.link)
  }
}
