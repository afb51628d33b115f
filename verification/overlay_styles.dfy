/**
 The overlay visibility controller of setupErrorHandler.ts: a single `<style>`
 element, looked up by a fixed id, whose one rule hides the development error
 overlay. While the element is enabled (`disabled == false`) the overlay is
 hidden; disabling the element lets the overlay show again.

 The document is reduced to the one thing these functions touch: whether an
 element with the fixed id exists, and if so its text and `disabled` bit.
 */
module OverlayStyles {
  import opened Wrappers

  /** The id by which the hiding element is found again. */
  const StylesId: string := "suppress-cra-overlay-styles"

  /** Matches the full-screen fixed iframe in which the framework draws its overlay. */
  const DefaultCraOverlaySelector: string :=
    "iframe[style*=\"position: fixed; top: 0px; left: 0px; width: 100%; height: 100%; border: none; z-index: 2147483647;\"]"

  /** What follows the selector in the element's text (the `!important` sits after the `;`, as written). */
  const HidingDeclaration: string := " { display: none; !important }"

  datatype StyleElement = StyleElement(id: string, innerHtml: string, disabled: bool)

  /** The element exists and is enabled, so whatever its rule matches is hidden. */
  predicate Hides(styles: Option<StyleElement>) {
    styles.Some? && !styles.value.disabled
  }

  /** The text of a hiding rule for `selector`. */
  function HidingRule(selector: string): string {
    selector + HidingDeclaration
  }

  /** Reads the selector back out of a hiding rule; None for any other text. */
  function RuleSelector(css: string): (r: Option<string>)
    ensures r.Some? ==> HidingRule(r.value) == css
  {
    if |css| >= |HidingDeclaration| && css[|css| - |HidingDeclaration|..] == HidingDeclaration
    then Some(css[..|css| - |HidingDeclaration|])
    else None
  }

  /** The selector written into a rule is exactly the one read back from it. */
  lemma RuleSelectorRoundTrip(selector: string)
    ensures RuleSelector(HidingRule(selector)) == Some(selector)
  {
  }

  /**
   `createStyles`: when an element with the fixed id already exists nothing
   changes; otherwise a fresh, enabled element is added whose rule hides
   `selector`.
   */
  function CreateStyles(styles: Option<StyleElement>, selector: string): (r: Option<StyleElement>)
    ensures styles.Some? ==> r == styles
    ensures styles.None? ==> r.Some? && r.value.id == StylesId && Hides(r)
    ensures styles.None? ==> RuleSelector(r.value.innerHtml) == Some(selector)
  {
    if styles.Some? then styles
    else
      RuleSelectorRoundTrip(selector);
      // a freshly created style element starts enabled
      Some(StyleElement(StylesId, HidingRule(selector), false))
  }

  /** A second `createStyles`, whatever its selector, leaves the first one's element as it was. */
  lemma CreateStylesIdempotent(styles: Option<StyleElement>, first: string, second: string)
    ensures CreateStyles(CreateStyles(styles, first), second) == CreateStyles(styles, first)
  {
  }

  /**
   `allowCRAOverlay`: without the element nothing happens; with it, only its
   `disabled` bit changes, to `allow`.
   */
  function AllowCraOverlay(styles: Option<StyleElement>, allow: bool): (r: Option<StyleElement>)
    ensures r.Some? <==> styles.Some?
    ensures styles.Some? ==> r.value.id == styles.value.id && r.value.innerHtml == styles.value.innerHtml
    ensures styles.Some? ==> r.value.disabled == allow
    ensures Hides(r) <==> styles.Some? && !allow
  {
    match styles
    case None => None
    case Some(el) => Some(el.(disabled := allow))
  }

  /** Only the last `allowCRAOverlay` call matters. */
  lemma AllowCraOverlayLastWins(styles: Option<StyleElement>, a: bool, b: bool)
    ensures AllowCraOverlay(AllowCraOverlay(styles, a), b) == AllowCraOverlay(styles, b)
  {
  }
}
