/**
 * The typing effect on the hero title: the title's text is saved, the
 * element is emptied, and a timer callback appends one code unit of the
 * saved text per tick, rescheduling itself until the whole text is shown.
 *
 * Texts are sequences of UTF-16 code units, the units `String.prototype.charAt`
 * and `length` count: a character outside the Basic Multilingual Plane is
 * two units (a surrogate pair), so it takes two firings to appear, the
 * first of which shows its lone high surrogate. The timer itself is not
 * modelled; each call of `Tick` is one firing of the callback.
 */
module Typewriter {

  /** A UTF-16 code unit, surrogates included. */
  newtype CodeUnit = x: int | 0 <= x < 0x1_0000

  /** A JavaScript string: its UTF-16 code units in order. */
  type JsString = seq<CodeUnit>

  function Min(a: nat, b: nat): nat { if a <= b then a else b }

  /**
   * What the title shows after `k` firings of the callback, defined the way
   * the callback builds it: each firing appends the next code unit while
   * any are left, and does nothing once the text is complete.
   */
  function Typed(original: JsString, k: nat): JsString
  {
    if k == 0 then []
    else
      var before := Typed(original, k - 1);
      if |before| < |original| then before + [original[|before|]] else before
  }

  /** After `k` firings the title is the first min(k, length) code units of the original. */
  lemma {:induction false} TypedIsPrefix(original: JsString, k: nat)
    ensures Typed(original, k) == original[..Min(k, |original|)]
  {
    if k > 0 {
      TypedIsPrefix(original, k - 1);
      var m := Min(k - 1, |original|);
      if m < |original| {
        assert original[..m] + [original[m]] == original[..m + 1];
      }
    }
  }

  /** Once `k` reaches the length of the original, the whole title is shown and stays so. */
  lemma TypedCompletes(original: JsString, k: nat)
    requires |original| <= k
    ensures Typed(original, k) == original
    ensures Typed(original, k + 1) == Typed(original, k)
  {
    TypedIsPrefix(original, k);
    TypedIsPrefix(original, k + 1);
  }

  /**
   * The state the `typeWriter` closure captures: the saved `originalText`,
   * the counter `i` and the title element's `textContent`. The ghost field
   * `ticks` counts the firings so far.
   */
  class TypeWriter {
    const originalText: JsString
    var textContent: JsString
    var i: nat
    ghost var ticks: nat

    /** The counter never passes the text's length and the title is the prefix it counts. */
    ghost predicate Valid()
      reads this
    {
      i == Min(ticks, |originalText|) && textContent == originalText[..i]
    }

    /** Saving the title's text and emptying the element. */
    constructor (title: JsString)
      ensures Valid()
      ensures originalText == title && textContent == [] && i == 0 && ticks == 0
    {
      originalText := title;
      textContent := [];
      i := 0;
      ticks := 0;
    }

    /**
     * One firing of the callback: append `charAt(i)` and advance `i` while
     * `i` is below the length; `rescheduled` says whether it set the next
     * timer.
     */
    method Tick() returns (rescheduled: bool)
      requires Valid()
      modifies this
      ensures Valid()
      ensures ticks == old(ticks) + 1
      ensures rescheduled <==> old(i) < |originalText|
      ensures textContent == Typed(originalText, ticks)
      ensures i <= |originalText|
      ensures !rescheduled ==> textContent == originalText && i == old(i)
    {
      TypedIsPrefix(originalText, ticks + 1);
      if i < |originalText| {
        textContent := textContent + [originalText[i]];
        i := i + 1;
        rescheduled := true;
        assert originalText[..i - 1] + [originalText[i - 1]] == originalText[..i];
      } else {
        rescheduled := false;
      }
      ticks := ticks + 1;
    }
  }
}
