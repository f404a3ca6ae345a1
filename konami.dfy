/**
 * The Konami-code easter egg of the storefront script: a `keydown` listener
 * that keeps the most recent key codes in a small sliding window and fires
 * when the window spells the Konami sequence.
 *
 * `KonamiListener` is the listener's captured state (the `konamiCode`
 * array, mutated by push/shift and reset to empty on activation).
 * `Step` is the same handler written as a function on values, and
 * `Presses` folds it over a run of key presses; the lemmas below are about
 * those two functions and are what the listener's contract relies on.
 */
module Konami {

  /** A `KeyboardEvent.code` value such as "ArrowUp" or "KeyB". */
  type KeyCode = string

  /** The fixed sequence the buffer is compared against. */
  const KonamiSequence: seq<KeyCode> :=
    ["ArrowUp", "ArrowUp", "ArrowDown", "ArrowDown",
     "ArrowLeft", "ArrowRight", "ArrowLeft", "ArrowRight",
     "KeyB", "KeyA"]

  /** The last `n` entries of `h` (all of `h` when it is shorter). */
  function LastN(h: seq<KeyCode>, n: nat): seq<KeyCode>
  {
    if |h| <= n then h else h[|h| - n..]
  }

  /**
   * `Array.prototype.every` over the buffer from position `k` on: every
   * code equals the sequence entry at the same index.
   */
  function EveryMatches(buffer: seq<KeyCode>, k: nat): (r: bool)
    requires |buffer| <= |KonamiSequence| && k <= |buffer|
    ensures r <==> forall j :: k <= j < |buffer| ==> buffer[j] == KonamiSequence[j]
    decreases |buffer| - k
  {
    if k == |buffer| then true
    else buffer[k] == KonamiSequence[k] && EveryMatches(buffer, k + 1)
  }

  /** The activation test: full length and element-wise equal. */
  predicate Activates(buffer: seq<KeyCode>)
  {
    |buffer| == |KonamiSequence| && EveryMatches(buffer, 0)
  }

  /** What one key press leaves behind: the new buffer and whether the egg fired. */
  datatype KeyResult = KeyResult(buffer: seq<KeyCode>, activated: bool)

  /** The keydown handler on values: push, shift once if too long, test, reset. */
  function Step(buffer: seq<KeyCode>, code: KeyCode): KeyResult
  {
    var pushed := buffer + [code];
    var trimmed := if |pushed| > |KonamiSequence| then pushed[1..] else pushed;
    if Activates(trimmed) then KeyResult([], true) else KeyResult(trimmed, false)
  }

  /** The buffer left after feeding `keys` from `buffer`. */
  function FinalBuffer(buffer: seq<KeyCode>, keys: seq<KeyCode>): seq<KeyCode>
    decreases |keys|
  {
    if keys == [] then buffer else FinalBuffer(Step(buffer, keys[0]).buffer, keys[1..])
  }

  /** Feeding the first `j` keys is feeding the first one, then the next `j - 1`. */
  lemma FinalBufferOfPrefixes(buffer: seq<KeyCode>, keys: seq<KeyCode>)
    requires keys != []
    ensures forall j :: 1 <= j <= |keys| ==>
              FinalBuffer(buffer, keys[..j]) == FinalBuffer(Step(buffer, keys[0]).buffer, keys[1..][..j - 1])
  {
    forall j | 1 <= j <= |keys|
      ensures FinalBuffer(buffer, keys[..j]) == FinalBuffer(Step(buffer, keys[0]).buffer, keys[1..][..j - 1])
    {
      assert keys[..j][0] == keys[0];
      assert keys[..j][1..] == keys[1..][..j - 1];
    }
  }

  /** Feeds `keys` one by one, starting from `buffer`; one activation flag per key. */
  function Presses(buffer: seq<KeyCode>, keys: seq<KeyCode>): (flags: seq<bool>)
    ensures |flags| == |keys|
    decreases |keys|
  {
    if keys == [] then []
    else
      var r := Step(buffer, keys[0]);
      [r.activated] + Presses(r.buffer, keys[1..])
  }

  /**
   * What each flag means: the `j`-th is the one the handler gives the
   * `j`-th key on the buffer the earlier keys left.
   */
  lemma {:induction false} PressesFlags(buffer: seq<KeyCode>, keys: seq<KeyCode>)
    ensures forall j :: 0 <= j < |keys| ==>
              Presses(buffer, keys)[j] == Step(FinalBuffer(buffer, keys[..j]), keys[j]).activated
    decreases |keys|
  {
    if keys != [] {
      var r := Step(buffer, keys[0]);
      PressesFlags(r.buffer, keys[1..]);
      FinalBufferOfPrefixes(buffer, keys);
      assert keys[..0] == [];
      forall j | 1 <= j < |keys|
        ensures Presses(buffer, keys)[j] == Step(FinalBuffer(buffer, keys[..j]), keys[j]).activated
      {
        assert keys[j] == keys[1..][j - 1];
      }
    }
  }

  /** The activation test is exactly equality with the Konami sequence. */
  lemma ActivatesIffKonami(buffer: seq<KeyCode>)
    ensures Activates(buffer) <==> buffer == KonamiSequence
  {
    if |buffer| == |KonamiSequence| && EveryMatches(buffer, 0) {
      assert forall j :: 0 <= j < |buffer| ==> buffer[j] == KonamiSequence[j];
    }
  }

  /**
   * If the buffer is the window of the last ten codes of `h`, one press of
   * `code` either fires, exactly when the window of `h + [code]` is the
   * Konami sequence, and empties the buffer, or leaves the window of
   * `h + [code]`.
   */
  lemma StepWindow(h: seq<KeyCode>, code: KeyCode)
    ensures Step(LastN(h, |KonamiSequence|), code).activated
            <==> LastN(h + [code], |KonamiSequence|) == KonamiSequence
    ensures Step(LastN(h, |KonamiSequence|), code).buffer
              == if Step(LastN(h, |KonamiSequence|), code).activated then []
                 else LastN(h + [code], |KonamiSequence|)
  {
    var n := |KonamiSequence|;
    var pushed := LastN(h, n) + [code];
    var trimmed := if |pushed| > n then pushed[1..] else pushed;
    var h' := h + [code];
    if |h| < n {
      assert trimmed == h';
    } else {
      assert trimmed == h'[|h'| - n..];
    }
    assert trimmed == LastN(h', n);
    ActivatesIffKonami(trimmed);
  }

  /** A buffer of at most ten codes stays at most ten codes long. */
  lemma StepBounded(buffer: seq<KeyCode>, code: KeyCode)
    requires |buffer| <= |KonamiSequence|
    ensures |Step(buffer, code).buffer| <= |KonamiSequence|
  {
  }

  /**
   * Feeding fewer than ten keys into a buffer that has room for all of them
   * without reaching ten entries never fires: after an activation (which
   * empties the buffer) the next one needs ten fresh presses.
   */
  lemma {:induction false} ShortRunNeverFires(buffer: seq<KeyCode>, keys: seq<KeyCode>)
    requires |buffer| + |keys| < |KonamiSequence|
    ensures |Presses(buffer, keys)| == |keys|
    ensures forall j :: 0 <= j < |keys| ==> !Presses(buffer, keys)[j]
    ensures FinalBuffer(buffer, keys) == buffer + keys
    decreases |keys|
  {
    if keys != [] {
      var r := Step(buffer, keys[0]);
      assert !r.activated && r.buffer == buffer + [keys[0]];
      ShortRunNeverFires(r.buffer, keys[1..]);
      assert buffer + [keys[0]] + keys[1..] == buffer + keys;
    }
  }

  /**
   * Over a run of presses none of which fires, the buffer ends as the last
   * (at most ten) codes of everything received, in arrival order.
   */
  lemma {:induction false} QuietRunKeepsWindow(h: seq<KeyCode>, keys: seq<KeyCode>)
    requires forall j :: 0 <= j < |keys| ==> !Presses(LastN(h, |KonamiSequence|), keys)[j]
    ensures FinalBuffer(LastN(h, |KonamiSequence|), keys) == LastN(h + keys, |KonamiSequence|)
    decreases |keys|
  {
    var n := |KonamiSequence|;
    if keys == [] {
      assert h + keys == h;
    } else {
      var r := Step(LastN(h, n), keys[0]);
      assert Presses(LastN(h, n), keys)[0] == r.activated;
      assert !r.activated;
      StepWindow(h, keys[0]);
      var h' := h + [keys[0]];
      assert r.buffer == LastN(h', n);
      forall j | 0 <= j < |keys[1..]|
        ensures !Presses(LastN(h', n), keys[1..])[j]
      {
        assert Presses(LastN(h, n), keys)[j + 1] == Presses(LastN(h', n), keys[1..])[j];
      }
      QuietRunKeepsWindow(h', keys[1..]);
      assert h' + keys[1..] == h + keys;
    }
  }

  /** Only "KeyA" ends the sequence; no proper prefix ends with it. */
  lemma OnlyLastIsKeyA(j: nat)
    requires j < |KonamiSequence| - 1
    ensures KonamiSequence[j] != KonamiSequence[|KonamiSequence| - 1]
  {
  }

  /**
   * Feeding keys whose last entry is not "KeyA" never fires on that last
   * key, because the window then ends in something other than "KeyA".
   */
  lemma NotKeyANeverFires(buffer: seq<KeyCode>, code: KeyCode)
    requires code != KonamiSequence[|KonamiSequence| - 1]
    ensures !Step(buffer, code).activated
  {
    var pushed := buffer + [code];
    var trimmed := if |pushed| > |KonamiSequence| then pushed[1..] else pushed;
    assert trimmed[|trimmed| - 1] == code;
    ActivatesIffKonami(trimmed);
  }

  /**
   * Typing the whole Konami sequence fires on its tenth key and on no
   * earlier one, whatever the buffer held before (as long as it is a
   * window of at most ten codes, which the listener keeps).
   */
  lemma KonamiFiresOnTenthKey(h: seq<KeyCode>)
    ensures |Presses(LastN(h, |KonamiSequence|), KonamiSequence)| == |KonamiSequence|
    ensures forall j :: 0 <= j < |KonamiSequence| ==>
              Presses(LastN(h, |KonamiSequence|), KonamiSequence)[j] == (j == |KonamiSequence| - 1)
  {
    assert h + KonamiSequence[..0] == h;
    assert KonamiSequence[0..] == KonamiSequence;
    FiresOnTenthFrom(h, 0);
  }

  /** The tenth key of the sequence, typed after the first nine, fires. */
  lemma LastKeyFires(h: seq<KeyCode>)
    ensures Step(LastN(h + KonamiSequence[..|KonamiSequence| - 1], |KonamiSequence|),
                 KonamiSequence[|KonamiSequence| - 1]).activated
  {
    var n := |KonamiSequence|;
    var g := h + KonamiSequence[..n - 1];
    var g' := g + [KonamiSequence[n - 1]];
    assert g' == h + KonamiSequence;
    assert g'[|g'| - n..] == KonamiSequence;
    StepWindow(g, KonamiSequence[n - 1]);
  }

  /** Any earlier key of the sequence, typed after the ones before it, does not fire. */
  lemma EarlierKeyDoesNotFire(h: seq<KeyCode>, k: nat)
    requires k < |KonamiSequence| - 1
    ensures Step(LastN(h + KonamiSequence[..k], |KonamiSequence|), KonamiSequence[k])
              == KeyResult(LastN(h + KonamiSequence[..k + 1], |KonamiSequence|), false)
  {
    var n := |KonamiSequence|;
    var g := h + KonamiSequence[..k];
    OnlyLastIsKeyA(k);
    NotKeyANeverFires(LastN(g, n), KonamiSequence[k]);
    StepWindow(g, KonamiSequence[k]);
    assert g + [KonamiSequence[k]] == h + KonamiSequence[..k + 1];
  }

  /** Induction step for `KonamiFiresOnTenthKey`: the suffix from position `k` on. */
  lemma {:induction false} FiresOnTenthFrom(h: seq<KeyCode>, k: nat)
    requires k <= |KonamiSequence|
    ensures |Presses(LastN(h + KonamiSequence[..k], |KonamiSequence|), KonamiSequence[k..])|
              == |KonamiSequence| - k
    ensures forall j :: 0 <= j < |KonamiSequence| - k ==>
              Presses(LastN(h + KonamiSequence[..k], |KonamiSequence|), KonamiSequence[k..])[j]
                == (k + j == |KonamiSequence| - 1)
    decreases |KonamiSequence| - k
  {
    var n := |KonamiSequence|;
    if k < n {
      var buffer := LastN(h + KonamiSequence[..k], n);
      var keys := KonamiSequence[k..];
      var r := Step(buffer, keys[0]);
      assert keys[1..] == KonamiSequence[k + 1..];
      var rest := Presses(r.buffer, keys[1..]);
      assert Presses(buffer, keys) == [r.activated] + rest;
      if k < n - 1 {
        EarlierKeyDoesNotFire(h, k);
        FiresOnTenthFrom(h, k + 1);
        assert !r.activated;
        assert |rest| == n - k - 1;
        forall j | 0 < j < n - k
          ensures Presses(buffer, keys)[j] == (k + j == n - 1)
        {
          assert Presses(buffer, keys)[j] == rest[j - 1];
        }
      } else {
        LastKeyFires(h);
        assert r.activated && rest == [];
      }
    }
  }

  /**
   * The state the listener closes over: the `konamiCode` buffer. The ghost
   * field `sinceReset` records every code received since the buffer was
   * last emptied, so the buffer can be stated as a window of it.
   */
  class KonamiListener {
    var konamiCode: seq<KeyCode>
    ghost var sinceReset: seq<KeyCode>

    /** The buffer is the last (at most ten) codes received since the last reset. */
    ghost predicate Valid()
      reads this
    {
      konamiCode == LastN(sinceReset, |KonamiSequence|)
    }

    /** `let konamiCode = [];` */
    constructor ()
      ensures Valid()
      ensures konamiCode == [] && sinceReset == []
    {
      konamiCode := [];
      sinceReset := [];
    }

    /**
     * The `keydown` handler. `activated` stands for the easter egg being
     * shown (the hue filter and the overlay message).
     */
    method KeyDown(code: KeyCode) returns (activated: bool)
      requires Valid()
      modifies this
      ensures Valid()
      ensures KeyResult(konamiCode, activated) == Step(old(konamiCode), code)
      ensures |konamiCode| <= |KonamiSequence|
      ensures activated <==> LastN(old(sinceReset) + [code], |KonamiSequence|) == KonamiSequence
      ensures activated ==> konamiCode == [] && sinceReset == []
      ensures !activated ==> sinceReset == old(sinceReset) + [code]
    {
      StepWindow(sinceReset, code);
      konamiCode := konamiCode + [code];
      if |konamiCode| > |KonamiSequence| {
        konamiCode := konamiCode[1..];
      }
      activated := |konamiCode| == |KonamiSequence| && EveryMatches(konamiCode, 0);
      if activated {
        konamiCode := [];
        sinceReset := [];
      } else {
        sinceReset := sinceReset + [code];
      }
    }
  }
}
