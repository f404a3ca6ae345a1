/**
 * SQL `LIKE` pattern matching, enough of it to say what the search
 * pattern built by `buscarJuegos` matches: `%` matches any run of
 * characters, `_` any single character, every other character itself.
 */
module SqlLike {

  /** `s LIKE p`, character by character. */
  function Like(s: string, p: string): bool
    decreases |s| + |p|
  {
    if p == [] then s == []
    else if p[0] == '%' then Like(s, p[1..]) || (s != [] && Like(s[1..], p))
    else if p[0] == '_' then s != [] && Like(s[1..], p[1..])
    else s != [] && s[0] == p[0] && Like(s[1..], p[1..])
  }

  predicate Wildcard(c: char) { c == '%' || c == '_' }

  /** A text with no wildcard in it, which `LIKE` reads literally. */
  predicate Literal(t: string)
  {
    forall i :: 0 <= i < |t| ==> !Wildcard(t[i])
  }

  /** `t` occurs somewhere in `s`. */
  predicate Contains(s: string, t: string)
  {
    exists k :: 0 <= k <= |s| && t <= s[k..]
  }

  /** `%` alone matches everything. */
  lemma {:induction false} PercentMatchesAll(s: string)
    ensures Like(s, "%")
    decreases |s|
  {
    assert "%"[1..] == "";
    if s != [] {
      PercentMatchesAll(s[1..]);
    }
  }

  /** A literal followed by `%` matches exactly the texts that start with the literal. */
  lemma {:induction false} LiteralThenPercent(s: string, t: string)
    requires Literal(t)
    ensures Like(s, t + "%") <==> |t| <= |s| && s[..|t|] == t
    decreases |t|
  {
    if t == [] {
      assert t + "%" == "%";
      PercentMatchesAll(s);
    } else {
      var p := t + "%";
      assert p[0] == t[0] && !Wildcard(p[0]);
      assert p[1..] == t[1..] + "%";
      if s != [] {
        LiteralThenPercent(s[1..], t[1..]);
        if |t| <= |s| {
          assert s[..|t|] == [s[0]] + s[1..][..|t| - 1];
          assert t == [t[0]] + t[1..];
        }
      }
    }
  }

  /** A leading `%` lets the rest of the pattern match any suffix. */
  lemma {:induction false} LeadingPercent(s: string, q: string)
    ensures Like(s, "%" + q) <==> exists k :: 0 <= k <= |s| && Like(s[k..], q)
    decreases |s|
  {
    var p := "%" + q;
    assert p[1..] == q;
    if s == [] {
      assert s[0..] == s;
    } else {
      LeadingPercent(s[1..], q);
      assert s[0..] == s;
      if Like(s[1..], p) {
        var k :| 0 <= k <= |s[1..]| && Like(s[1..][k..], q);
        assert s[1..][k..] == s[k + 1..];
      }
      if k :| 0 < k <= |s| && Like(s[k..], q) {
        assert s[1..][k - 1..] == s[k..];
      }
    }
  }

  /**
   * For a literal term, `s LIKE '%term%'` holds exactly when the term
   * occurs in `s`.
   */
  lemma SurroundedLiteralMatchesSubstring(s: string, t: string)
    requires Literal(t)
    ensures Like(s, "%" + t + "%") <==> Contains(s, t)
  {
    assert "%" + t + "%" == "%" + (t + "%");
    LeadingPercent(s, t + "%");
    if Like(s, "%" + t + "%") {
      var k :| 0 <= k <= |s| && Like(s[k..], t + "%");
      LiteralThenPercent(s[k..], t);
    }
    if Contains(s, t) {
      var k :| 0 <= k <= |s| && t <= s[k..];
      LiteralThenPercent(s[k..], t);
    }
  }
}
