/**
  SQLite's default `LIKE` operator, which `search_by_tag` uses with the
  pattern `'%' + tag + '%'`: `%` matches any run of characters, `_` matches
  exactly one, and every other character matches itself ignoring the case of
  the 26 ASCII letters. No ESCAPE clause is given, so `%` and `_` inside the
  searched tag act as wildcards too.
*/
module SqlLike {

  /** The case folding of SQLite's built-in LIKE: ASCII upper case to lower case only. */
  function Fold(c: char): char {
    if 'A' <= c <= 'Z' then (c as int + 32) as char else c
  }

  /** Does text `s` match LIKE pattern `p`? */
  predicate Like(s: string, p: string)
    decreases |s| + |p|
  {
    if |p| == 0 then |s| == 0
    else if p[0] == '%' then Like(s, p[1..]) || (|s| > 0 && Like(s[1..], p))
    else |s| > 0 && (p[0] == '_' || Fold(s[0]) == Fold(p[0])) && Like(s[1..], p[1..])
  }

  /** The pattern `search_by_tag` builds around its argument. */
  function Contains(t: string): string {
    "%" + t + "%"
  }

  /** `t` holds no LIKE wildcard, so the pattern around it means plain text. */
  predicate NoWildcards(t: string) {
    forall k :: 0 <= k < |t| ==> t[k] != '%' && t[k] != '_'
  }

  /** `s` begins with `t`, up to ASCII case. */
  predicate FoldedPrefix(s: string, t: string) {
    |t| <= |s| && forall k :: 0 <= k < |t| ==> Fold(s[k]) == Fold(t[k])
  }

  /** `t` occurs somewhere in `s`, up to ASCII case. */
  predicate FoldedInfix(s: string, t: string) {
    exists i :: 0 <= i <= |s| && FoldedPrefix(s[i..], t)
  }

  /** `t` occurs somewhere in `s`, character for character. */
  predicate Infix(s: string, t: string) {
    exists i :: 0 <= i <= |s| && StartsWith(s[i..], t)
  }

  /** `s` begins with `t`, character for character. */
  predicate StartsWith(s: string, t: string) {
    |t| <= |s| && s[..|t|] == t
  }

  /** A lone `%` matches every text. */
  lemma {:induction false} PercentMatchesAll(s: string)
    ensures Like(s, "%")
    decreases |s|
  {
    if |s| > 0 {
      PercentMatchesAll(s[1..]);
    }
  }

  /** A pattern `t%` without wildcards in `t` is a case-folded prefix test. */
  lemma {:induction false} PrefixPattern(s: string, t: string)
    requires NoWildcards(t)
    ensures Like(s, t + "%") <==> FoldedPrefix(s, t)
    decreases |t|
  {
    if |t| == 0 {
      assert t + "%" == "%";
      PercentMatchesAll(s);
    } else {
      var p := t + "%";
      assert p[0] == t[0] && p[1..] == t[1..] + "%";
      assert NoWildcards(t[1..]) by {
        forall k | 0 <= k < |t[1..]| ensures t[1..][k] != '%' && t[1..][k] != '_' {
          assert t[1..][k] == t[k + 1];
        }
      }
      if |s| > 0 {
        PrefixPattern(s[1..], t[1..]);
        if FoldedPrefix(s, t) {
          assert Fold(s[0]) == Fold(t[0]);
          forall k | 0 <= k < |t[1..]| ensures Fold(s[1..][k]) == Fold(t[1..][k]) {
            assert s[1..][k] == s[k + 1] && t[1..][k] == t[k + 1];
          }
        }
        if Like(s, p) {
          assert FoldedPrefix(s[1..], t[1..]);
          forall k | 0 <= k < |t| ensures Fold(s[k]) == Fold(t[k]) {
            if k > 0 {
              assert s[1..][k - 1] == s[k] && t[1..][k - 1] == t[k];
            }
          }
        }
      }
    }
  }

  /** A leading `%` tries the rest of the pattern against every suffix. */
  lemma {:induction false} LeadingPercent(s: string, q: string)
    ensures Like(s, "%" + q) <==> exists i :: 0 <= i <= |s| && Like(s[i..], q)
    decreases |s|
  {
    var p := "%" + q;
    assert p[1..] == q;
    assert s[0..] == s;
    if |s| > 0 {
      LeadingPercent(s[1..], q);
      if Like(s[1..], p) {
        var i :| 0 <= i <= |s[1..]| && Like(s[1..][i..], q);
        assert s[1..][i..] == s[i + 1..];
      }
      if i :| 0 < i <= |s| && Like(s[i..], q) {
        assert s[1..][i - 1..] == s[i..];
      }
    }
  }

  /**
    For a wildcard-free argument, the pattern `search_by_tag` builds selects
    exactly the texts that contain the argument, ignoring ASCII case.
  */
  lemma ContainsIsFoldedInfix(s: string, t: string)
    requires NoWildcards(t)
    ensures Like(s, Contains(t)) <==> FoldedInfix(s, t)
  {
    assert Contains(t) == "%" + (t + "%");
    LeadingPercent(s, t + "%");
    forall i | 0 <= i <= |s| ensures Like(s[i..], t + "%") <==> FoldedPrefix(s[i..], t) {
      PrefixPattern(s[i..], t);
    }
  }

  /** Any pattern matches a text that starts with the pattern itself followed by `%`. */
  lemma {:induction false} PatternMatchesItself(t: string, u: string)
    ensures Like(t + u, t + "%")
    decreases |t|
  {
    var s := t + u;
    var p := t + "%";
    if |t| == 0 {
      assert s == u && p == "%";
      PercentMatchesAll(u);
    } else {
      assert p[0] == t[0] && p[1..] == t[1..] + "%";
      assert s[0] == t[0] && s[1..] == t[1..] + u;
      PatternMatchesItself(t[1..], u);
      if t[0] == '%' {
        // Let `%` consume the literal `%` and carry on with the same pattern.
        assert Like(s[1..], p[1..]);
        assert Like(s[1..], "%" + (t[1..] + "%")) by {
          assert "%" + (t[1..] + "%") == p[0..1] + p[1..];
          LeadingPercent(s[1..], t[1..] + "%");
          assert s[1..][0..] == s[1..];
        }
        assert "%" + (t[1..] + "%") == p;
      }
    }
  }

  /**
    Whatever the argument, a text containing it verbatim is selected by the
    pattern `search_by_tag` builds (wildcards only widen the match).
  */
  lemma InfixMatchesContains(s: string, t: string)
    requires Infix(s, t)
    ensures Like(s, Contains(t))
  {
    var i :| 0 <= i <= |s| && StartsWith(s[i..], t);
    assert s[i..] == t + s[i + |t|..];
    PatternMatchesItself(t, s[i + |t|..]);
    assert Contains(t) == "%" + (t + "%");
    LeadingPercent(s, t + "%");
  }
}
