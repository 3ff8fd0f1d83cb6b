/**
 * `html.replace(/<[^>]+>/g, '')`: the tag stripping every list tab applies
 * to rich-text fields. A tag is a `<`, one or more characters other than `>`,
 * then `>`; the global replace scans left to right and resumes after each match.
 */
module Html {
  import JsStrings

  /** The regex matches at index `i`: `<`, a non-`>` character, and a later `>`. */
  predicate TagAt(s: string, i: nat) {
    && i + 1 < |s|
    && s[i] == '<'
    && s[i + 1] != '>'
    && '>' in s[i + 2..]
  }

  /** No match of the tag pattern anywhere in `s`. */
  predicate TagFree(s: string) {
    forall i: nat :: i < |s| ==> !TagAt(s, i)
  }

  /** Index of the first `>` at or after `from`, or |s| if there is none. */
  function CloseFrom(s: string, from: nat): (k: nat)
    requires from <= |s|
    ensures from <= k <= |s|
    ensures k < |s| ==> s[k] == '>'
    ensures forall j :: from <= j < k ==> s[j] != '>'
    decreases |s| - from
  {
    if from == |s| || s[from] == '>' then from else CloseFrom(s, from + 1)
  }

  /** The global replace, one match or one kept character at a time. */
  function StripTags(s: string): string
    decreases |s|
  {
    if s == [] then []
    else if TagAt(s, 0) then
      var close := CloseFrom(s, 2);
      StripTags(s[close + 1..])
    else [s[0]] + StripTags(s[1..])
  }

  /** The variant of Projects, Documents and Transmittals: strip, then `trim()`. */
  function StripTagsTrim(s: string): string {
    JsStrings.Trim(StripTags(s))
  }

  /** Stripping never introduces a character: every kept one comes from the input. */
  lemma {:induction false} StripTagsChars(s: string)
    ensures |StripTags(s)| <= |s|
    ensures forall c :: c in StripTags(s) ==> c in s
    decreases |s|
  {
    if s == [] {
    } else if TagAt(s, 0) {
      var close := CloseFrom(s, 2);
      assert '>' in s[2..];
      StripTagsChars(s[close + 1..]);
    } else {
      StripTagsChars(s[1..]);
    }
  }

  /** A string that does not start with `<` keeps its first character. */
  lemma StripTagsHead(s: string)
    requires s != [] && s[0] != '<'
    ensures StripTags(s) != [] && StripTags(s)[0] == s[0]
  {
  }

  /**
   * One tag is removed and the text around it survives in order: text before
   * the first `<` is kept as it is, the tag goes, and the rest is stripped.
   */
  lemma {:induction false} StripTagsDropsTag(x: string, t: string, y: string)
    requires '<' !in x && t != [] && '>' !in t
    ensures StripTags(x + "<" + t + ">" + y) == x + StripTags(y)
    decreases |x|
  {
    var s := x + "<" + t + ">" + y;
    if x == [] {
      assert s == "<" + t + ">" + y;
      assert s[|t| + 1] == '>';
      assert '>' in s[2..] by { assert s[2..][|t| - 1] == '>'; }
      assert TagAt(s, 0);
      var close := CloseFrom(s, 2);
      assert forall j :: 2 <= j < |t| + 1 ==> s[j] == t[j - 1];
      assert s[close + 1..] == y;
    } else {
      assert s[0] == x[0] && !TagAt(s, 0);
      assert s[1..] == x[1..] + "<" + t + ">" + y;
      StripTagsDropsTag(x[1..], t, y);
      assert x == [x[0]] + x[1..];
    }
  }

  /** A string without any tag is left unchanged. */
  lemma {:induction false} StripTagsOfTagFree(s: string)
    requires TagFree(s)
    ensures StripTags(s) == s
    decreases |s|
  {
    if s != [] {
      assert !TagAt(s, 0);
      forall i: nat | i < |s[1..]|
        ensures !TagAt(s[1..], i)
      {
        assert !TagAt(s, i + 1);
        if i + 1 < |s[1..]| {
          assert s[1..][i + 2..] == s[i + 3..];
        }
      }
      StripTagsOfTagFree(s[1..]);
    }
  }

  /** After stripping, no tag is left: the regex has nothing more to match. */
  lemma {:induction false} StripTagsIsTagFree(s: string)
    ensures TagFree(StripTags(s))
    decreases |s|
  {
    if s == [] {
    } else if TagAt(s, 0) {
      var close := CloseFrom(s, 2);
      assert '>' in s[2..];
      StripTagsIsTagFree(s[close + 1..]);
    } else {
      var rest := StripTags(s[1..]);
      StripTagsIsTagFree(s[1..]);
      var r := [s[0]] + rest;
      forall i: nat | i < |r|
        ensures !TagAt(r, i)
      {
        if i == 0 {
          if s[0] == '<' && |s| > 1 && |rest| > 0 {
            if s[1] == '>' {
              StripTagsHead(s[1..]);
            } else {
              // No `>` after index 1 in `s`, so none in what is kept of s[1..].
              assert '>' !in s[2..];
              assert '>' !in s[1..];
              StripTagsChars(s[1..]);
              assert '>' !in rest;
              assert r[2..] == rest[1..];
            }
          }
        } else {
          assert !TagAt(rest, i - 1);
          if i + 1 < |r| {
            assert r[i + 2..] == rest[i + 1..];
          }
        }
      }
    }
  }

  /** The facts the tabs' `stripHtml` variants state, in one place. */
  lemma StripTagsFacts(s: string)
    ensures TagFree(StripTags(s)) && |StripTags(s)| <= |s|
    ensures TagFree(s) ==> StripTags(s) == s
  {
    StripTagsIsTagFree(s);
    StripTagsChars(s);
    if TagFree(s) { StripTagsOfTagFree(s); }
  }

  /** Stripping twice is stripping once. */
  lemma StripTagsIdempotent(s: string)
    ensures StripTags(StripTags(s)) == StripTags(s)
  {
    StripTagsIsTagFree(s);
    StripTagsOfTagFree(StripTags(s));
  }

  /** Cutting characters off either end of a tag-free string leaves it tag-free. */
  lemma InfixTagFree(s: string, k: nat, t: string)
    requires TagFree(s) && k + |t| <= |s| && t == s[k..k + |t|]
    ensures TagFree(t)
  {
    forall i: nat | i < |t|
      ensures !TagAt(t, i)
    {
      if TagAt(t, i) {
        var j :| i + 2 <= j < |t| && t[j] == '>';
        assert s[k + j] == '>';
        assert TagAt(s, k + i);
      }
    }
  }

  /** What the strip-and-trim variant yields: no tag, no surrounding whitespace, and clean text kept. */
  lemma StripTagsTrimFacts(s: string)
    ensures TagFree(StripTagsTrim(s))
    ensures |StripTagsTrim(s)| <= |s|
    ensures StripTagsTrim(s) == [] || (!JsStrings.IsWhitespace(StripTagsTrim(s)[0])
      && !JsStrings.IsWhitespace(StripTagsTrim(s)[|StripTagsTrim(s)| - 1]))
  {
    StripTagsTrimTagFree(s);
    StripTagsChars(s);
  }

  lemma StripTagsTrimTagFree(s: string)
    ensures TagFree(StripTagsTrim(s))
  {
    var stripped := StripTags(s);
    StripTagsIsTagFree(s);
    var k := JsStrings.TrimIsInfix(stripped);
    InfixTagFree(stripped, k, JsStrings.Trim(stripped));
  }

  /** A trimmed string without tags passes the strip-and-trim variant unchanged. */
  lemma StripTagsTrimOfClean(s: string)
    requires TagFree(s) && JsStrings.Trim(s) == s
    ensures StripTagsTrim(s) == s
  {
    StripTagsOfTagFree(s);
  }
}
