/**
  The content sanitizer `stripHtml`, which deletes every match of the pattern
  `<\/?[^>]+(>|$)` from its input. `StripTags` is a left-to-right scanner that
  deletes whole tags; `ReplaceAll` follows the regular expression literally,
  backtracking included, and `StripAgreesWithPattern` shows the two agree.
*/
module Sanitizer {
  import opened Wrappers
  import opened Json

  // ---------------------------------------------------------------------------
  // The scanner
  // ---------------------------------------------------------------------------

  /**
    A tag starts here: `<` followed by a character other than `>`.
    A `<` that ends the text, and the pair `<>`, do not start a tag.
  */
  predicate StartsTag(s: string) {
    |s| >= 2 && s[0] == '<' && s[1] != '>'
  }

  /** Index just past the first `>` at or after `j`; the end of the text when there is none. */
  function TagEnd(s: string, j: nat): (e: nat)
    requires j <= |s|
    ensures j <= e <= |s|
    decreases |s| - j
  {
    if j == |s| then |s|
    else if s[j] == '>' then j + 1
    else TagEnd(s, j + 1)
  }

  /** Length of the tag at the head of `s`: through the next `>`, or to the end of the text. */
  function TagLength(s: string): (n: nat)
    requires StartsTag(s)
    ensures 2 <= n <= |s|
  {
    TagEnd(s, 1)
  }

  /** The text with every tag deleted, scanning from the left. */
  function StripTags(s: string): (r: string)
    ensures |r| <= |s|
    decreases |s|
  {
    if s == [] then []
    else if StartsTag(s) then StripTags(s[TagLength(s)..])
    else [s[0]] + StripTags(s[1..])
  }

  /**
    `stripHtml(html)`: "" for a falsy input, the stripped text for a string; any
    other truthy value has no `replace` method, so the call throws (`Err`).
  */
  function StripHtml(html: Option<Value>): (r: Result<string>)
    ensures !Truthy(html) ==> r == Ok("")
    ensures r.Err? <==> Truthy(html) && !html.value.Str?
    ensures r.Ok? && Truthy(html) ==> html.value.Str? && |r.value| <= |html.value.s|
  {
    if !Truthy(html) then Ok("")
    else if html.value.Str? then Ok(StripTags(html.value.s))
    else Err
  }

  // ---------------------------------------------------------------------------
  // The pattern, followed literally
  // ---------------------------------------------------------------------------

  /** Index just past the longest run of characters other than `>` starting at `j`. */
  function RunEnd(s: string, j: nat): (k: nat)
    requires j <= |s|
    ensures j <= k <= |s|
    ensures k == |s| || s[k] == '>'
    ensures forall m :: j <= m < k ==> s[m] != '>'
    decreases |s| - j
  {
    if j == |s| || s[j] == '>' then j else RunEnd(s, j + 1)
  }

  /**
    `[^>]+(>|$)` at `j` with the `+` first taking the characters up to `k`, then
    backing off one at a time; the result is the end of the match.
  */
  function TryBody(s: string, j: nat, k: nat): (e: Option<nat>)
    requires j <= k <= |s|
    ensures e.Some? ==> j < e.value <= |s|
    decreases k - j
  {
    if k == j then None
    else if k < |s| && s[k] == '>' then Some(k + 1)
    else if k == |s| then Some(|s|)
    else TryBody(s, j, k - 1)
  }

  /**
    End of the match of `<\/?[^>]+(>|$)` at the start of `s`, trying the optional
    `/` first when there is one. The pattern has no start anchor and its `$` is the
    end of the whole text, so trying it at a position is trying it here on the suffix.
  */
  function MatchAtStart(s: string): (e: Option<nat>)
    ensures e.Some? ==> 0 < e.value <= |s|
  {
    if |s| > 0 && s[0] == '<' then
      var slashed :=
        if 1 < |s| && s[1] == '/' then TryBody(s, 2, RunEnd(s, 2))
        else None;
      if slashed.Some? then slashed else TryBody(s, 1, RunEnd(s, 1))
    else None
  }

  /**
    `s.replace(/<\/?[^>]+(>|$)/g, "")`: where a match starts it is deleted and the
    search resumes after it; elsewhere one character is kept and the search moves on.
  */
  function ReplaceAll(s: string): string
    decreases |s|
  {
    if s == [] then []
    else match MatchAtStart(s)
      case Some(e) => ReplaceAll(s[e..])
      case None => [s[0]] + ReplaceAll(s[1..])
  }

  lemma {:induction false} TagEndIsRunEnd(s: string, j: nat)
    requires j <= |s|
    ensures TagEnd(s, j) == if RunEnd(s, j) == |s| then |s| else RunEnd(s, j) + 1
    decreases |s| - j
  {
    if j < |s| && s[j] != '>' {
      TagEndIsRunEnd(s, j + 1);
    }
  }

  /** The greedy body over a non-empty run ends where the scanner's tag ends. */
  lemma TryBodyIsTagEnd(s: string, j: nat)
    requires j <= |s|
    ensures TryBody(s, j, RunEnd(s, j)) == if RunEnd(s, j) > j then Some(TagEnd(s, j)) else None
  {
    TagEndIsRunEnd(s, j);
  }

  /**
    The pattern matches exactly where the scanner sees a tag, and over the same
    characters: the optional `/` never changes where a match ends.
  */
  lemma MatchAtStartIsTag(s: string)
    ensures MatchAtStart(s) == if StartsTag(s) then Some(TagLength(s)) else None
  {
    if 1 < |s| && s[0] == '<' {
      TryBodyIsTagEnd(s, 1);
      if s[1] == '/' {
        TryBodyIsTagEnd(s, 2);
      }
    }
  }

  /** The scanner computes exactly what the global regular-expression replacement computes. */
  lemma {:induction false} StripAgreesWithPattern(s: string)
    ensures StripTags(s) == ReplaceAll(s)
    decreases |s|
  {
    if s != [] {
      MatchAtStartIsTag(s);
      if StartsTag(s) {
        StripAgreesWithPattern(s[TagLength(s)..]);
      } else {
        StripAgreesWithPattern(s[1..]);
      }
    }
  }

  // ---------------------------------------------------------------------------
  // Properties of the scanner
  // ---------------------------------------------------------------------------

  /** `a` can be obtained from `b` by deleting characters (greedy check). */
  predicate IsSubsequence(a: string, b: string)
    decreases |b|
  {
    if a == [] then true
    else if b == [] then false
    else if a[0] == b[0] then IsSubsequence(a[1..], b[1..])
    else IsSubsequence(a, b[1..])
  }

  lemma {:induction false} SubsequenceDropHead(a: string, b: string)
    requires a != [] && IsSubsequence(a, b)
    ensures IsSubsequence(a[1..], b)
    decreases |a| + |b|, 1
  {
    if a[0] == b[0] {
      if a[1..] != [] {
        SubsequenceExtend(a[1..], b);
      }
    } else {
      SubsequenceDropHead(a, b[1..]);
      if a[1..] != [] {
        SubsequenceExtend(a[1..], b);
      }
    }
  }

  /** A subsequence of the tail of `b` is a subsequence of `b`. */
  lemma {:induction false} SubsequenceExtend(a: string, b: string)
    requires b != [] && IsSubsequence(a, b[1..])
    ensures IsSubsequence(a, b)
    decreases |a| + |b|, 0
  {
    if a != [] && a[0] == b[0] {
      SubsequenceDropHead(a, b[1..]);
    }
  }

  lemma {:induction false} SubsequenceOfSuffix(a: string, b: string, k: nat)
    requires k <= |b| && IsSubsequence(a, b[k..])
    ensures IsSubsequence(a, b)
    decreases k
  {
    if k > 0 {
      assert b[k - 1..][1..] == b[k..];
      SubsequenceExtend(a, b[k - 1..]);
      SubsequenceOfSuffix(a, b, k - 1);
    }
  }

  /** Cutting a subsequence short keeps it a subsequence. */
  lemma {:induction false} PrefixOfSubsequence(a: string, b: string, n: nat)
    requires n <= |a| && IsSubsequence(a, b)
    ensures IsSubsequence(a[..n], b)
    decreases |b|
  {
    if n > 0 {
      if a[0] == b[0] {
        assert a[..n][1..] == a[1..][..n - 1];
        PrefixOfSubsequence(a[1..], b[1..], n - 1);
      } else {
        PrefixOfSubsequence(a, b[1..], n);
      }
    }
  }

  /** The scanner only deletes characters: its output is a subsequence of its input. */
  lemma {:induction false} StripIsSubsequence(s: string)
    ensures IsSubsequence(StripTags(s), s)
    decreases |s|
  {
    if s != [] {
      if StartsTag(s) {
        var n := TagLength(s);
        StripIsSubsequence(s[n..]);
        SubsequenceOfSuffix(StripTags(s), s, n);
      } else {
        StripIsSubsequence(s[1..]);
        assert ([s[0]] + StripTags(s[1..]))[1..] == StripTags(s[1..]);
      }
    }
  }

  /** No tag starts anywhere: every `<` is the last character or is followed by `>`. */
  predicate TagFree(t: string) {
    forall i :: 0 <= i < |t| - 1 && t[i] == '<' ==> t[i + 1] == '>'
  }

  /** A text that does not start with `<` keeps its first character. */
  lemma KeepsHead(s: string)
    requires s != [] && s[0] != '<'
    ensures StripTags(s) != [] && StripTags(s)[0] == s[0]
  {
  }

  /** What the scanner leaves contains no tag. */
  lemma {:induction false} StripIsTagFree(s: string)
    ensures TagFree(StripTags(s))
    decreases |s|
  {
    if s != [] {
      if StartsTag(s) {
        StripIsTagFree(s[TagLength(s)..]);
      } else {
        var rest := StripTags(s[1..]);
        StripIsTagFree(s[1..]);
        var r := [s[0]] + rest;
        if s[0] == '<' && |s| >= 2 {
          KeepsHead(s[1..]);
        }
        forall i | 0 <= i < |r| - 1 && r[i] == '<'
          ensures r[i + 1] == '>'
        {
          if i > 0 {
            assert rest[i - 1] == r[i];
          }
        }
      }
    }
  }

  /** A tag-free text is left as it is. */
  lemma {:induction false} TagFreeIsFixed(t: string)
    requires TagFree(t)
    ensures StripTags(t) == t
    decreases |t|
  {
    if t != [] {
      assert !StartsTag(t);
      var u := t[1..];
      forall i | 0 <= i < |u| - 1 && u[i] == '<'
        ensures u[i + 1] == '>'
      {
        assert t[i + 1] == '<';
      }
      TagFreeIsFixed(u);
    }
  }

  /** The fixed points of the scanner are exactly the tag-free texts. */
  lemma {:induction false} FixedIffTagFree(t: string)
    ensures StripTags(t) == t <==> TagFree(t)
  {
    StripIsTagFree(t);
    if TagFree(t) {
      TagFreeIsFixed(t);
    }
  }

  /** Stripping twice is stripping once. */
  lemma {:induction false} StripIdempotent(s: string)
    ensures StripTags(StripTags(s)) == StripTags(s)
  {
    StripIsTagFree(s);
    TagFreeIsFixed(StripTags(s));
  }

  /** Any prefix of a tag-free text is tag-free. */
  lemma {:induction false} PrefixTagFree(t: string, n: nat)
    requires n <= |t| && TagFree(t)
    ensures TagFree(t[..n])
  {
    forall i | 0 <= i < n - 1 && t[..n][i] == '<'
      ensures t[..n][i + 1] == '>'
    {
      assert t[i] == '<';
    }
  }

  /** Text without `<` passes through the scanner unchanged, whatever follows it. */
  lemma {:induction false} PlainPrefixKept(a: string, b: string)
    requires '<' !in a
    ensures StripTags(a + b) == a + StripTags(b)
    decreases |a|
  {
    if a != [] {
      assert !StartsTag(a + b);
      assert (a + b)[1..] == a[1..] + b;
      assert StripTags(a + b) == [a[0]] + StripTags(a[1..] + b);
      assert '<' !in a[1..] by {
        forall i | 0 <= i < |a[1..]| ensures a[1..][i] != '<' { assert a[1..][i] == a[i + 1]; }
      }
      PlainPrefixKept(a[1..], b);
      assert a == [a[0]] + a[1..];
    } else {
      assert a + b == b;
    }
  }

  /** A text with no `<` in it is returned unchanged. */
  lemma {:induction false} PlainTextUnchanged(s: string)
    requires '<' !in s
    ensures StripTags(s) == s
  {
    PlainPrefixKept(s, []);
    assert s + [] == s;
  }

  /** A closed tag `<...>` with no `>` inside is deleted, whatever follows it. */
  lemma ClosedTagDeleted(tag: string, b: string)
    requires |tag| >= 3 && tag[0] == '<' && tag[1] != '>' && tag[|tag| - 1] == '>'
    requires '>' !in tag[1..|tag| - 1]
    ensures StripTags(tag + b) == StripTags(b)
  {
    var s := tag + b;
    forall m | 1 <= m < |tag| - 1
      ensures s[m] != '>'
    {
      assert s[m] == tag[1..|tag| - 1][m - 1];
    }
    TagEndAtClose(s, 1, |tag| - 1);
    assert s[|tag|..] == b;
  }

  lemma {:induction false} TagEndAtClose(s: string, j: nat, c: nat)
    requires j <= c < |s| && s[c] == '>'
    requires forall m :: j <= m < c ==> s[m] != '>'
    ensures TagEnd(s, j) == c + 1
    decreases c - j
  {
    if j < c {
      TagEndAtClose(s, j + 1, c);
    }
  }

  /**
    `<p>Hello <b>World</b></p>` becomes `Hello World`. The text is written as its tags and words joined together.
  */
  lemma StripExample()
    ensures StripTags("<p>" + ("Hello " + ("<b>" + ("World" + ("</b>" + "</p>")))))
            == "Hello " + "World"
  {
    var closing := "</b>" + "</p>";
    assert StripTags(closing) == [] by {
      ClosedTagDeleted("</p>", []);
      assert "</p>" + [] == "</p>";
      ClosedTagDeleted("</b>", "</p>");
    }
    var bold := "<b>" + ("World" + closing);
    assert StripTags(bold) == "World" by {
      ClosedTagDeleted("<b>", "World" + closing);
      PlainPrefixKept("World", closing);
      assert "World" + [] == "World";
    }
    var body := "Hello " + bold;
    assert StripTags(body) == "Hello " + "World" by {
      PlainPrefixKept("Hello ", bold);
    }
    ClosedTagDeleted("<p>", body);
  }
}
