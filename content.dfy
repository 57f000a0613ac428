/**
 * `formatContent` (blog.js:137-139): the post body is turned into paragraph
 * markup by two regular-expression replacements, first every LF becomes a
 * paragraph break, then the whole string is wrapped in `<p>…</p>` if the
 * anchored, non-multiline pattern `^(.+)$` matches it.
 */
module Content {
  import opened Strings

  const ParagraphOpen: string := "<p>"
  const ParagraphClose: string := "</p>"
  const ParagraphBreak: string := "</p><p>"

  /** The characters that `.` in a JavaScript regular expression does not
      match: LF, CR, LINE SEPARATOR and PARAGRAPH SEPARATOR. */
  predicate IsLineTerminator(c: char)
  {
    c == '\n' || c == '\r' || c == '\U{2028}' || c == '\U{2029}'
  }

  /** A line terminator other than LF occurs in `s`. */
  predicate HasOtherTerminator(s: string)
  {
    '\r' in s || '\U{2028}' in s || '\U{2029}' in s
  }

  /** `s.replace(/\n/g, '</p><p>')`. */
  function ReplaceNewlines(s: string): string
  {
    if s == [] then []
    else (if s[0] == '\n' then ParagraphBreak else [s[0]]) + ReplaceNewlines(s[1..])
  }

  /** The replacement removes every LF, keeps each character that is not
      LF and not part of `</p><p>` exactly when the input has it (so each of
      CR, U+2028 and U+2029 separately), and gives the empty string only for
      the empty string. */
  lemma {:induction false} ReplaceNewlinesKeepsOthers(s: string)
    ensures '\n' !in ReplaceNewlines(s)
    ensures ReplaceNewlines(s) == [] <==> s == []
    ensures HasOtherTerminator(ReplaceNewlines(s)) <==> HasOtherTerminator(s)
    ensures forall c :: c != '\n' && c !in ParagraphBreak ==> (c in ReplaceNewlines(s) <==> c in s)
  {
    if s != [] {
      ReplaceNewlinesKeepsOthers(s[1..]);
      assert s == [s[0]] + s[1..];
    }
  }

  /** The regular expression `^(.+)$` without the `m` flag matches all of `t`:
      `t` is non-empty and every character is one that `.` matches. */
  predicate MatchesWholeLine(t: string)
  {
    |t| > 0 && forall i :: 0 <= i < |t| ==> !IsLineTerminator(t[i])
  }

  /** `content.replace(/\n/g, '</p><p>').replace(/^(.+)$/, '<p>$1</p>')`:
      the outer paragraph is added exactly when `content` is non-empty and
      holds no CR, U+2028 or U+2029. */
  function FormatContent(content: string): (r: string)
    ensures '\n' !in r
    ensures content == [] ==> r == []
    ensures content != [] && !HasOtherTerminator(content) ==>
              r == ParagraphOpen + ReplaceNewlines(content) + ParagraphClose
    ensures HasOtherTerminator(content) ==> r == ReplaceNewlines(content)
  {
    var t := ReplaceNewlines(content);
    ReplaceNewlinesKeepsOthers(content);
    MatchesWholeLineIff(t);
    if MatchesWholeLine(t) then ParagraphOpen + t + ParagraphClose else t
  }

  /** The exact shape of the result: the LF-separated lines of `content`
      joined by paragraph breaks, wrapped in one outer paragraph exactly when
      `content` is non-empty and holds no other line terminator. */
  lemma FormatContentShape(content: string)
    ensures var body := Join(Split(content, '\n'), ParagraphBreak);
            FormatContent(content)
            == if content != [] && !HasOtherTerminator(content)
               then ParagraphOpen + body + ParagraphClose
               else body
  {
    ReplaceNewlinesIsJoin(content);
  }

  /** The pattern matches exactly the non-empty strings without any line
      terminator. */
  lemma MatchesWholeLineIff(t: string)
    ensures MatchesWholeLine(t) <==> t != [] && '\n' !in t && !HasOtherTerminator(t)
  {
    if t != [] && '\n' !in t && !HasOtherTerminator(t) {
      forall i | 0 <= i < |t| ensures !IsLineTerminator(t[i]) {
        assert t[i] in t;
      }
    }
  }

  /** Replacing every LF is the same as splitting at LF and joining with a
      paragraph break: each LF yields exactly one `</p><p>`, and the text
      between LFs is kept, in order. */
  lemma {:induction false} ReplaceNewlinesIsJoin(s: string)
    ensures ReplaceNewlines(s) == Join(Split(s, '\n'), ParagraphBreak)
  {
    if s != [] {
      var rest := Split(s[1..], '\n');
      ReplaceNewlinesIsJoin(s[1..]);
      if s[0] == '\n' {
        assert ([[]] + rest)[1..] == rest;
      } else {
        JoinPrepend([s[0]], rest, ParagraphBreak);
      }
    }
  }

  /** The number of paragraph breaks: the joined body has one piece per
      line, so one break per LF of the input. */
  lemma LineCount(content: string)
    ensures |Split(content, '\n')| == multiset(content)['\n'] + 1
    ensures Join(Split(content, '\n'), "\n") == content
  {
    SplitCount(content, '\n');
    SplitJoin(content, '\n');
  }

  /** The replacement works piece by piece. */
  lemma {:induction false} ReplaceNewlinesConcat(s: string, t: string)
    ensures ReplaceNewlines(s + t) == ReplaceNewlines(s) + ReplaceNewlines(t)
  {
    if s == [] {
      assert s + t == t;
    } else {
      var head := if s[0] == '\n' then ParagraphBreak else [s[0]];
      var rest, tail := ReplaceNewlines(s[1..]), ReplaceNewlines(t);
      assert (s + t)[1..] == s[1..] + t;
      assert (s + t)[0] == s[0];
      assert ReplaceNewlines(s + t) == head + ReplaceNewlines(s[1..] + t);
      ReplaceNewlinesConcat(s[1..], t);
      assert head + (rest + tail) == (head + rest) + tail;
    }
  }

  /** Text without LF is left as it is. */
  lemma {:induction false} ReplaceNewlinesNoLf(s: string)
    requires '\n' !in s
    ensures ReplaceNewlines(s) == s
  {
    if s != [] {
      assert s[0] in s;
      assert s == [s[0]] + s[1..];
      ReplaceNewlinesNoLf(s[1..]);
    }
  }

  /** Two lines with no other line terminator become two paragraphs. */
  lemma FormatContentTwoLines(x: string, y: string)
    requires '\n' !in x && '\n' !in y && !HasOtherTerminator(x) && !HasOtherTerminator(y)
    ensures FormatContent(x + "\n" + y) == ParagraphOpen + x + ParagraphBreak + y + ParagraphClose
  {
    var c := x + "\n" + y;
    assert ReplaceNewlines(c) == x + ParagraphBreak + y by {
      ReplaceNewlinesConcat(x + "\n", y);
      ReplaceNewlinesConcat(x, "\n");
      ReplaceNewlinesNoLf(x);
      ReplaceNewlinesNoLf(y);
      assert ReplaceNewlines("\n") == ParagraphBreak;
    }
    assert !HasOtherTerminator(c);
    assert c != [];
  }

  /** Two lines separated by CR LF: the LF still becomes a paragraph break,
      but the CR left before it stops `^(.+)$` from matching, so there is
      no outer paragraph and the markup is unbalanced. */
  lemma FormatContentCrlf(x: string, y: string)
    requires '\n' !in x && '\n' !in y
    ensures FormatContent(x + "\r\n" + y) == x + "\r" + ParagraphBreak + y
  {
    var xr := x + "\r";
    assert '\n' !in xr;
    assert x + "\r\n" + y == xr + "\n" + y;
    var c := xr + "\n" + y;
    assert ReplaceNewlines(c) == xr + ParagraphBreak + y by {
      ReplaceNewlinesConcat(xr + "\n", y);
      ReplaceNewlinesConcat(xr, "\n");
      ReplaceNewlinesNoLf(xr);
      ReplaceNewlinesNoLf(y);
      assert ReplaceNewlines("\n") == ParagraphBreak;
    }
    assert c[|x|] == '\r';
    assert HasOtherTerminator(c);
  }

  /** The concrete outputs of the code for `""`, `"a\nb"` and `"\n"`. */
  lemma FormatContentExamples()
    ensures FormatContent("") == ""
    ensures FormatContent("a\nb") == "<p>a</p><p>b</p>"
    ensures FormatContent("\n") == "<p></p><p></p>"
  {
    assert "a\nb" == "a" + "\n" + "b";
    FormatContentTwoLines("a", "b");
    assert "\n" == "" + "\n" + "";
    FormatContentTwoLines("", "");
  }
}
