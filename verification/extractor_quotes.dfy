/**
 * Replies whose values are single-quoted, such as
 * `score: 'score': 9, 'feedback': 'Good job'`: the key rewrite turns the
 * keys into `"score":` and `"feedback":` but leaves the feedback value in
 * single quotes, so `json.loads` fails, the feedback pattern (which wants
 * a double-quoted value) finds nothing, and the decode error is raised.
 */
module ExtractorQuotes {
  import opened Wrappers
  import opened Text
  import opened Json
  import opened Extractor
  import opened ExtractorProperties

  /* ---- How the key rewrite walks a text ---- */

  /** The rewrite copies a run without `'`. */
  lemma {:induction false} RewritePlainRun(s: string, i: nat, j: nat)
    requires i <= j <= |s|
    requires forall k :: i <= k < j ==> s[k] != '\''
    ensures QuoteKeysFrom(s, i) == s[i..j] + QuoteKeysFrom(s, j)
    decreases j - i
  {
    if i < j {
      RewritePlainRun(s, i + 1, j);
      QuoteKeysFromKeeps(s, i);
      ConsSlice(s, i, j, QuoteKeysFrom(s, j));
    } else {
      assert s[i..j] == [];
    }
  }

  /** A slice is its first character followed by the rest of it. */
  lemma ConsSlice(s: string, i: nat, j: nat, rest: string)
    requires i < j <= |s|
    ensures [s[i]] + (s[i + 1..j] + rest) == s[i..j] + rest
  {
    assert s[i..j] == [s[i]] + s[i + 1..j];
  }

  /** A key `'k':` at `i` becomes `"k":`. */
  lemma RewriteKey(s: string, i: nat, j: nat)
    requires i < j && j + 1 < |s| && s[i] == '\'' && s[j] == '\'' && s[j + 1] == ':'
    requires forall k :: i < k < j ==> s[k] != '\''
    ensures QuoteKeysFrom(s, i) == "\"" + s[i + 1..j] + "\":" + QuoteKeysFrom(s, j + 2)
  {
    IndexOfIs(s, '\'', i + 1, j);
    QuoteKeysFromAtKey(s, i, j);
  }

  /** A quoted run at `i` whose closing `'` at `j` is not followed by `:` is copied. */
  lemma RewriteQuotedValue(s: string, i: nat, j: nat)
    requires i < j && j + 1 < |s| && s[i] == '\'' && s[j] == '\'' && s[j + 1] != ':'
    requires forall k :: i < k < j ==> s[k] != '\''
    ensures QuoteKeysFrom(s, i) == s[i..j] + QuoteKeysFrom(s, j)
  {
    IndexOfIs(s, '\'', i + 1, j);
    QuoteKeysFromKeeps(s, i);
    RewritePlainRun(s, i + 1, j);
    ConsSlice(s, i, j, QuoteKeysFrom(s, j));
  }

  /** A last `'`, with no other after it, is copied with the rest of the text. */
  lemma RewriteLastQuote(s: string, i: nat)
    requires i < |s| && s[i] == '\''
    requires forall k :: i < k < |s| ==> s[k] != '\''
    ensures QuoteKeysFrom(s, i) == s[i..]
  {
    QuoteKeysFromKeeps(s, i);
    RewritePlainRun(s, i + 1, |s|);
    ConsSlice(s, i, |s|, []);
  }

  /* ---- The reply and what becomes of it ---- */

  predicate NoQuotes(f: string)
  {
    forall k :: 0 <= k < |f| ==> f[k] != '\'' && f[k] != '"' && f[k] != '{'
  }

  /** The reply body `'score': D, 'feedback': 'F'`, keys and value single-quoted. */
  function QuotedBody(d: string, f: string): string
  {
    "'score': " + d + ", 'feedback': '" + f + "'"
  }

  /** The text after lines 13-36: the body wrapped in braces. */
  function QuotedText(d: string, f: string): string
  {
    "{" + QuotedBody(d, f) + "}"
  }

  /** The text after line 40: the keys double-quoted, the value still single-quoted. */
  function RewrittenText(d: string, f: string): string
  {
    "{\"score\": " + d + ", \"feedback\": '" + f + "'}"
  }

  /**
   * Where the pieces of the wrapped text sit, with `q` the key quote
   * character (`'` before the rewrite, `"` after it); `p` is the index just
   * past the digits.
   */
  predicate Layout(s: string, q: char, d: string, f: string)
  {
    var p := 10 + |d|;
    && |s| == p + 17 + |f|
    && s[0] == '{' && s[1] == q && s[2..7] == "score" && s[7] == q && s[8] == ':' && s[9] == ' '
    && s[10..p] == d
    && s[p] == ',' && s[p + 1] == ' ' && s[p + 2] == q && s[p + 3..p + 11] == "feedback"
    && s[p + 11] == q && s[p + 12] == ':' && s[p + 13] == ' ' && s[p + 14] == '\''
    && s[p + 15..p + 15 + |f|] == f
    && s[p + 15 + |f|] == '\'' && s[p + 16 + |f|] == '}'
  }

  lemma QuotedTextLayout(d: string, f: string)
    ensures Layout(QuotedText(d, f), '\'', d, f)
  {
    assert QuotedText(d, f) == "{'score': " + d + ", 'feedback': '" + f + "'}";
    PiecesLayout("{'score': ", d, ", 'feedback': '", f, '\'');
  }

  lemma RewrittenTextLayout(d: string, f: string)
    ensures Layout(RewrittenText(d, f), '"', d, f)
  {
    PiecesLayout("{\"score\": ", d, ", \"feedback\": '", f, '"');
  }

  /** A text put together from a key head `a`, the digits, a middle `b`, the feedback and `'}` has the layout. */
  lemma PiecesLayout(a: string, d: string, b: string, f: string, q: char)
    requires |a| == 10 && a[0] == '{' && a[1] == q && a[2..7] == "score" && a[7] == q && a[8] == ':' && a[9] == ' '
    requires |b| == 15 && b[0] == ',' && b[1] == ' ' && b[2] == q && b[3..11] == "feedback"
    requires b[11] == q && b[12] == ':' && b[13] == ' ' && b[14] == '\''
    ensures Layout(a + d + b + f + "'}", q, d, f)
  {
    var s := a + d + b + f + "'}";
    var p := 10 + |d|;
    PiecesInPlace(a, d, b, f, "'}");
    HeadInPlace(s, a);
    HeadInPlace(s[p..], b);
    assert s[p..][..15] == s[p..p + 15];
    assert s[p..][3..11] == s[p + 3..p + 11];
    assert s[p + 15 + |f|..] == "'}";
  }

  /** Two texts with the same layout for different key quotes agree everywhere but at the four key quotes. */
  lemma LayoutsAgree(a: string, b: string, d: string, f: string, k: nat)
    requires Layout(a, '\'', d, f) && Layout(b, '"', d, f)
    requires k < |a| && k != 1 && k != 7 && k != 12 + |d| && k != 21 + |d|
    ensures a[k] == b[k]
  {
    var p := 10 + |d|;
    if 2 <= k < 7 {
      assert a[k] == a[2..7][k - 2] && b[k] == b[2..7][k - 2];
    } else if 10 <= k < p {
      assert a[k] == a[10..p][k - 10] && b[k] == b[10..p][k - 10];
    } else if p + 3 <= k < p + 11 {
      assert a[k] == a[p + 3..p + 11][k - p - 3] && b[k] == b[p + 3..p + 11][k - p - 3];
    } else if p + 15 <= k < p + 15 + |f| {
      assert a[k] == a[p + 15..p + 15 + |f|][k - p - 15] && b[k] == b[p + 15..p + 15 + |f|][k - p - 15];
    }
  }

  /** In the layout, `'` stands only at the four key quotes and the two value quotes. */
  lemma LayoutSingleQuotes(s: string, d: string, f: string, k: nat)
    requires Layout(s, '\'', d, f) && AllDigits(d) && NoQuotes(f)
    requires k < |s| && k != 1 && k != 7 && k != 12 + |d| && k != 21 + |d| && k != 24 + |d| && k != 25 + |d| + |f|
    ensures s[k] != '\''
  {
    var p := 10 + |d|;
    if 2 <= k < 7 {
      assert s[k] == s[2..7][k - 2];
    } else if 10 <= k < p {
      assert s[k] == s[10..p][k - 10];
    } else if p + 3 <= k < p + 11 {
      assert s[k] == s[p + 3..p + 11][k - p - 3];
    } else if p + 15 <= k < p + 15 + |f| {
      assert s[k] == s[p + 15..p + 15 + |f|][k - p - 15];
    }
  }

  /** The rewrite from the feedback value on: copied, as its closing `'` is followed by `}`. */
  lemma RewriteFromValue(s: string, d: string, f: string)
    requires Layout(s, '\'', d, f) && AllDigits(d) && NoQuotes(f)
    ensures QuoteKeysFrom(s, 23 + |d|) == s[23 + |d|..]
  {
    var p := 10 + |d|;
    var q := p + 15 + |f|;
    forall k | p + 14 < k < |s| && k != q ensures s[k] != '\'' {
      LayoutSingleQuotes(s, d, f, k);
    }
    RewriteLastQuote(s, q);
    RewriteQuotedValue(s, p + 14, q);
    RewritePlainRun(s, p + 13, p + 14);
    assert s[p + 13..p + 14] + s[p + 14..q] + s[q..] == s[p + 13..];
  }

  /** The rewrite from just past the score key to the feedback value: the feedback key is double-quoted. */
  lemma RewriteFeedbackKey(s: string, d: string, f: string)
    requires Layout(s, '\'', d, f) && AllDigits(d) && NoQuotes(f)
    ensures QuoteKeysFrom(s, 9) == s[9..12 + |d|] + "\"feedback\":" + QuoteKeysFrom(s, 23 + |d|)
  {
    FeedbackKeyRun(s, d, f);
    RewriteRunThenKey(s, 9, 12 + |d|, 21 + |d|, 23 + |d|, "feedback");
    KeyTexts();
  }

  /** From just past the score key to the closing quote of the feedback key, `'` stands only at the opening one. */
  lemma FeedbackKeyRun(s: string, d: string, f: string)
    requires Layout(s, '\'', d, f) && AllDigits(d) && NoQuotes(f)
    ensures forall k :: 9 <= k < 21 + |d| && k != 12 + |d| ==> s[k] != '\''
  {
    forall k | 9 <= k < 21 + |d| && k != 12 + |d| ensures s[k] != '\'' {
      LayoutSingleQuotes(s, d, f, k);
    }
  }

  /** The rewrite from the start: the score key is double-quoted. */
  lemma RewriteScoreKey(s: string, d: string, f: string)
    requires Layout(s, '\'', d, f) && AllDigits(d) && NoQuotes(f)
    ensures QuoteKeysFrom(s, 0) == "{\"score\":" + QuoteKeysFrom(s, 9)
  {
    forall k | 1 < k < 7 ensures s[k] != '\'' {
      LayoutSingleQuotes(s, d, f, k);
    }
    RewriteRunThenKey(s, 0, 1, 7, 9, "score");
    assert s[0..1] == "{";
    KeyTexts();
  }

  /** A run without `'` from `a` to a key `'key':` at `i`: the run is copied and the key double-quoted. */
  lemma RewriteRunThenKey(s: string, a: nat, i: nat, j: nat, e: nat, key: string)
    requires a <= i < j && e == j + 2 && e <= |s| && s[i] == '\'' && s[j] == '\'' && s[j + 1] == ':'
    requires s[i + 1..j] == key
    requires forall k :: a <= k < j && k != i ==> s[k] != '\''
    ensures QuoteKeysFrom(s, a) == s[a..i] + ("\"" + key + "\":") + QuoteKeysFrom(s, e)
  {
    RewritePlainRun(s, a, i);
    RewriteKey(s, i, j);
    Regroup(s[a..i], "\"", key, "\":", QuoteKeysFrom(s, e));
  }

  /** The two keys, double-quoted and followed by `:`. */
  lemma KeyTexts()
    ensures "\"" + "feedback" + "\":" == "\"feedback\":"
    ensures "{" + ("\"" + "score" + "\":") == "{\"score\":"
  {
  }

  /** Concatenation regrouped from the right to the left. */
  lemma Regroup(w: string, x: string, y: string, z: string, r: string)
    ensures w + (x + y + z + r) == w + (x + y + z) + r
  {
  }

  /** The rewrite of a wrapped text: its two keys re-quoted, its other parts copied. */
  lemma RewriteLayout(s: string, d: string, f: string)
    requires Layout(s, '\'', d, f) && AllDigits(d) && NoQuotes(f)
    ensures QuoteKeys(s) == "{\"score\":" + s[9..12 + |d|] + "\"feedback\":" + s[23 + |d|..]
  {
    RewriteScoreKey(s, d, f);
    RewriteFeedbackKey(s, d, f);
    RewriteFromValue(s, d, f);
  }

  /** Re-quoting the two keys of the wrapped text gives the rewritten text. */
  lemma RequotedIsRewritten(d: string, f: string)
    ensures var s := QuotedText(d, f);
            "{\"score\":" + s[9..12 + |d|] + "\"feedback\":" + s[23 + |d|..] == RewrittenText(d, f)
  {
    var s := QuotedText(d, f);
    var r := RewrittenText(d, f);
    var p := 10 + |d|;
    QuotedTextLayout(d, f);
    RewrittenTextLayout(d, f);
    var t := "{\"score\":" + s[9..p + 2] + "\"feedback\":" + s[p + 13..];
    assert |t| == |r|;
    forall k | 0 <= k < |t| ensures t[k] == r[k] {
      if k != 1 && k != 7 && k != p + 2 && k != p + 11 {
        LayoutsAgree(s, r, d, f, k);
        if 9 <= k < p + 2 {
          assert t[k] == s[9..p + 2][k - 9];
        } else if p + 13 <= k {
          assert t[k] == s[p + 13..][k - p - 13];
        }
      }
    }
  }

  /** Line 40 on the wrapped text: both keys, and nothing else, become double-quoted. */
  lemma RewriteQuotedText(d: string, f: string)
    requires AllDigits(d) && NoQuotes(f)
    ensures QuoteKeys(QuotedText(d, f)) == RewrittenText(d, f)
  {
    QuotedTextLayout(d, f);
    RewriteLayout(QuotedText(d, f), d, f);
    RequotedIsRewritten(d, f);
  }

  /* ---- Lines 13-36 ---- */

  /** Stripping `header + " " + t`, for a trimmed `t`, and dropping the header leaves `t`. */
  lemma StripHeaderAndSpace(header: string, t: string)
    requires t != [] && !IsSpace(t[0]) && !IsSpace(t[|t| - 1])
    requires header != [] && !IsSpace(header[0])
    ensures WithoutHeader(header + " " + t, header) == t
  {
    var raw := header + " " + t;
    assert raw[..|header|] == header;
    assert raw[|header|..] == " " + t;
    assert Trimmed(raw) by {
      assert raw[0] == header[0];
      assert raw[|raw| - 1] == t[|t| - 1];
    }
    StripTrimmed(raw);
    StripAfterSpace(t);
  }

  lemma StripAfterSpace(t: string)
    requires t != [] && !IsSpace(t[0]) && !IsSpace(t[|t| - 1])
    ensures Strip(" " + t) == t
  {
    assert SpaceEnd(" " + t, 1) == 1;
    assert (" " + t)[1..|t| + 1] == t;
  }

  /** Neither pattern can match a text without `"`: both start with one. */
  lemma {:induction false} NoDoubleQuoteNoMatch(p: Pattern, s: string, from: nat)
    requires from <= |s| && NoQuote(s)
    ensures Search(p, s, from).None?
    decreases |s| - from
  {
    if from < |s| {
      NotAt(s, from, Key(p));
      NoDoubleQuoteNoMatch(p, s, from + 1);
    }
  }

  /** The body has neither `{` nor `"`. */
  lemma BodyCharacters(d: string, f: string)
    requires AllDigits(d) && NoQuotes(f)
    ensures forall k :: 0 <= k < |QuotedBody(d, f)| ==> QuotedBody(d, f)[k] != '{' && QuotedBody(d, f)[k] != '"'
  {
    var b := QuotedBody(d, f);
    var p := 9 + |d|;
    forall k | 0 <= k < |b| ensures b[k] != '{' && b[k] != '"' {
      if 9 <= k < p {
        assert b[k] == d[k - 9];
      } else if p + 15 <= k < p + 15 + |f| {
        assert b[k] == f[k - p - 15];
      }
    }
  }

  /** Lines 20-36 on the body: no brace span and no pattern, so it is wrapped in braces. */
  lemma BodyWrapped(d: string, f: string)
    requires AllDigits(d) && NoQuotes(f)
    ensures Recover(CutSpan(QuotedBody(d, f))) == QuotedText(d, f)
  {
    var b := QuotedBody(d, f);
    BodyCharacters(d, f);
    assert BraceSpan(b).None? by {
      assert IndexOf(b, '{', 0).None?;
    }
    NoDoubleQuoteNoMatch(ScorePattern, b, 0);
    assert b[0] == '\'';
  }

  /** Lines 13-36: the header goes, no brace span or pattern is found, and the body is wrapped in braces. */
  lemma QuotedReplyWrapped(header: string, d: string, f: string)
    requires header != [] && !IsSpace(header[0]) && AllDigits(d) && NoQuotes(f)
    ensures Recover(CutSpan(WithoutHeader(header + " " + QuotedBody(d, f), header))) == QuotedText(d, f)
  {
    var b := QuotedBody(d, f);
    assert b[0] == '\'' && b[|b| - 1] == '\'';
    StripHeaderAndSpace(header, b);
    BodyWrapped(d, f);
  }

  /* ---- Line 43 and the fallback ---- */

  /** No literal starts with `'`. */
  lemma NoLiteralAtQuote(s: string, v: nat, lit: string)
    requires v < |s| && s[v] == '\'' && lit != [] && lit[0] != '\''
    ensures !At(s, v, lit)
  {
    if v + |lit| <= |s| {
      assert s[v..v + |lit|][0] == s[v];
    }
  }

  /** No scalar starts with `'`. */
  lemma NoScalarAtQuote(s: string, v: nat)
    requires v < |s| && s[v] == '\''
    ensures Scalar(s, v).Failure?
  {
    NoLiteralAtQuote(s, v, "null");
    NoLiteralAtQuote(s, v, "true");
    NoLiteralAtQuote(s, v, "false");
    NoLiteralAtQuote(s, v, "NaN");
    NoLiteralAtQuote(s, v, "Infinity");
    NoLiteralAtQuote(s, v, "-Infinity");
    assert Number(s, v) == Failure(ExpectingValue);
  }

  /** No value starts with `'`. */
  lemma NoValueAtQuote(s: string, v: nat)
    requires v < |s| && s[v] == '\''
    ensures Value(s, v).Failure?
  {
    NoScalarAtQuote(s, v);
  }

  /** The feedback member of the rewritten text fails: its value starts with `'`. */
  lemma FeedbackMemberFails(s: string, d: string, f: string)
    requires Layout(s, '"', d, f)
    ensures Member(s, 12 + |d|).Failure?
  {
    var p := 10 + |d|;
    StringReadsPlain(s, p + 3, 8);
    assert SkipWs(s, p + 11) == p + 11;
    assert SkipWs(s, p + 13) == p + 14;
    NoValueAtQuote(s, p + 14);
  }

  /** The members of the rewritten text fail: the score reads, then the feedback value does not. */
  lemma RewrittenMembersFail(s: string, d: string, f: string)
    requires Layout(s, '"', d, f) && |d| > 0 && AllDigits(d)
    ensures Members(s, 1, map[]).Failure?
  {
    if d[0] != '0' || |d| == 1 {
      ScoreThenFeedbackFails(s, d, f);
    } else {
      LeadingZeroScoreFails(s, d, f);
    }
  }

  /** A score without a leading zero reads; the feedback member after it fails. */
  lemma ScoreThenFeedbackFails(s: string, d: string, f: string)
    requires Layout(s, '"', d, f) && |d| > 0 && AllDigits(d) && (d[0] != '0' || |d| == 1)
    ensures Members(s, 1, map[]).Failure?
  {
    var p := 10 + |d|;
    assert s[10] == s[10..p][0];
    assert KeyAt(s, 1, "score");
    assert s[p] == ',' && s[p + 1] == ' ' && s[p + 2] == '"';
    DigitsMemberDecodes(s, 1, "score", |d|, map[]);
    FeedbackMemberFails(s, d, f);
  }

  /** A score with a leading zero reads as `0`, and the digit after it is no delimiter. */
  lemma LeadingZeroScoreFails(s: string, d: string, f: string)
    requires Layout(s, '"', d, f) && |d| > 1 && AllDigits(d) && d[0] == '0'
    ensures Members(s, 1, map[]).Failure?
  {
    var p := 10 + |d|;
    assert s[10] == s[10..p][0];
    assert KeyAt(s, 1, "score");
    assert s[11] == s[10..p][1];
    LeadingZeroMemberFails(s, 1, "score", map[]);
  }

  /** The rewritten text does not decode: after the score, the feedback value is not JSON. */
  lemma RewrittenDoesNotDecode(d: string, f: string)
    requires |d| > 0 && AllDigits(d)
    ensures Loads(RewrittenText(d, f)).Failure?
  {
    var s := RewrittenText(d, f);
    RewrittenTextLayout(d, f);
    RewrittenMembersFail(s, d, f);
    assert SkipWs(s, 1) == 1;
    assert Object(s, 0).Failure?;
    assert SkipWs(s, 0) == 0;
  }

  /** In the rewritten text `"` stands only at the four key quotes. */
  lemma RewrittenDoubleQuotes(s: string, d: string, f: string, k: nat)
    requires Layout(s, '"', d, f) && AllDigits(d) && NoQuotes(f)
    requires k < |s| && k != 1 && k != 7 && k != 12 + |d| && k != 21 + |d|
    ensures s[k] != '"'
  {
    var p := 10 + |d|;
    if 2 <= k < 7 {
      assert s[k] == s[2..7][k - 2];
    } else if 10 <= k < p {
      assert s[k] == s[10..p][k - 10];
    } else if p + 3 <= k < p + 11 {
      assert s[k] == s[p + 3..p + 11][k - p - 3];
    } else if p + 15 <= k < p + 15 + |f| {
      assert s[k] == s[p + 15..p + 15 + |f|][k - p - 15];
    }
  }

  /** The only `"feedback":` in the rewritten text is its own key. */
  lemma FeedbackKeyOnlyAt(s: string, d: string, f: string, i: nat)
    requires Layout(s, '"', d, f) && AllDigits(d) && NoQuotes(f)
    requires At(s, i, Key(FeedbackPattern))
    ensures i == 12 + |d|
  {
    var p := 10 + |d|;
    assert s[i..i + 11][0] == s[i] && s[i..i + 11][1] == s[i + 1];
    if i != 1 && i != 7 && i != p + 2 && i != p + 11 {
      RewrittenDoubleQuotes(s, d, f, i);
    }
    assert s[2] == s[2..7][0];
  }

  /** At its own key the feedback pattern fails: the value after it starts with `'`, not `"`. */
  lemma FeedbackValueNotMatched(s: string, d: string, f: string)
    requires Layout(s, '"', d, f)
    ensures FeedbackAt(s, 12 + |d|).None?
  {
    var p := 10 + |d|;
    assert SpaceEnd(s, p + 14) == p + 14;
    assert SpaceEnd(s, p + 13) == p + 14;
  }

  /** The feedback pattern matches nowhere in the rewritten text. */
  lemma RewrittenHasNoFeedback(d: string, f: string)
    requires AllDigits(d) && NoQuotes(f)
    ensures Search(FeedbackPattern, RewrittenText(d, f), 0).None?
  {
    var s := RewrittenText(d, f);
    RewrittenTextLayout(d, f);
    FeedbackValueNotMatched(s, d, f);
    forall i | 0 <= i <= |s| ensures MatchAt(FeedbackPattern, s, i).None? {
      if At(s, i, Key(FeedbackPattern)) {
        FeedbackKeyOnlyAt(s, d, f, i);
      }
    }
  }

  /**
   * A reply `header 'score': D, 'feedback': 'F'` with its header, digits
   * `D` and a feedback `F` without quotes or `{`: the text handed to
   * `json.loads` keeps the single-quoted value, and the extractor raises
   * the decode error.
   */
  lemma SingleQuotedReplyRaises(header: string, d: string, f: string)
    requires header != [] && !IsSpace(header[0])
    requires |d| > 0 && AllDigits(d) && NoQuotes(f)
    ensures Prepared(header + " " + QuotedBody(d, f), header) == RewrittenText(d, f)
    ensures Extract(header + " " + QuotedBody(d, f), header).Failure?
  {
    QuotedReplyWrapped(header, d, f);
    RewriteQuotedText(d, f);
    RewrittenDoesNotDecode(d, f);
    RewrittenHasNoFeedback(d, f);
  }
}
