/**
 * The tolerant JSON extractor `extract_json_from_response`: it turns the
 * free text of a language-model reply into a dict by a fixed pipeline of
 * string steps (strip, header removal, greedy brace span, score/feedback
 * recovery or brace wrapping, single-quoted-key rewrite), then decodes
 * the result as JSON, falling back once more to the score/feedback
 * patterns when decoding fails.
 */
module Extractor {
  import opened Wrappers
  import opened Text
  import opened Json

  /* ---- Lines 13-17: strip, then drop an exact header prefix ---- */

  /** The reply text stripped, and without `header` when it starts with it exactly. */
  function WithoutHeader(raw: string, header: string): (r: string)
    ensures Trimmed(r)
    ensures !StartsWith(Strip(raw), header) ==> r == Strip(raw)
    ensures StartsWith(Strip(raw), header) ==> r == Strip(Strip(raw)[|header|..])
  {
    var t := Strip(raw);
    if StartsWith(t, header) then Strip(t[|header|..]) else t
  }

  /* ---- Lines 20-22: the greedy span `\{.*\}` (dot matches newlines) ---- */

  /** `s[i..j + 1]` is a match of `\{.*\}`. */
  predicate SpanMatch(s: string, i: nat, j: nat)
  {
    i < j < |s| && s[i] == '{' && s[j] == '}'
  }

  /**
   * `re.search(r'\{.*\}', s, re.DOTALL)`: the match that starts leftmost,
   * extended as far to the right as it can go, as the indices of its two
   * braces.
   */
  function BraceSpan(s: string): (r: Option<(nat, nat)>)
    ensures r.None? <==> forall i: nat, j: nat :: !SpanMatch(s, i, j)
    ensures r.Some? ==> SpanMatch(s, r.value.0, r.value.1)
    ensures r.Some? ==> forall i: nat, j: nat :: SpanMatch(s, i, j) ==> r.value.0 <= i
    ensures r.Some? ==> forall j: nat :: SpanMatch(s, r.value.0, j) ==> j <= r.value.1
  {
    match IndexOf(s, '{', 0)
    case None => None
    case Some(i) =>
      match LastIndexOf(s, '}', |s|)
      case None => None
      case Some(j) =>
        assert forall i': nat, j': nat :: SpanMatch(s, i', j') ==> i <= i' && j' <= j;
        if i < j then
          assert SpanMatch(s, i, j);
          Some((i, j))
        else None
  }

  /** Lines 20-22: the working text becomes the span when there is one. */
  function CutSpan(t: string): (r: string)
    ensures BraceSpan(t).Some? ==> r == t[BraceSpan(t).value.0..BraceSpan(t).value.1 + 1]
    ensures BraceSpan(t).Some? ==> |r| >= 2 && r[0] == '{' && r[|r| - 1] == '}'
    ensures BraceSpan(t).None? ==> r == t
  {
    match BraceSpan(t)
    case Some((i, j)) => t[i..j + 1]
    case None => t
  }

  /* ---- The two recovery patterns ---- */

  /** The two patterns `"score":\s*(\d+)` and `"feedback":\s*"([^"]*)"`. */
  datatype Pattern = ScorePattern | FeedbackPattern

  function Key(p: Pattern): string
  {
    match p
    case ScorePattern => "\"score\":"
    case FeedbackPattern => "\"feedback\":"
  }

  /** The span `s[start..end]` of the captured group. */
  datatype Span = Span(start: nat, end: nat)

  /** A match of a pattern: where it starts, and its captured group. */
  datatype Match = Match(at: nat, group: Span)

  predicate NoQuote(t: string)
  {
    forall k :: 0 <= k < |t| ==> t[k] != '"'
  }

  /** Only whitespace in `s[lo..hi]`. */
  predicate SpaceRun(s: string, lo: nat, hi: nat)
    requires lo <= hi <= |s|
  {
    forall k :: lo <= k < hi ==> IsSpace(s[k])
  }

  /** Only digits in `s[lo..hi]`. */
  predicate DigitRun(s: string, lo: nat, hi: nat)
    requires lo <= hi <= |s|
  {
    forall k :: lo <= k < hi ==> IsDigit(s[k])
  }

  /** No `"` in `s[lo..hi]`. */
  predicate QuoteFreeRun(s: string, lo: nat, hi: nat)
    requires lo <= hi <= |s|
  {
    forall k :: lo <= k < hi ==> s[k] != '"'
  }

  /**
   * `"score":\s*(\d+)` matches at `i` with its group at `g`: the key,
   * whitespace, then a non-empty run of digits.
   */
  predicate ScoreMatches(s: string, i: nat, g: Span)
  {
    var b := i + |Key(ScorePattern)|;
    At(s, i, Key(ScorePattern)) && b <= g.start < g.end <= |s|
    && SpaceRun(s, b, g.start) && DigitRun(s, g.start, g.end)
  }

  /**
   * `"feedback":\s*"([^"]*)"` matches at `i` with its group at `g`: the
   * key, whitespace, then a run without `"` between two `"`.
   */
  predicate FeedbackMatches(s: string, i: nat, g: Span)
  {
    var b := i + |Key(FeedbackPattern)|;
    At(s, i, Key(FeedbackPattern)) && b < g.start <= g.end < |s|
    && SpaceRun(s, b, g.start - 1) && s[g.start - 1] == '"' && s[g.end] == '"'
    && QuoteFreeRun(s, g.start, g.end)
  }

  predicate Matches(p: Pattern, s: string, i: nat, g: Span)
  {
    match p
    case ScorePattern => ScoreMatches(s, i, g)
    case FeedbackPattern => FeedbackMatches(s, i, g)
  }

  /** Every score match at `i` has its group where the whitespace run ends, and no further than the digits go. */
  lemma ScoreGroups(s: string, i: nat)
    requires i <= |s|
    requires At(s, i, Key(ScorePattern))
    ensures forall g: Span :: ScoreMatches(s, i, g) ==>
              g.start == SpaceEnd(s, i + |Key(ScorePattern)|) && g.end <= DigitsEnd(s, g.start)
  {
    forall g: Span | ScoreMatches(s, i, g)
      ensures g.start == SpaceEnd(s, i + |Key(ScorePattern)|) && g.end <= DigitsEnd(s, g.start)
    {
      assert IsDigit(s[g.start]);
    }
  }

  /** Every feedback match at `i` has its group right after the opening quote, up to the next quote. */
  lemma FeedbackGroups(s: string, i: nat)
    requires i <= |s|
    requires At(s, i, Key(FeedbackPattern))
    ensures forall g: Span :: FeedbackMatches(s, i, g) ==>
              g.start == SpaceEnd(s, i + |Key(FeedbackPattern)|) + 1 && IndexOf(s, '"', g.start) == Some(g.end)
  {
  }

  /**
   * The score pattern tried at `i`: `\s*` and `\d+` take as much as they
   * can, so the group is the whole digit run after the whitespace.
   */
  function ScoreAt(s: string, i: nat): (r: Option<Span>)
    requires i <= |s|
    ensures r.Some? ==> ScoreMatches(s, i, r.value)
    ensures r.Some? ==> r.value.end == |s| || !IsDigit(s[r.value.end])
    ensures r.None? ==> forall g: Span :: !ScoreMatches(s, i, g)
  {
    if !At(s, i, Key(ScorePattern)) then None
    else
      ScoreGroups(s, i);
      var a := SpaceEnd(s, i + |Key(ScorePattern)|);
      var d := DigitsEnd(s, a);
      if a < d then Some(Span(a, d)) else None
  }

  /**
   * The feedback pattern tried at `i`: after the whitespace there must be
   * a `"`, and the group runs to the next `"`.
   */
  function FeedbackAt(s: string, i: nat): (r: Option<Span>)
    requires i <= |s|
    ensures r.Some? ==> FeedbackMatches(s, i, r.value)
    ensures r.None? ==> forall g: Span :: !FeedbackMatches(s, i, g)
  {
    if !At(s, i, Key(FeedbackPattern)) then None
    else
      FeedbackGroups(s, i);
      var a := SpaceEnd(s, i + |Key(FeedbackPattern)|);
      var q := if a < |s| && s[a] == '"' then IndexOf(s, '"', a + 1) else None;
      if q.Some? then Some(Span(a + 1, q.value)) else None
  }

  /** The pattern tried at index `i`, as the regular-expression engine does it. */
  function MatchAt(p: Pattern, s: string, i: nat): Option<Span>
    requires i <= |s|
  {
    match p
    case ScorePattern => ScoreAt(s, i)
    case FeedbackPattern => FeedbackAt(s, i)
  }

  /** The pattern tried at `i` gives a match exactly when it matches there. */
  lemma MatchAtMatches(p: Pattern, s: string, i: nat)
    requires i <= |s|
    ensures MatchAt(p, s, i).Some? ==> Matches(p, s, i, MatchAt(p, s, i).value)
    ensures MatchAt(p, s, i).None? ==> forall g: Span :: !Matches(p, s, i, g)
  {
  }

  /**
   * `re.search(pattern, s)` from index `from`: the match that starts
   * leftmost, if any.
   */
  function Search(p: Pattern, s: string, from: nat): (r: Option<Match>)
    requires from <= |s|
    ensures r.Some? ==> from <= r.value.at <= |s| && MatchAt(p, s, r.value.at) == Some(r.value.group)
    ensures r.Some? ==> forall i :: from <= i < r.value.at ==> MatchAt(p, s, i).None?
    ensures r.None? ==> forall i :: from <= i <= |s| ==> MatchAt(p, s, i).None?
    decreases |s| - from
  {
    match MatchAt(p, s, from)
    case Some(g) => Some(Match(from, g))
    case None => if from == |s| then None else Search(p, s, from + 1)
  }

  /** The text of the group of a match found in `s`. */
  function Group(s: string, m: Match): string
    requires m.group.start <= m.group.end <= |s|
  {
    s[m.group.start..m.group.end]
  }

  /* ---- Lines 25-36: recovery when the text does not start with `{` ---- */

  /** The text `{"score": D, "feedback": "F"}` built from the two groups. */
  function RecordText(score: string, feedback: string): string
  {
    "{\"score\": " + score + ", \"feedback\": \"" + feedback + "\"}"
  }

  /** The dict `{"score": int(D), "feedback": F}`. */
  function ScoreRecord(score: nat, feedback: string): Json
  {
    Obj(map["score" := Int(score), "feedback" := Str(feedback)])
  }

  /**
   * Both patterns searched over `t`, giving the digits and the feedback
   * text of their first matches when both match.
   */
  function ScoreAndFeedback(t: string): (r: Option<(string, string)>)
    ensures r.Some? ==> |r.value.0| > 0 && AllDigits(r.value.0) && NoQuote(r.value.1)
    ensures r.Some? <==> Search(ScorePattern, t, 0).Some? && Search(FeedbackPattern, t, 0).Some?
    ensures r.Some? ==>
              var sm := Search(ScorePattern, t, 0).value;
              var fm := Search(FeedbackPattern, t, 0).value;
              && sm.group.start <= sm.group.end <= |t| && fm.group.start <= fm.group.end <= |t|
              && r.value == (Group(t, sm), Group(t, fm))
  {
    match (Search(ScorePattern, t, 0), Search(FeedbackPattern, t, 0))
    case (Some(sm), Some(fm)) =>
      ScoreGroupDigits(t, sm);
      FeedbackGroupNoQuote(t, fm);
      Some((Group(t, sm), Group(t, fm)))
    case _ => None
  }

  /** The group of a score match found by the search is a non-empty run of digits. */
  lemma ScoreGroupDigits(t: string, m: Match)
    requires Search(ScorePattern, t, 0) == Some(m)
    ensures m.group.start < m.group.end <= |t| && AllDigits(t[m.group.start..m.group.end])
  {
    MatchAtMatches(ScorePattern, t, m.at);
    DigitsSlice(t, m.group.start, m.group.end);
  }

  /** The group of a feedback match found by the search holds no `"`. */
  lemma FeedbackGroupNoQuote(t: string, m: Match)
    requires Search(FeedbackPattern, t, 0) == Some(m)
    ensures m.group.start <= m.group.end <= |t| && NoQuote(t[m.group.start..m.group.end])
  {
    MatchAtMatches(FeedbackPattern, t, m.at);
    assert FeedbackMatches(t, m.at, m.group);
    QuoteFreeSlice(t, m.group.start, m.group.end);
  }

  /** A run without `"` read as a text of its own. */
  lemma QuoteFreeSlice(s: string, lo: nat, hi: nat)
    requires lo <= hi <= |s| && QuoteFreeRun(s, lo, hi)
    ensures NoQuote(s[lo..hi])
  {
    assert forall k :: 0 <= k < hi - lo ==> s[lo..hi][k] == s[lo + k];
  }

  /** Lines 25-36: a text that does not start with `{` is rebuilt or wrapped in braces. */
  function Recover(t: string): (r: string)
    ensures |r| > 0 && r[0] == '{'
    ensures StartsWith(t, "{") ==> r == t
    ensures !StartsWith(t, "{") && ScoreAndFeedback(t).Some? ==>
              r == RecordText(ScoreAndFeedback(t).value.0, ScoreAndFeedback(t).value.1)
    ensures !StartsWith(t, "{") && ScoreAndFeedback(t).None? ==> r == "{" + t + "}"
  {
    if StartsWith(t, "{") then t
    else
      match ScoreAndFeedback(t)
      case Some((d, f)) => RecordText(d, f)
      case None => "{" + t + "}"
  }

  /* ---- Line 40: single-quoted keys become double-quoted ---- */

  /**
   * Is the `'` at `p` one that the rewrite may turn into `"`: one directly
   * followed by `:`, or one whose next `'` is directly followed by `:`?
   */
  predicate KeyQuote(s: string, p: nat)
  {
    && p < |s| && s[p] == '\''
    && ((p + 1 < |s| && s[p + 1] == ':')
        || (match IndexOf(s, '\'', p + 1)
            case Some(j) => j + 1 < |s| && s[j + 1] == ':'
            case None => false))
  }

  /** `re.sub(r"'([^']*)':", r'"\1":', s[i..])`, left to right, without overlaps. */
  function QuoteKeysFrom(s: string, i: nat): (r: string)
    requires i <= |s|
    ensures |r| == |s| - i
    decreases |s| - i
  {
    if i == |s| then []
    else if s[i] == '\'' then
      match IndexOf(s, '\'', i + 1)
      case Some(j) =>
        if j + 1 < |s| && s[j + 1] == ':' then "\"" + s[i + 1..j] + "\":" + QuoteKeysFrom(s, j + 2)
        else [s[i]] + QuoteKeysFrom(s, i + 1)
      case None => [s[i]] + QuoteKeysFrom(s, i + 1)
    else [s[i]] + QuoteKeysFrom(s, i + 1)
  }

  /** A `'` at `i` whose next `'`, at `j`, is followed by `:` opens a key, which is double-quoted. */
  lemma QuoteKeysFromAtKey(s: string, i: nat, j: nat)
    requires i < j && j + 1 < |s| && s[i] == '\'' && s[j + 1] == ':'
    requires IndexOf(s, '\'', i + 1) == Some(j)
    ensures QuoteKeysFrom(s, i) == "\"" + s[i + 1..j] + "\":" + QuoteKeysFrom(s, j + 2)
  {
  }

  /** Any other character at `i` is copied. */
  lemma QuoteKeysFromKeeps(s: string, i: nat)
    requires i < |s|
    requires s[i] == '\'' ==> match IndexOf(s, '\'', i + 1)
                              case Some(j) => j + 1 == |s| || s[j + 1] != ':'
                              case None => true
    ensures QuoteKeysFrom(s, i) == [s[i]] + QuoteKeysFrom(s, i + 1)
  {
  }

  /**
   * `r` is a rewrite of `s[i..]` that changes only key quotes, and each of
   * them into `"`.
   */
  predicate ChangesOnlyKeyQuotes(s: string, i: nat, r: string)
    requires i <= |s|
  {
    && |r| == |s| - i
    && (forall k :: 0 <= k < |r| ==> r[k] == s[i + k] || (s[i + k] == '\'' && r[k] == '"'))
    && (forall k :: 0 <= k < |r| && r[k] != s[i + k] ==> KeyQuote(s, i + k))
  }

  /** The rewrite of `s[i..]` changes only key quotes, and each of them into `"`. */
  lemma {:induction false} QuoteKeysFromChanges(s: string, i: nat)
    requires i <= |s|
    ensures ChangesOnlyKeyQuotes(s, i, QuoteKeysFrom(s, i))
    decreases |s| - i
  {
    if i < |s| {
      var q := IndexOf(s, '\'', i + 1);
      if s[i] == '\'' && q.Some? && q.value + 1 < |s| && s[q.value + 1] == ':' {
        var j := q.value;
        QuoteKeysFromChanges(s, j + 2);
        QuoteKeysFromAtKey(s, i, j);
        KeyRewrite(s, i, j, QuoteKeysFrom(s, j + 2));
      } else {
        QuoteKeysFromChanges(s, i + 1);
        QuoteKeysFromKeeps(s, i);
        KeepChanges(s, i, QuoteKeysFrom(s, i + 1));
      }
    }
  }

  /** Copying the character at `i` in front of a rewrite of `s[i + 1..]` keeps what the rewrite changes. */
  lemma KeepChanges(s: string, i: nat, rest: string)
    requires i < |s| && ChangesOnlyKeyQuotes(s, i + 1, rest)
    ensures ChangesOnlyKeyQuotes(s, i, [s[i]] + rest)
  {
    var r := [s[i]] + rest;
    forall k | 1 <= k < |r| ensures r[k] == rest[k - 1] && s[i + k] == s[i + 1 + (k - 1)] {}
  }

  /**
   * One rewrite `'k':` to `"k":` for the quote at `i` whose next quote `j`
   * is followed by `:`, then the rewrite of the rest from `j + 2`.
   */
  lemma KeyRewrite(s: string, i: nat, j: nat, rest: string)
    requires i < j && j + 1 < |s| && s[i] == '\'' && s[j + 1] == ':'
    requires IndexOf(s, '\'', i + 1) == Some(j)
    requires ChangesOnlyKeyQuotes(s, j + 2, rest)
    ensures ChangesOnlyKeyQuotes(s, i, "\"" + s[i + 1..j] + "\":" + rest)
  {
    var r := "\"" + s[i + 1..j] + "\":" + rest;
    assert KeyQuote(s, i) && KeyQuote(s, j);
    forall k | 0 <= k < |r|
      ensures r[k] == s[i + k] || (s[i + k] == '\'' && r[k] == '"')
      ensures r[k] != s[i + k] ==> KeyQuote(s, i + k)
    {
      if k >= j + 2 - i {
        assert r[k] == rest[k - (j + 2 - i)];
      } else if 0 < k < j - i {
        assert r[k] == s[i + k];
      }
    }
  }

  /**
   * Line 40: every `'` that closes a quote-free run directly followed by
   * `:` and the `'` opening it become `"`; nothing else changes.
   */
  function QuoteKeys(s: string): (r: string)
    ensures |r| == |s|
    ensures forall k {:trigger r[k]} :: 0 <= k < |s| ==> r[k] == s[k] || (s[k] == '\'' && r[k] == '"')
    ensures forall k {:trigger r[k]} :: 0 <= k < |s| && r[k] != s[k] ==> KeyQuote(s, k)
  {
    QuoteKeysFromChanges(s, 0);
    QuoteKeysFrom(s, 0)
  }

  /**
   * The rewrite's pattern starts at `i`: a `'` whose next `'`, at `j`, is
   * directly followed by `:`.
   */
  predicate KeyOpensAt(s: string, i: nat, j: nat)
  {
    i < j && j + 1 < |s| && s[i] == '\'' && s[j + 1] == ':' && IndexOf(s, '\'', i + 1) == Some(j)
  }

  /** Where the left-to-right scan of the rewrite resumes after trying the pattern at `i`. */
  function NextStop(s: string, i: nat): (r: nat)
    requires i < |s|
    ensures i < r <= |s|
    ensures (exists j :: KeyOpensAt(s, i, j)) ==> r >= 2 && KeyOpensAt(s, i, r - 2)
    ensures !(exists j :: KeyOpensAt(s, i, j)) ==> r == i + 1
  {
    match IndexOf(s, '\'', i + 1)
    case Some(j) =>
      if s[i] == '\'' && j + 1 < |s| && s[j + 1] == ':' then
        assert KeyOpensAt(s, i, j);
        j + 2
      else i + 1
    case None => i + 1
  }

  /** The scan started at `from` tries the pattern at `i`. */
  predicate Tried(s: string, from: nat, i: nat)
    requires from <= |s|
    decreases |s| - from
  {
    from == i || (from < i && from < |s| && Tried(s, NextStop(s, from), i))
  }

  /** The rewrite of `s[from..]` is the rewrite of the first step followed by the rewrite from the next stop. */
  lemma QuoteKeysFromStep(s: string, from: nat)
    requires from < |s|
    ensures var n := NextStop(s, from);
            QuoteKeysFrom(s, from)[n - from..] == QuoteKeysFrom(s, n)
  {
    var q := IndexOf(s, '\'', from + 1);
    if s[from] == '\'' && q.Some? && q.value + 1 < |s| && s[q.value + 1] == ':' {
      QuoteKeysFromAtKey(s, from, q.value);
    } else {
      QuoteKeysFromKeeps(s, from);
    }
  }

  /** `r` shows `"key":` with its quotes at `a` and `b`. */
  predicate KeyShownAt(r: string, a: nat, b: nat, key: string)
  {
    a < b && b + 1 < |r| && r[a] == '"' && r[b] == '"' && r[b + 1] == ':' && r[a + 1..b] == key
  }

  /** The quotes of a key rewritten by the scan from `from`, its text and its `:`. */
  predicate RewrittenFrom(s: string, from: nat, i: nat, j: nat)
    requires from <= i < j && j + 1 < |s|
  {
    KeyShownAt(QuoteKeysFrom(s, from), i - from, j - from, s[i + 1..j])
  }

  /** The rewrite from `from` ends with the rewrite from every index the scan tries. */
  lemma {:induction false} TriedSuffix(s: string, from: nat, i: nat)
    requires from <= |s| && Tried(s, from, i)
    ensures from <= i <= |s| && QuoteKeysFrom(s, from)[i - from..] == QuoteKeysFrom(s, i)
    decreases |s| - from
  {
    if from < i {
      var n := NextStop(s, from);
      TriedSuffix(s, n, i);
      QuoteKeysFromStep(s, from);
      DropTwice(QuoteKeysFrom(s, from), QuoteKeysFrom(s, n), QuoteKeysFrom(s, i), n - from, i - n, i - from);
    }
  }

  /** Dropping `a` then `b` elements is dropping `c == a + b`. */
  lemma DropTwice(r: string, t: string, u: string, a: nat, b: nat, c: nat)
    requires a <= |r| && r[a..] == t && b <= |t| && t[b..] == u && c == a + b
    ensures r[c..] == u
  {
  }

  /**
   * A key the scan from `from` reaches is rewritten: its two quotes become
   * `"` and its text and the `:` are kept.
   */
  lemma TriedKeyRewritten(s: string, from: nat, i: nat, j: nat)
    requires from <= |s| && Tried(s, from, i) && KeyOpensAt(s, i, j)
    ensures from <= i && RewrittenFrom(s, from, i, j)
  {
    TriedSuffix(s, from, i);
    KeyRewrittenHere(s, i, j);
    ShiftedKey(QuoteKeysFrom(s, from), QuoteKeysFrom(s, i), i - from, 0, j - i, i - from, j - from, s[i + 1..j]);
  }

  /** A key at the place the scan tries is rewritten. */
  lemma KeyRewrittenHere(s: string, i: nat, j: nat)
    requires KeyOpensAt(s, i, j)
    ensures KeyShownAt(QuoteKeysFrom(s, i), 0, j - i, s[i + 1..j])
  {
    QuoteKeysFromAtKey(s, i, j);
    RewrittenKeyLayout(s[i + 1..j], QuoteKeysFrom(s, j + 2));
  }

  /** Where the quotes, the text and the `:` of a rewritten key sit. */
  lemma RewrittenKeyLayout(key: string, rest: string)
    ensures KeyShownAt("\"" + key + "\":" + rest, 0, |key| + 1, key)
  {
  }

  /** A key shown in the suffix of `r` from `d` is shown in `r`, `d` further on. */
  lemma ShiftedKey(r: string, t: string, d: nat, a: nat, b: nat, a': nat, b': nat, key: string)
    requires d <= |r| && r[d..] == t
    requires KeyShownAt(t, a, b, key) && a' == d + a && b' == d + b
    ensures KeyShownAt(r, a', b', key)
  {
    assert forall k :: d <= k < |r| ==> r[k] == t[k - d];
    assert r[a' + 1..b'] == t[a + 1..b];
  }

  /** The scan from `from` that tries `i` goes on to the next stop after `i`. */
  lemma {:induction false} TriedNext(s: string, from: nat, i: nat)
    requires from <= |s| && i < |s| && Tried(s, from, i)
    ensures Tried(s, from, NextStop(s, i))
    decreases |s| - from
  {
    if from < i {
      TriedNext(s, NextStop(s, from), i);
    }
  }

  /** The scan passes every position of a stretch without `'` after a position it tries. */
  lemma {:induction false} TriedThroughPlain(s: string, from: nat, i: nat, m: nat)
    requires from <= |s| && i <= m <= |s| && Tried(s, from, i)
    requires forall k :: i <= k < m ==> s[k] != '\''
    ensures Tried(s, from, m)
    decreases m - i
  {
    if i < m {
      TriedNext(s, from, i);
      TriedThroughPlain(s, from, i + 1, m);
    }
  }

  /** Line 40: the first single-quoted key of a text is double-quoted, its text and `:` kept. */
  lemma FirstKeyRewritten(s: string, i: nat, j: nat)
    requires KeyOpensAt(s, i, j)
    requires forall k :: 0 <= k < i ==> s[k] != '\''
    ensures var r := QuoteKeys(s);
            r[i] == '"' && r[j] == '"' && r[j + 1] == ':' && r[i + 1..j] == s[i + 1..j]
  {
    TriedThroughPlain(s, 0, 0, i);
    TriedKeyRewritten(s, 0, i, j);
    assert KeyShownAt(QuoteKeys(s), i, j, s[i + 1..j]);
  }

  /* ---- The whole pipeline ---- */

  /**
   * The working text after lines 13-36 starts with `{`, and it ends with
   * `}` unless the stripped text started with `{` and had no `}` at all.
   */
  predicate UnclosedObject(raw: string, header: string)
  {
    var t := WithoutHeader(raw, header);
    StartsWith(t, "{") && BraceSpan(t).None?
  }

  /** Lines 13-40: the text that `json.loads` is given. */
  function Prepared(raw: string, header: string): (r: string)
    ensures |r| > 0 && r[0] == '{'
    ensures !UnclosedObject(raw, header) ==> r[|r| - 1] == '}'
  {
    var u := Recover(CutSpan(WithoutHeader(raw, header)));
    var r := QuoteKeys(u);
    RecoverCloses(WithoutHeader(raw, header));
    assert r[0] == u[0] && r[|r| - 1] == u[|u| - 1];
    r
  }

  /** The span cut and the recovery (lines 20-36) leave a text that ends with `}`, unless it starts with `{` and has no `}` at all. */
  lemma RecoverCloses(w: string)
    ensures var u := Recover(CutSpan(w));
            !(StartsWith(w, "{") && BraceSpan(w).None?) ==> u[|u| - 1] == '}'
  {
    var t := CutSpan(w);
    if BraceSpan(w).Some? {
      assert t[..1] == "{";
    } else if !StartsWith(w, "{") && ScoreAndFeedback(w).Some? {
      var (d, f) := ScoreAndFeedback(w).value;
      assert RecordText(d, f)[|RecordText(d, f)| - 1] == '}';
    }
  }

  /**
   * `extract_json_from_response`: the decoded dict, the score/feedback
   * record recovered from the prepared text when decoding fails, or the
   * original decode error.
   */
  function Extract(raw: string, header: string): (r: Result<Json, DecodeError>)
    ensures r.Success? ==> r.value.Obj?
    ensures Loads(Prepared(raw, header)).Success? ==> r == Loads(Prepared(raw, header))
    ensures Loads(Prepared(raw, header)).Failure? && r.Success? ==>
              exists n: nat, f: string :: r.value == ScoreRecord(n, f)
    ensures Loads(Prepared(raw, header)).Failure? ==>
              match ScoreAndFeedback(Prepared(raw, header))
              case Some((d, f)) => r == Success(ScoreRecord(DigitsValue(d), f))
              case None => r == Failure(Loads(Prepared(raw, header)).error)
    ensures r.Failure? ==> r.error == Loads(Prepared(raw, header)).error
  {
    var text := Prepared(raw, header);
    match Loads(text)
    case Success(v) => Success(v)
    case Failure(e) =>
      match ScoreAndFeedback(text)
      case Some((d, f)) => Success(ScoreRecord(DigitsValue(d), f))
      case None => Failure(e)
  }
}
