/** What the extractor promises, stated over whole inputs. */
module ExtractorProperties {
  import opened Wrappers
  import opened Text
  import opened Json
  import opened Extractor

  /** The decoder reads `{}` as the empty dict. */
  lemma LoadsEmptyObject()
    ensures Loads("{}") == Success(Obj(map[]))
  {
    var s := "{}";
    assert SkipWs(s, 0) == 0;
    assert SkipWs(s, 1) == 1;
    assert Object(s, 0) == Success(Read(Obj(map[]), 2));
  }

  /** Empty or whitespace-only text becomes `{}` and yields the empty dict, whatever the header. */
  lemma EmptyInputGivesEmptyDict(raw: string, header: string)
    requires AllSpace(raw)
    ensures Prepared(raw, header) == "{}"
    ensures Extract(raw, header) == Success(Obj(map[]))
  {
    StripAllSpace(raw);
    assert Strip([]) == [];
    var t := WithoutHeader(raw, header);
    assert t == [];
    assert CutSpan(t) == [];
    assert Search(ScorePattern, t, 0).None?;
    assert Recover(t) == "{}";
    var q := QuoteKeys("{}");
    assert q[0] == '{' && q[1] == '}';
    assert q == "{}";
    LoadsEmptyObject();
  }

  predicate NoSingleQuote(t: string)
  {
    forall k :: 0 <= k < |t| ==> t[k] != '\''
  }

  /** Text without `'` is left alone by the key rewrite. */
  lemma QuoteKeysWithoutSingleQuotes(s: string)
    requires NoSingleQuote(s)
    ensures QuoteKeys(s) == s
  {
  }

  /** A text that starts with `{` and ends with `}` is its own greedy span. */
  lemma CutSpanWhole(t: string)
    requires |t| >= 2 && t[0] == '{' && t[|t| - 1] == '}'
    ensures CutSpan(t) == t
  {
    assert SpanMatch(t, 0, |t| - 1);
  }

  /** Lines 20-40 leave an object text without `'` as it is. */
  lemma RepairLeavesObjectText(t: string)
    requires |t| >= 2 && t[0] == '{' && t[|t| - 1] == '}' && NoSingleQuote(t)
    ensures QuoteKeys(Recover(CutSpan(t))) == t
  {
    CutSpanWhole(t);
    QuoteKeysWithoutSingleQuotes(t);
  }

  /**
   * A reply that, once stripped and without its header, is a JSON object
   * text with no `'` in it, decodes exactly as `json.loads` would decode
   * that text: none of the repairs at lines 20-40 touches it.
   */
  lemma ObjectTextPassesThrough(raw: string, header: string)
    requires var t := WithoutHeader(raw, header);
             |t| >= 2 && t[0] == '{' && t[|t| - 1] == '}' && NoSingleQuote(t)
    ensures Prepared(raw, header) == WithoutHeader(raw, header)
    ensures Loads(WithoutHeader(raw, header)).Success? ==>
              Extract(raw, header) == Loads(WithoutHeader(raw, header))
  {
    RepairLeavesObjectText(WithoutHeader(raw, header));
  }

  /** Where the pieces of a record text `{"score": d, "feedback": "f"}` sit; `p` is the index just past the digits. */
  predicate RecordShape(s: string, d: string, f: string)
  {
    var p := 10 + |d|;
    && |s| == p + 17 + |f|
    && s[0] == '{' && s[1] == '"' && s[2..7] == "score" && s[7] == '"' && s[8] == ':' && s[9] == ' '
    && s[10..p] == d
    && s[p] == ',' && s[p + 1] == ' ' && s[p + 2] == '"' && s[p + 3..p + 11] == "feedback"
    && s[p + 11] == '"' && s[p + 12] == ':' && s[p + 13] == ' ' && s[p + 14] == '"'
    && s[p + 15..p + 15 + |f|] == f
    && s[p + 15 + |f|] == '"' && s[p + 16 + |f|] == '}'
  }

  lemma RecordTextLayout(d: string, f: string)
    ensures RecordShape(RecordText(d, f), d, f)
  {
    var s := RecordText(d, f);
    var p := 10 + |d|;
    var head, mid := "{\"score\": ", ", \"feedback\": \"";
    PiecesInPlace(head, d, mid, f, "\"}");
    HeadInPlace(s, head);
    HeadInPlace(s[p..], mid);
    assert s[p..][..15] == s[p..p + 15];
    assert s[p..][3..11] == s[p + 3..p + 11];
    assert s[p + 15 + |f|..] == "\"}";
  }

  /** In `a + d + b + f + c`, with `a` of length 10 and `b` of 15, the digits sit at 10 and the feedback at `25 + |d|`. */
  lemma PiecesInPlace(a: string, d: string, b: string, f: string, c: string)
    requires |a| == 10 && |b| == 15
    ensures var s := a + d + b + f + c;
            && s[..10] == a && s[10..10 + |d|] == d && s[10 + |d|..25 + |d|] == b
            && s[25 + |d|..25 + |d| + |f|] == f && s[25 + |d| + |f|..] == c
  {
    var s := a + d + b + f + c;
    forall k | 0 <= k < |d| ensures s[10 + k] == d[k] {}
    forall k | 0 <= k < |b| ensures s[10 + |d| + k] == b[k] {}
    forall k | 0 <= k < |f| ensures s[25 + |d| + k] == f[k] {}
    forall k | 0 <= k < |c| ensures s[25 + |d| + |f| + k] == c[k] {}
  }

  /** A slice equal to a known head gives its characters and inner slices. */
  lemma HeadInPlace(s: string, a: string)
    requires |a| <= |s| && s[..|a|] == a
    ensures forall k :: 0 <= k < |a| ==> s[k] == a[k]
    ensures forall i, j :: 0 <= i <= j <= |a| ==> s[i..j] == a[i..j]
  {
    assert forall k :: 0 <= k < |a| ==> s[k] == s[..|a|][k];
  }

  /** A member `"key": ` at `j` whose value starts at `v`. */
  predicate KeyAt(s: string, j: nat, key: string)
  {
    var v := j + |key| + 4;
    && v < |s| && !IsWs(s[v])
    && s[j] == '"' && s[j + 1..j + 1 + |key|] == key && s[j + 1 + |key|] == '"'
    && s[j + 2 + |key|] == ':' && s[j + 3 + |key|] == ' '
  }

  /** The key of a member at `j`, its quotes, the colon and the blank after it read up to the value at `j + |key| + 4`. */
  lemma KeyReads(s: string, j: nat, key: string)
    requires PlainText(key) && KeyAt(s, j, key)
    ensures String(s, j + 1) == Success(Read(key, j + 2 + |key|))
    ensures SkipWs(s, j + 2 + |key|) == j + 2 + |key|
    ensures SkipWs(s, j + 3 + |key|) == j + |key| + 4
  {
    StringReadsPlain(s, j + 1, |key|);
    assert SkipWs(s, j + 3 + |key|) == j + |key| + 4;
  }

  /** A member with a plain key reads as that key and the value after it. */
  lemma MemberReads(s: string, j: nat, key: string, x: Json, m: nat)
    requires PlainText(key) && KeyAt(s, j, key)
    requires Value(s, j + |key| + 4) == Success(Read(x, m))
    ensures Member(s, j) == Success(Read((key, x), m))
  {
    KeyReads(s, j, key);
    var k := j + 2 + |key|;
    assert s[j] == '"' && s[k] == ':';
    assert Value(s, SkipWs(s, k + 1)) == Success(Read(x, m));
  }

  /** After a member, `, ` followed by a non-blank character moves on to the next member. */
  lemma CommaStep(s: string, m: nat, fields: map<string, Json>)
    requires m + 2 < |s| && s[m] == ',' && s[m + 1] == ' ' && !IsWs(s[m + 2])
    ensures AfterMember(s, m, fields) == Members(s, m + 2, fields)
  {
    assert SkipWs(s, m) == m;
    assert SkipWs(s, m + 1) == m + 2;
  }

  /** After a member, `}` closes the object with the fields read so far. */
  lemma CloseStep(s: string, m: nat, fields: map<string, Json>)
    requires m < |s| && s[m] == '}'
    ensures AfterMember(s, m, fields) == Success(Read(Obj(fields), m + 1))
  {
    assert SkipWs(s, m) == m;
  }

  /** A string literal `"text"` with plain text reads as that string. */
  lemma ValueReadsPlainString(s: string, v: nat, text: string)
    requires PlainText(text) && v + |text| + 1 < |s| && s[v] == '"'
    requires s[v + 1..v + 1 + |text|] == text && s[v + 1 + |text|] == '"'
    ensures Value(s, v) == Success(Read(Str(text), v + |text| + 2))
  {
    StringReadsPlain(s, v + 1, |text|);
  }

  /** A member `"key": "text"` at `j` followed by `}` closes the object. */
  lemma LastStringMemberDecodes(s: string, j: nat, key: string, text: string, fields: map<string, Json>)
    requires PlainText(key) && PlainText(text) && KeyAt(s, j, key)
    requires var v := j + |key| + 4;
             && v + |text| + 2 < |s| && s[v] == '"'
             && s[v + 1..v + 1 + |text|] == text && s[v + 1 + |text|] == '"' && s[v + 2 + |text|] == '}'
    ensures Members(s, j, fields)
              == Success(Read(Obj(fields[key := Str(text)]), j + |key| + |text| + 7))
  {
    var v := j + |key| + 4;
    ValueReadsPlainString(s, v, text);
    ValueMemberCloses(s, j, key, Str(text), v + |text| + 2, fields);
  }

  /** A member `"key": ` at `j` whose value reads up to `m`, followed by `}`. */
  lemma ValueMemberCloses(s: string, j: nat, key: string, x: Json, m: nat, fields: map<string, Json>)
    requires PlainText(key) && KeyAt(s, j, key)
    requires Value(s, j + |key| + 4) == Success(Read(x, m))
    requires m < |s| && s[m] == '}'
    ensures Members(s, j, fields) == Success(Read(Obj(fields[key := x]), m + 1))
  {
    MemberReads(s, j, key, x, m);
    MembersStep(s, j, fields);
    CloseStep(s, m, fields[key := x]);
  }

  /** A member `"key": D` at `j` with plain digits `D`, followed by `, ` and more members. */
  lemma DigitsMemberDecodes(s: string, j: nat, key: string, n: nat, fields: map<string, Json>)
    requires PlainText(key) && KeyAt(s, j, key)
    requires var v := j + |key| + 4;
             && v + n + 2 < |s| && 0 < n
             && AllDigits(s[v..v + n]) && (s[v] != '0' || n == 1)
             && s[v + n] == ',' && s[v + n + 1] == ' ' && !IsWs(s[v + n + 2])
    ensures var v := j + |key| + 4;
            Members(s, j, fields)
              == Members(s, v + n + 2, fields[key := Int(DigitsValue(s[v..v + n]))])
  {
    var v := j + |key| + 4;
    ValueReadsDigits(s, v, n);
    ValueMemberThenComma(s, j, key, Int(DigitsValue(s[v..v + n])), v + n, fields);
  }

  /** A member `"key": ` at `j` whose value reads up to `m`, followed by `, ` and more members. */
  lemma ValueMemberThenComma(s: string, j: nat, key: string, x: Json, m: nat, fields: map<string, Json>)
    requires PlainText(key) && KeyAt(s, j, key)
    requires Value(s, j + |key| + 4) == Success(Read(x, m))
    requires m + 2 < |s| && s[m] == ',' && s[m + 1] == ' ' && !IsWs(s[m + 2])
    ensures Members(s, j, fields) == Members(s, m + 2, fields[key := x])
  {
    MemberReads(s, j, key, x, m);
    MembersStep(s, j, fields);
    CommaStep(s, m, fields[key := x]);
  }

  /** A member `"key": 0D` at `j`, whose value has a leading zero: the digit after `0` is no delimiter. */
  lemma LeadingZeroMemberFails(s: string, j: nat, key: string, fields: map<string, Json>)
    requires PlainText(key) && KeyAt(s, j, key)
    requires var v := j + |key| + 4;
             v + 1 < |s| && s[v] == '0' && IsDigit(s[v + 1])
    ensures Members(s, j, fields).Failure?
  {
    var v := j + |key| + 4;
    ValueReadsLeadingZero(s, v);
    ValueMemberFollowedBy(s, j, key, Int(0), v + 1, fields);
  }

  /** A member whose value is followed by something other than blanks, `,` or `}` fails. */
  lemma ValueMemberFollowedBy(s: string, j: nat, key: string, x: Json, m: nat, fields: map<string, Json>)
    requires PlainText(key) && KeyAt(s, j, key)
    requires Value(s, j + |key| + 4) == Success(Read(x, m))
    requires m < |s| && !IsWs(s[m]) && s[m] != ',' && s[m] != '}'
    ensures Members(s, j, fields).Failure?
  {
    MemberReads(s, j, key, x, m);
    MembersStep(s, j, fields);
    assert SkipWs(s, m) == m;
  }

  /** `Members` reads one member, then goes on after it. */
  lemma MembersStep(s: string, j: nat, fields: map<string, Json>)
    requires j <= |s| && Member(s, j).Success?
    ensures var m := Member(s, j).value;
            Members(s, j, fields) == AfterMember(s, m.next, fields[m.value.0 := m.value.1])
  {
  }

  /** An object text whose members, read from index 1, end exactly at its end decodes to them. */
  lemma ObjectMembersLoad(s: string, r: Json)
    requires |s| > 2 && s[0] == '{' && s[1] == '"' && s[|s| - 1] == '}'
    requires Members(s, 1, map[]) == Success(Read(r, |s|))
    ensures Loads(s) == Success(r)
  {
    assert SkipWs(s, 1) == 1;
    assert Object(s, 0) == Members(s, 1, map[]);
    assert SkipWs(s, 0) == 0;
    assert SkipWs(s, |s|) == |s|;
  }

  /** The score member of a record shape. */
  lemma RecordScoreMember(s: string, d: string, f: string)
    requires RecordShape(s, d, f)
    requires |d| > 0 && AllDigits(d) && (d[0] != '0' || |d| == 1)
    ensures Members(s, 1, map[]) == Members(s, 10 + |d| + 2, map["score" := Int(DigitsValue(d))])
  {
    assert s[10] == d[0] && IsDigit(s[10]);
    assert KeyAt(s, 1, "score");
    DigitsMemberDecodes(s, 1, "score", |d|, map[]);
  }

  /** The feedback member of a record shape, which closes the object. */
  lemma RecordFeedbackMember(s: string, d: string, f: string, fields: map<string, Json>)
    requires RecordShape(s, d, f) && PlainText(f)
    ensures Members(s, 10 + |d| + 2, fields) == Success(Read(Obj(fields["feedback" := Str(f)]), |s|))
  {
    assert KeyAt(s, 10 + |d| + 2, "feedback");
    LastStringMemberDecodes(s, 10 + |d| + 2, "feedback", f, fields);
  }

  /** A text shaped like a record, with plain digits and plain feedback, decodes to the record. */
  lemma RecordShapeDecodes(s: string, d: string, f: string)
    requires RecordShape(s, d, f)
    requires |d| > 0 && AllDigits(d) && (d[0] != '0' || |d| == 1)
    requires PlainText(f)
    ensures Loads(s) == Success(ScoreRecord(DigitsValue(d), f))
  {
    var n := DigitsValue(d);
    var fields := map["score" := Int(n)];
    assert fields["feedback" := Str(f)] == map["score" := Int(n), "feedback" := Str(f)];
    RecordScoreMember(s, d, f);
    RecordFeedbackMember(s, d, f, fields);
    var r := ScoreRecord(n, f);
    assert Members(s, 1, map[]) == Success(Read(r, |s|));
    assert |s| > 2 && s[0] == '{' && s[1] == '"' && s[|s| - 1] == '}';
    ObjectMembersLoad(s, r);
  }

  /**
   * The record text built at line 33 decodes to the record, when the
   * digits have no superfluous leading zero and the feedback needs no
   * escaping.
   */
  lemma RecordTextDecodes(d: string, f: string)
    requires |d| > 0 && AllDigits(d) && (d[0] != '0' || |d| == 1)
    requires PlainText(f)
    ensures Loads(RecordText(d, f)) == Success(ScoreRecord(DigitsValue(d), f))
  {
    RecordTextLayout(d, f);
    RecordShapeDecodes(RecordText(d, f), d, f);
  }

  /** A search finds the first index where the pattern matches. */
  lemma {:induction false} SearchFinds(p: Pattern, s: string, from: nat, k: nat, g: Span)
    requires from <= k <= |s| && MatchAt(p, s, k) == Some(g)
    requires forall i :: from <= i < k ==> MatchAt(p, s, i).None?
    ensures Search(p, s, from) == Some(Match(k, g))
    decreases k - from
  {
    if from < k {
      SearchFinds(p, s, from + 1, k, g);
    }
  }

  /** In a record shape the score pattern first matches at 1, with the digits as its group. */
  lemma ScoreInRecord(s: string, d: string, f: string)
    requires RecordShape(s, d, f) && |d| > 0 && AllDigits(d)
    ensures Search(ScorePattern, s, 0) == Some(Match(1, Span(10, 10 + |d|)))
  {
    var p := 10 + |d|;
    assert s[1..9] == [s[1]] + s[2..7] + [s[7], s[8]];
    assert At(s, 1, Key(ScorePattern));
    assert !At(s, 0, Key(ScorePattern));
    assert IsDigit(s[10..p][0]);
    assert SpaceEnd(s, 10) == 10;
    assert SpaceEnd(s, 9) == 10;
    forall k | 10 <= k < p ensures IsDigit(s[k]) { assert s[k] == s[10..p][k - 10]; }
    assert DigitsEnd(s, 10) == p;
    SearchFinds(ScorePattern, s, 0, 1, Span(10, p));
  }

  /** Where the feedback key cannot start in a record shape: anywhere before its own place. */
  lemma NoFeedbackKeyBefore(s: string, d: string, f: string, i: nat)
    requires RecordShape(s, d, f) && AllDigits(d) && i < 12 + |d|
    ensures !At(s, i, Key(FeedbackPattern))
  {
    var p := 10 + |d|;
    if i == 1 {
      assert s[2] == s[2..7][0];
    } else if 2 <= i < 7 {
      assert s[i] == s[2..7][i - 2];
    } else if 10 <= i < p {
      assert s[i] == s[10..p][i - 10];
    }
    assert s[i] != '"' || s[i + 1] != 'f';
    if i + 11 <= |s| {
      assert s[i..i + 11][0] == s[i] && s[i..i + 11][1] == s[i + 1];
    }
  }

  /** In a record shape the feedback pattern first matches at the feedback key, with the feedback as its group. */
  lemma FeedbackInRecord(s: string, d: string, f: string)
    requires RecordShape(s, d, f) && AllDigits(d) && NoQuote(f)
    ensures var p := 10 + |d|;
            Search(FeedbackPattern, s, 0) == Some(Match(p + 2, Span(p + 15, p + 15 + |f|)))
  {
    var p := 10 + |d|;
    forall i | 0 <= i < p + 2 ensures MatchAt(FeedbackPattern, s, i).None? {
      NoFeedbackKeyBefore(s, d, f, i);
    }
    assert s[p + 2..p + 13] == [s[p + 2]] + s[p + 3..p + 11] + [s[p + 11], s[p + 12]];
    assert At(s, p + 2, Key(FeedbackPattern));
    assert SpaceEnd(s, p + 14) == p + 14;
    assert SpaceEnd(s, p + 13) == p + 14;
    forall k | p + 15 <= k < p + 15 + |f| ensures s[k] != '"' { assert s[k] == s[p + 15..p + 15 + |f|][k - p - 15]; }
    assert IndexOf(s, '"', p + 15) == Some(p + 15 + |f|);
    SearchFinds(FeedbackPattern, s, 0, p + 2, Span(p + 15, p + 15 + |f|));
  }

  /** Both recovery patterns find their groups again in the record text. */
  lemma RecordTextSearches(d: string, f: string)
    requires |d| > 0 && AllDigits(d) && NoQuote(f)
    ensures ScoreAndFeedback(RecordText(d, f)) == Some((d, f))
  {
    var s := RecordText(d, f);
    var p := 10 + |d|;
    RecordTextLayout(d, f);
    ScoreInRecord(s, d, f);
    FeedbackInRecord(s, d, f);
    assert Group(s, Match(1, Span(10, p))) == d;
    assert Group(s, Match(p + 2, Span(p + 15, p + 15 + |f|))) == f;
  }

  /** With a leading zero the score is not a JSON number, so the record text does not decode. */
  lemma LeadingZeroRecordFails(s: string, d: string, f: string)
    requires RecordShape(s, d, f) && |d| > 1 && AllDigits(d) && d[0] == '0'
    ensures Loads(s).Failure?
  {
    var p := 10 + |d|;
    assert s[10] == s[10..p][0] && s[11] == s[10..p][1];
    assert KeyAt(s, 1, "score");
    LeadingZeroMemberFails(s, 1, "score", map[]);
    assert SkipWs(s, 1) == 1;
    assert Object(s, 0).Failure?;
    assert SkipWs(s, 0) == 0;
  }

  /** The record text holds a `'` only where the feedback does. */
  lemma RecordTextHasNoSingleQuote(d: string, f: string)
    requires AllDigits(d) && NoSingleQuote(f)
    ensures NoSingleQuote(RecordText(d, f))
  {
  }

  /**
   * Lines 30-33 end to end: when the text does not start with `{` and both
   * patterns match, the extractor returns the record
   * `{"score": int(D), "feedback": F}` of their groups, whether `json.loads`
   * accepts the rebuilt text or (with a leading zero in `D`) the fallback
   * reads the groups back.
   */
  lemma RecoveredRecord(raw: string, header: string)
    requires var t := CutSpan(WithoutHeader(raw, header));
             !StartsWith(t, "{") && ScoreAndFeedback(t).Some?
             && PlainText(ScoreAndFeedback(t).value.1) && NoSingleQuote(ScoreAndFeedback(t).value.1)
    ensures var (d, f) := ScoreAndFeedback(CutSpan(WithoutHeader(raw, header))).value;
            Prepared(raw, header) == RecordText(d, f)
            && Extract(raw, header) == Success(ScoreRecord(DigitsValue(d), f))
  {
    var t := CutSpan(WithoutHeader(raw, header));
    var (d, f) := ScoreAndFeedback(t).value;
    var s := RecordText(d, f);
    RecordTextHasNoSingleQuote(d, f);
    QuoteKeysWithoutSingleQuotes(s);
    assert Prepared(raw, header) == s;
    RecordTextExtracts(raw, header, d, f);
  }

  /**
   * A reply whose prepared text is a record text yields that record:
   * `json.loads` reads it, or with a leading zero in the digits the
   * fallback reads the two groups back.
   */
  lemma RecordTextExtracts(raw: string, header: string, d: string, f: string)
    requires Prepared(raw, header) == RecordText(d, f)
    requires |d| > 0 && AllDigits(d) && PlainText(f)
    ensures Extract(raw, header) == Success(ScoreRecord(DigitsValue(d), f))
  {
    var s := RecordText(d, f);
    if d[0] != '0' || |d| == 1 {
      RecordTextDecodes(d, f);
    } else {
      RecordTextLayout(d, f);
      LeadingZeroRecordFails(s, d, f);
      RecordTextSearches(d, f);
    }
  }

  predicate NoChar(t: string, c: char)
  {
    forall k :: 0 <= k < |t| ==> t[k] != c
  }

  /** The greedy span of `pre + m + post` is `m` when `m` starts with `{` and ends with `}`, `pre` has no `{` and `post` no `}`. */
  lemma CutSpanAmidProse(pre: string, m: string, post: string)
    requires |m| >= 2 && m[0] == '{' && m[|m| - 1] == '}'
    requires NoChar(pre, '{') && NoChar(post, '}')
    ensures CutSpan(pre + m + post) == m
  {
    var t := pre + m + post;
    var i, j := |pre|, |pre| + |m| - 1;
    assert SpanMatch(t, i, j);
    var span := BraceSpan(t).value;
    assert t[span.0] == '{' && t[span.1] == '}';
    assert span.0 == i && span.1 == j;
    assert t[i..j + 1] == m;
  }

  /**
   * A record `{"score": D, "feedback": "F"}` amid prose (none of it a `{`
   * before the record or a `}` after it) is cut out and returned as the
   * record, whatever the digits.
   */
  lemma RecordAmidProse(raw: string, header: string, pre: string, post: string, d: string, f: string)
    requires WithoutHeader(raw, header) == pre + RecordText(d, f) + post
    requires NoChar(pre, '{') && NoChar(post, '}')
    requires |d| > 0 && AllDigits(d) && PlainText(f) && NoSingleQuote(f)
    ensures Prepared(raw, header) == RecordText(d, f)
    ensures Extract(raw, header) == Success(ScoreRecord(DigitsValue(d), f))
  {
    RecordCutOut(WithoutHeader(raw, header), pre, post, d, f);
    RecordTextExtracts(raw, header, d, f);
  }

  /** Lines 20-40 on a record amid prose leave exactly the record text. */
  lemma RecordCutOut(w: string, pre: string, post: string, d: string, f: string)
    requires w == pre + RecordText(d, f) + post
    requires NoChar(pre, '{') && NoChar(post, '}')
    requires AllDigits(d) && NoSingleQuote(f)
    ensures QuoteKeys(Recover(CutSpan(w))) == RecordText(d, f)
  {
    var s := RecordText(d, f);
    RecordTextBraces(d, f);
    CutSpanAmidProse(pre, s, post);
    RecordTextHasNoSingleQuote(d, f);
    QuoteKeysWithoutSingleQuotes(s);
  }

  /** The record text is braced. */
  lemma RecordTextBraces(d: string, f: string)
    ensures var s := RecordText(d, f);
            |s| >= 2 && s[0] == '{' && s[|s| - 1] == '}' && StartsWith(s, "{") && Recover(s) == s
  {
    var s := RecordText(d, f);
    assert s[..1] == "{";
  }
}
