/**
 * A model of the `json.loads` call that the extractor makes: the JSON
 * grammar of RFC 8259 (objects, arrays, strings, numbers and the three
 * literals) as read by CPython's default (C) scanner, which also accepts
 * the constants NaN, Infinity and -Infinity and rejects raw control
 * characters inside strings.
 *
 * Every reader takes the text and a start index and returns the value
 * read together with the index just past it, or the kind of
 * `JSONDecodeError` it raises.
 */
module Json {
  import opened Wrappers

  /** A decoded JSON value; an object is a Python dict, so a later duplicate key wins. */
  datatype Json =
    | Null
    | Bool(b: bool)
    | Int(i: int)
    | Float(lexeme: string)   // a number with a fraction or exponent, or NaN/Infinity; kept as written
    | Str(s: string)
    | Arr(items: seq<Json>)
    | Obj(fields: map<string, Json>)

  datatype DecodeError =
    | ExpectingValue
    | ExpectingPropertyName
    | ExpectingColon
    | ExpectingDelimiter
    | UnterminatedString
    | InvalidControlCharacter
    | InvalidEscape
    | LoneSurrogate
    | ExtraData
    | UnexpectedBom

  /** A value read from the text, and the index just past it. */
  datatype Read<+T> = Read(value: T, next: nat)

  predicate IsWs(c: char)
  {
    c == ' ' || c == '\t' || c == '\n' || c == '\r'
  }

  predicate IsDigit(c: char)
  {
    '0' <= c <= '9'
  }

  predicate AllDigits(d: string)
  {
    forall k :: 0 <= k < |d| ==> IsDigit(d[k])
  }

  /** The index of the first non-whitespace character at or after `i`. */
  function SkipWs(s: string, i: nat): (j: nat)
    requires i <= |s|
    ensures i <= j <= |s|
    ensures forall k :: i <= k < j ==> IsWs(s[k])
    ensures j == |s| || !IsWs(s[j])
    decreases |s| - i
  {
    if i < |s| && IsWs(s[i]) then SkipWs(s, i + 1) else i
  }

  /** The end of the longest run of digits that starts at `i`. */
  function DigitsEnd(s: string, i: nat): (j: nat)
    requires i <= |s|
    ensures i <= j <= |s|
    ensures forall k :: i <= k < j ==> IsDigit(s[k])
    ensures j == |s| || !IsDigit(s[j])
    decreases |s| - i
  {
    if i < |s| && IsDigit(s[i]) then DigitsEnd(s, i + 1) else i
  }

  /** Python's `int(d)` for a string of ASCII digits. */
  function DigitsValue(d: string): (n: nat)
    requires AllDigits(d)
    ensures n < Pow10(|d|)
  {
    if d == [] then 0
    else DigitsValue(d[..|d| - 1]) * 10 + (d[|d| - 1] as int - '0' as int)
  }

  function Pow10(n: nat): (p: nat)
    ensures p >= 1
  {
    if n == 0 then 1 else 10 * Pow10(n - 1)
  }

  /** Does `lit` occur in `s` starting at index `i`? */
  predicate At(s: string, i: nat, lit: string)
  {
    i + |lit| <= |s| && s[i..i + |lit|] == lit
  }

  function HexDigit(c: char): Option<nat>
  {
    if '0' <= c <= '9' then Some(c as nat - '0' as nat)
    else if 'a' <= c <= 'f' then Some(c as nat - 'a' as nat + 10)
    else if 'A' <= c <= 'F' then Some(c as nat - 'A' as nat + 10)
    else None
  }

  /** The four hex digits at `i`, as a UTF-16 code unit. */
  function Hex4(s: string, i: nat): (r: Option<nat>)
    requires i + 4 <= |s|
    ensures r.Some? ==> r.value < 0x1_0000
  {
    match (HexDigit(s[i]), HexDigit(s[i + 1]), HexDigit(s[i + 2]), HexDigit(s[i + 3]))
    case (Some(a), Some(b), Some(c), Some(d)) =>
      assert a < 16 && b < 16 && c < 16 && d < 16;
      Some(((a * 16 + b) * 16 + c) * 16 + d)
    case _ => None
  }

  predicate IsHighSurrogate(u: nat) { 0xD800 <= u <= 0xDBFF }
  predicate IsLowSurrogate(u: nat) { 0xDC00 <= u <= 0xDFFF }

  /**
   * The escape whose letter is at `j` (just after a backslash). A `\u`
   * escape that names a high surrogate joins with a following `\u` low
   * surrogate; one that is left unpaired is reported as LoneSurrogate.
   */
  function Escape(s: string, j: nat): (r: Result<Read<char>, DecodeError>)
    requires j <= |s|
    ensures r.Success? ==> j < r.value.next <= |s|
  {
    if j == |s| then Failure(UnterminatedString)
    else if s[j] != 'u' then
      match s[j]
      case '"' => Success(Read('"', j + 1))
      case '\\' => Success(Read('\\', j + 1))
      case '/' => Success(Read('/', j + 1))
      case 'b' => Success(Read('\U{08}', j + 1))
      case 'f' => Success(Read('\U{0C}', j + 1))
      case 'n' => Success(Read('\n', j + 1))
      case 'r' => Success(Read('\r', j + 1))
      case 't' => Success(Read('\t', j + 1))
      case _ => Failure(InvalidEscape)
    else if j + 5 >= |s| then Failure(InvalidEscape)
    else
      match Hex4(s, j + 1)
      case None => Failure(InvalidEscape)
      case Some(u) =>
        if IsHighSurrogate(u) then
          if j + 11 < |s| && s[j + 5] == '\\' && s[j + 6] == 'u' then
            match Hex4(s, j + 7)
            case None => Failure(InvalidEscape)
            case Some(w) =>
              if IsLowSurrogate(w) then
                Success(Read((0x1_0000 + (u - 0xD800) * 0x400 + (w - 0xDC00)) as char, j + 11))
              else Failure(LoneSurrogate)
          else Failure(LoneSurrogate)
        else if IsLowSurrogate(u) then Failure(LoneSurrogate)
        else Success(Read(u as char, j + 5))
  }

  /** The body of a string literal from `i` (just after its opening quote) to its closing quote. */
  function String(s: string, i: nat): (r: Result<Read<string>, DecodeError>)
    requires i <= |s|
    ensures r.Success? ==> i < r.value.next <= |s|
    decreases |s| - i
  {
    if i == |s| then Failure(UnterminatedString)
    else if s[i] == '"' then Success(Read([], i + 1))
    else if s[i] == '\\' then
      var e :- Escape(s, i + 1);
      var rest :- String(s, e.next);
      Success(Read([e.value] + rest.value, rest.next))
    else if s[i] < '\U{20}' then Failure(InvalidControlCharacter)
    else
      var rest :- String(s, i + 1);
      Success(Read([s[i]] + rest.value, rest.next))
  }

  /** The end of an exponent part starting at `p`, or `p` when there is none. */
  function ExponentEnd(s: string, p: nat): (q: nat)
    requires p <= |s|
    ensures p <= q <= |s|
  {
    if p + 1 < |s| && (s[p] == 'e' || s[p] == 'E') then
      var d := if p + 2 < |s| && (s[p + 1] == '-' || s[p + 1] == '+') then p + 2 else p + 1;
      var e := DigitsEnd(s, d);
      if e > d then e else p
    else p
  }

  /**
   * A number at `i`: `-?(0|[1-9][0-9]*)(\.[0-9]+)?([eE][-+]?[0-9]+)?`.
   * Without fraction and exponent it is an exact integer.
   */
  function Number(s: string, i: nat): (r: Result<Read<Json>, DecodeError>)
    requires i < |s|
    ensures r.Success? ==> i < r.value.next <= |s|
    ensures r.Success? ==> r.value.value.Int? || r.value.value.Float?
  {
    var a := if s[i] == '-' then i + 1 else i;
    if a == |s| || !IsDigit(s[a]) then Failure(ExpectingValue)
    else
      var intEnd := if s[a] == '0' then a + 1 else DigitsEnd(s, a + 1);
      var fracEnd := if intEnd + 1 < |s| && s[intEnd] == '.' && IsDigit(s[intEnd + 1])
                     then DigitsEnd(s, intEnd + 2) else intEnd;
      var expEnd := ExponentEnd(s, fracEnd);
      if expEnd == intEnd then
        DigitsSlice(s, a, intEnd);
        var n: int := DigitsValue(s[a..intEnd]);
        Success(Read(Int(if a == i then n else -n), intEnd))
      else Success(Read(Float(s[i..expEnd]), expEnd))
  }

  /** A run of digits in `s` is a digit string. */
  lemma DigitsSlice(s: string, lo: nat, hi: nat)
    requires lo <= hi <= |s|
    requires forall k :: lo <= k < hi ==> IsDigit(s[k])
    ensures AllDigits(s[lo..hi])
  {
    assert forall k :: 0 <= k < hi - lo ==> s[lo..hi][k] == s[lo + k];
  }

  /** A literal cannot occur where its first character does not. */
  lemma NotAt(s: string, i: nat, lit: string)
    requires i < |s| && |lit| > 0 && s[i] != lit[0]
    ensures !At(s, i, lit)
  {
    if i + |lit| <= |s| {
      assert s[i..i + |lit|][0] == s[i];
    }
  }

  /** At a digit, none of the literals occurs, so a scalar is read as a number. */
  lemma ScalarAtDigit(s: string, i: nat)
    requires i < |s| && IsDigit(s[i])
    ensures Scalar(s, i) == Number(s, i)
  {
    NotAt(s, i, "null");
    NotAt(s, i, "true");
    NotAt(s, i, "false");
    NotAt(s, i, "NaN");
    NotAt(s, i, "Infinity");
    NotAt(s, i, "-Infinity");
  }

  /** The literals and numbers: everything that does not start with `"`, `{` or `[`. */
  function Scalar(s: string, i: nat): (r: Result<Read<Json>, DecodeError>)
    requires i < |s|
    ensures r.Success? ==> i < r.value.next <= |s|
    ensures r.Success? ==> !r.value.value.Obj? && !r.value.value.Arr? && !r.value.value.Str?
  {
    if At(s, i, "null") then Success(Read(Null, i + 4))
    else if At(s, i, "true") then Success(Read(Bool(true), i + 4))
    else if At(s, i, "false") then Success(Read(Bool(false), i + 5))
    else if At(s, i, "NaN") then Success(Read(Float("NaN"), i + 3))
    else if At(s, i, "Infinity") then Success(Read(Float("Infinity"), i + 8))
    else if At(s, i, "-Infinity") then Success(Read(Float("-Infinity"), i + 9))
    else Number(s, i)
  }

  /**
   * Any JSON value starting exactly at `i`. Its kind is decided by its
   * first character; in particular it is an object exactly when that
   * character is `{`.
   */
  function Value(s: string, i: nat): (r: Result<Read<Json>, DecodeError>)
    requires i <= |s|
    ensures r.Success? ==> i < r.value.next <= |s|
    ensures r.Success? ==> (r.value.value.Obj? <==> s[i] == '{')
    ensures r.Success? ==> (r.value.value.Arr? <==> s[i] == '[')
    ensures r.Success? ==> (r.value.value.Str? <==> s[i] == '"')
    decreases |s| - i, 1
  {
    if i == |s| then Failure(ExpectingValue)
    else if s[i] == '"' then
      var str :- String(s, i + 1);
      Success(Read(Str(str.value), str.next))
    else if s[i] == '{' then Object(s, i)
    else if s[i] == '[' then Array(s, i)
    else Scalar(s, i)
  }

  function Object(s: string, i: nat): (r: Result<Read<Json>, DecodeError>)
    requires i < |s| && s[i] == '{'
    ensures r.Success? ==> i < r.value.next <= |s| && r.value.value.Obj?
    ensures r.Success? ==> s[r.value.next - 1] == '}'
    decreases |s| - i, 0
  {
    var j := SkipWs(s, i + 1);
    if j < |s| && s[j] == '}' then Success(Read(Obj(map[]), j + 1))
    else Members(s, j, map[])
  }

  /** One `"key": value` member starting at `j`. */
  function Member(s: string, j: nat): (r: Result<Read<(string, Json)>, DecodeError>)
    requires j <= |s|
    ensures r.Success? ==> j < r.value.next <= |s|
    decreases |s| - j, 1
  {
    if j == |s| || s[j] != '"' then Failure(ExpectingPropertyName)
    else
      var key :- String(s, j + 1);
      var k := SkipWs(s, key.next);
      if k == |s| || s[k] != ':' then Failure(ExpectingColon)
      else
        var v :- Value(s, SkipWs(s, k + 1));
        Success(Read((key.value, v.value), v.next))
  }

  /** The members of an object from index `j` on, added to those already read. */
  function Members(s: string, j: nat, fields: map<string, Json>): (r: Result<Read<Json>, DecodeError>)
    requires j <= |s|
    ensures r.Success? ==> j < r.value.next <= |s| && r.value.value.Obj?
    ensures r.Success? ==> s[r.value.next - 1] == '}'
    decreases |s| - j, 2
  {
    var m :- Member(s, j);
    AfterMember(s, m.next, fields[m.value.0 := m.value.1])
  }

  /** After a member: the closing `}`, or a `,` and more members. */
  function AfterMember(s: string, j: nat, fields: map<string, Json>): (r: Result<Read<Json>, DecodeError>)
    requires j <= |s|
    ensures r.Success? ==> j < r.value.next <= |s| && r.value.value.Obj?
    ensures r.Success? ==> s[r.value.next - 1] == '}'
    decreases |s| - j, 3
  {
    var m := SkipWs(s, j);
    if m < |s| && s[m] == '}' then Success(Read(Obj(fields), m + 1))
    else if m < |s| && s[m] == ',' then Members(s, SkipWs(s, m + 1), fields)
    else Failure(ExpectingDelimiter)
  }

  function Array(s: string, i: nat): (r: Result<Read<Json>, DecodeError>)
    requires i < |s| && s[i] == '['
    ensures r.Success? ==> i < r.value.next <= |s| && r.value.value.Arr?
    decreases |s| - i, 0
  {
    var j := SkipWs(s, i + 1);
    if j < |s| && s[j] == ']' then Success(Read(Arr([]), j + 1))
    else Elements(s, j, [])
  }

  /** The elements of an array from index `j` on, after those already read. */
  function Elements(s: string, j: nat, items: seq<Json>): (r: Result<Read<Json>, DecodeError>)
    requires j <= |s|
    ensures r.Success? ==> j < r.value.next <= |s| && r.value.value.Arr?
    decreases |s| - j, 2
  {
    var v :- Value(s, j);
    AfterElement(s, v.next, items + [v.value])
  }

  /** After an element: the closing `]`, or a `,` and more elements. */
  function AfterElement(s: string, j: nat, items: seq<Json>): (r: Result<Read<Json>, DecodeError>)
    requires j <= |s|
    ensures r.Success? ==> j < r.value.next <= |s| && r.value.value.Arr?
    decreases |s| - j, 3
  {
    var m := SkipWs(s, j);
    if m < |s| && s[m] == ']' then Success(Read(Arr(items), m + 1))
    else if m < |s| && s[m] == ',' then Elements(s, SkipWs(s, m + 1), items)
    else Failure(ExpectingDelimiter)
  }

  /**
   * `json.loads(s)`: one value, with only JSON whitespace around it. A text
   * that starts with `{` can only decode to an object.
   */
  function Loads(s: string): (r: Result<Json, DecodeError>)
    ensures r.Success? && |s| > 0 && s[0] == '{' ==> r.value.Obj?
    ensures r.Success? ==> exists k :: 0 <= k < |s| && !IsWs(s[k])
  {
    if |s| > 0 && s[0] == '\U{FEFF}' then Failure(UnexpectedBom)
    else
      var v :- Value(s, SkipWs(s, 0));
      if SkipWs(s, v.next) == |s| then Success(v.value) else Failure(ExtraData)
  }

  /** A character that stands for itself inside a string literal. */
  predicate IsPlainChar(c: char)
  {
    c != '"' && c != '\\' && c >= '\U{20}'
  }

  predicate PlainText(t: string)
  {
    forall k :: 0 <= k < |t| ==> IsPlainChar(t[k])
  }

  /** A string literal without escapes reads back as its own body. */
  lemma {:induction false} StringReadsPlain(s: string, i: nat, n: nat)
    requires i + n < |s| && PlainText(s[i..i + n]) && s[i + n] == '"'
    ensures String(s, i) == Success(Read(s[i..i + n], i + n + 1))
    decreases n
  {
    if n > 0 {
      assert IsPlainChar(s[i..i + n][0]);
      assert s[i + 1..i + n] == s[i..i + n][1..];
      StringReadsPlain(s, i + 1, n - 1);
      assert s[i..i + n] == [s[i]] + s[i + 1..i + n];
      assert String(s, i) == Success(Read([s[i]] + s[i + 1..i + n], i + n + 1));
    } else {
      assert s[i] == '"';
      assert s[i..i + n] == [];
    }
  }

  /** A run of digits followed by something else ends where the run ends. */
  lemma {:induction false} DigitsEndOfRun(s: string, i: nat, n: nat)
    requires i + n <= |s| && AllDigits(s[i..i + n]) && (i + n == |s| || !IsDigit(s[i + n]))
    ensures DigitsEnd(s, i) == i + n
    decreases n
  {
    if n > 0 {
      assert IsDigit(s[i..i + n][0]);
      assert s[i + 1..i + n] == s[i..i + n][1..];
      DigitsEndOfRun(s, i + 1, n - 1);
    }
  }

  /**
   * Digits without a superfluous leading zero, followed by a character
   * that cannot continue a number, read as that integer.
   */
  lemma NumberReadsDigits(s: string, i: nat, n: nat)
    requires 0 < n && i + n < |s| && AllDigits(s[i..i + n]) && (s[i] != '0' || n == 1)
    requires !IsDigit(s[i + n]) && s[i + n] != '.' && s[i + n] != 'e' && s[i + n] != 'E'
    ensures Number(s, i) == Success(Read(Int(DigitsValue(s[i..i + n])), i + n))
  {
    assert IsDigit(s[i..i + n][0]);
    var intEnd := if s[i] == '0' then i + 1 else DigitsEnd(s, i + 1);
    if s[i] != '0' {
      assert s[i + 1..i + n] == s[i..i + n][1..];
      DigitsEndOfRun(s, i + 1, n - 1);
    }
    assert intEnd == i + n;
    assert ExponentEnd(s, intEnd) == intEnd;
  }

  /** The same digits read as a JSON value. */
  lemma ValueReadsDigits(s: string, i: nat, n: nat)
    requires 0 < n && i + n < |s| && AllDigits(s[i..i + n]) && (s[i] != '0' || n == 1)
    requires !IsDigit(s[i + n]) && s[i + n] != '.' && s[i + n] != 'e' && s[i + n] != 'E'
    ensures Value(s, i) == Success(Read(Int(DigitsValue(s[i..i + n])), i + n))
  {
    NumberReadsDigits(s, i, n);
    assert IsDigit(s[i..i + n][0]);
    ScalarAtDigit(s, i);
  }

  /** A `0` followed by another digit reads as the number 0 alone: JSON numbers have no leading zeros. */
  lemma ValueReadsLeadingZero(s: string, i: nat)
    requires i + 1 < |s| && s[i] == '0' && IsDigit(s[i + 1])
    ensures Value(s, i) == Success(Read(Int(0), i + 1))
  {
    assert ExponentEnd(s, i + 1) == i + 1;
    assert |s[i..i + 1]| == 1 && s[i..i + 1][0] == '0';
    assert s[i..i + 1] == "0";
    assert DigitsValue(s[i..i + 1]) == 0;
    assert Number(s, i) == Success(Read(Int(0), i + 1));
    ScalarAtDigit(s, i);
  }
}
