/**
 * The requirements de-duplicator: every line of the requirements file is
 * stripped, and each non-empty package line is written once, at its first
 * occurrence, followed by a newline. The lines read and the text written
 * are values here; opening and writing the files are not modelled.
 */
module CleanReq {
  import opened Text

  predicate Distinct(s: seq<string>)
  {
    forall i, j :: 0 <= i < j < |s| ==> s[i] != s[j]
  }

  /** The texts of `ls` one after the other. */
  function Concat(ls: seq<string>): string
  {
    if ls == [] then [] else ls[0] + Concat(ls[1..])
  }

  /**
   * Line 4, `readlines()`: the lines of `t`, each up to and including its
   * `\n`; the last one lacks it when `t` does not end with one.
   */
  function ReadLines(t: string): (r: seq<string>)
    ensures Concat(r) == t
    ensures forall k :: 0 <= k < |r| ==> r[k] != [] && forall m :: 0 <= m < |r[k]| - 1 ==> r[k][m] != '\n'
    ensures forall k :: 0 <= k < |r| - 1 ==> r[k][|r[k]| - 1] == '\n'
    decreases |t|
  {
    if t == [] then []
    else
      match IndexOf(t, '\n', 0)
      case Some(k) =>
        var rest := ReadLines(t[k + 1..]);
        assert t[..k + 1] + t[k + 1..] == t;
        assert ([t[..k + 1]] + rest)[1..] == rest;
        [t[..k + 1]] + rest
      case None =>
        assert [t][1..] == [];
        [t]
  }

  /** Every line stripped. */
  function StripAll(lines: seq<string>): (r: seq<string>)
    ensures |r| == |lines|
    ensures forall i :: 0 <= i < |lines| ==> r[i] == Strip(lines[i])
  {
    seq(|lines|, i requires 0 <= i < |lines| => Strip(lines[i]))
  }

  /** The non-empty texts of `s`, each the first time it occurs. */
  function Unique(s: seq<string>): (r: seq<string>)
    ensures forall k :: 0 <= k < |r| ==> r[k] != []
    ensures Distinct(r)
    ensures forall i :: 0 <= i < |s| && s[i] != [] ==> s[i] in r
    ensures forall p :: p in r ==> p in s
  {
    if s == [] then []
    else
      var init := s[..|s| - 1];
      var kept := Unique(init);
      var p := s[|s| - 1];
      assert forall i :: 0 <= i < |init| ==> init[i] == s[i];
      if p != [] && p !in kept then kept + [p] else kept
  }

  /**
   * The packages kept from `lines`: stripped, non-empty, without repeats,
   * one for every non-blank line, and each of them the stripped text of
   * some line.
   */
  function Packages(lines: seq<string>): (r: seq<string>)
    ensures forall k :: 0 <= k < |r| ==> r[k] != [] && Trimmed(r[k])
    ensures Distinct(r)
    ensures forall i :: 0 <= i < |lines| && Strip(lines[i]) != [] ==> Strip(lines[i]) in r
    ensures forall p :: p in r ==> exists i :: 0 <= i < |lines| && Strip(lines[i]) == p
  {
    var stripped := StripAll(lines);
    var r := Unique(stripped);
    forall p | p in r ensures exists i :: 0 <= i < |lines| && Strip(lines[i]) == p {
      assert p in stripped;
      var i :| 0 <= i < |stripped| && stripped[i] == p;
      assert Strip(lines[i]) == p;
    }
    forall k | 0 <= k < |r| ensures Trimmed(r[k]) {
      assert r[k] in stripped;
    }
    r
  }

  /** The text written: each package followed by a newline. */
  function FileText(packages: seq<string>): string
  {
    if packages == [] then []
    else FileText(packages[..|packages| - 1]) + packages[|packages| - 1] + "\n"
  }

  /** The packages are the first occurrences among the stripped lines. */
  lemma PackagesOfStrippedLines(lines: seq<string>)
    ensures Packages(lines) == Unique(StripAll(lines))
  {
  }

  /** Keeping first occurrences of one more text: it is added exactly when it is new and non-empty. */
  lemma UniqueStep(s: seq<string>, i: nat)
    requires i < |s|
    ensures Unique(s[..i + 1])
              == if s[i] != [] && s[i] !in Unique(s[..i]) then Unique(s[..i]) + [s[i]] else Unique(s[..i])
  {
    assert s[..i + 1][..i] == s[..i];
  }

  /** Writing one more package appends its line to the text. */
  lemma FileTextAppend(packages: seq<string>, p: string)
    ensures FileText(packages + [p]) == FileText(packages) + p + "\n"
  {
    assert (packages + [p])[..|packages|] == packages;
  }

  /** Lines 7-11: the packages written, the set of those seen, and the text of the new file. */
  method Dedup(lines: seq<string>) returns (packages: seq<string>, seen: set<string>, text: string)
    ensures packages == Packages(lines)
    ensures forall p :: p in seen <==> p in packages
    ensures text == FileText(packages)
  {
    ghost var stripped := StripAll(lines);
    packages := [];
    seen := {};
    text := [];
    var i := 0;
    while i < |lines|
      invariant 0 <= i <= |lines|
      invariant packages == Unique(stripped[..i])
      invariant forall p :: p in seen <==> p in packages
      invariant text == FileText(packages)
    {
      var package := Strip(lines[i]);
      UniqueStep(stripped, i);
      if package != [] && package !in seen {
        FileTextAppend(packages, package);
        seen := seen + {package};
        packages := packages + [package];
        text := text + package + "\n";
      }
      i := i + 1;
    }
    assert stripped[..i] == stripped;
    PackagesOfStrippedLines(lines);
  }

  /** The first index of `p` in `s`. */
  function FirstIndex(s: seq<string>, p: string): (i: nat)
    requires p in s
    ensures i < |s| && s[i] == p
    ensures forall j :: 0 <= j < i ==> s[j] != p
  {
    if s[0] == p then 0 else 1 + FirstIndex(s[1..], p)
  }
}

/** What the de-duplicator promises about the order it keeps. */
module CleanReqProperties {
  import opened Text
  import opened CleanReq

  /** A text found in a prefix is first found at the same index in the whole. */
  lemma FirstIndexOfPrefix(prefix: seq<string>, s: seq<string>, p: string)
    requires prefix <= s && p in prefix
    ensures FirstIndex(s, p) == FirstIndex(prefix, p)
  {
    var i := FirstIndex(prefix, p);
    assert s[i] == prefix[i];
    assert forall j :: 0 <= j < i ==> s[j] == prefix[j];
  }

  /** The texts of `r`, all found in `s`, are in the order of their first occurrences in `s`. */
  predicate FirstOccurrenceOrdered(s: seq<string>, r: seq<string>)
    requires forall p :: p in r ==> p in s
  {
    forall k, l :: 0 <= k < l < |r| ==> FirstIndex(s, r[k]) < FirstIndex(s, r[l])
  }

  /** Extending `s` leaves the first occurrences of what it holds where they were. */
  lemma OrderedInLonger(init: seq<string>, last: string, r: seq<string>)
    requires forall p :: p in r ==> p in init
    requires FirstOccurrenceOrdered(init, r)
    ensures FirstOccurrenceOrdered(init + [last], r)
  {
    var s := init + [last];
    forall k, l | 0 <= k < l < |r|
      ensures FirstIndex(s, r[k]) < FirstIndex(s, r[l])
    {
      assert r[k] in r && r[l] in r;
      FirstIndexOfPrefix(init, s, r[k]);
      FirstIndexOfPrefix(init, s, r[l]);
    }
  }

  /** A text new at the end of `s` comes after everything already in `r`. */
  lemma OrderedWithNew(init: seq<string>, last: string, r: seq<string>)
    requires forall p :: p in r ==> p in init
    requires last !in init
    requires FirstOccurrenceOrdered(init + [last], r)
    ensures FirstOccurrenceOrdered(init + [last], r + [last])
  {
    var s := init + [last];
    assert forall j :: 0 <= j < |init| ==> s[j] == init[j];
    assert FirstIndex(s, last) == |init|;
    var r' := r + [last];
    forall k, l | 0 <= k < l < |r'|
      ensures FirstIndex(s, r'[k]) < FirstIndex(s, r'[l])
    {
      assert r'[k] == r[k] && r[k] in r;
      FirstIndexOfPrefix(init, s, r[k]);
      if l < |r| {
        assert r'[l] == r[l];
      }
    }
  }

  /** The kept texts keep the order of their first occurrences. */
  lemma {:induction false} UniqueKeepsFirstOccurrenceOrder(s: seq<string>)
    ensures FirstOccurrenceOrdered(s, Unique(s))
  {
    if s != [] {
      var init := s[..|s| - 1];
      var last := s[|s| - 1];
      var kept := Unique(init);
      UniqueKeepsFirstOccurrenceOrder(init);
      assert s == init + [last];
      OrderedInLonger(init, last, kept);
      if last != [] && last !in kept {
        assert last !in init;
        OrderedWithNew(init, last, kept);
      }
    }
  }

  /** The packages are written in the order in which their lines first occur. */
  lemma FirstOccurrenceOrder(lines: seq<string>)
    ensures FirstOccurrenceOrdered(StripAll(lines), Packages(lines))
  {
    PackagesOfStrippedLines(lines);
    UniqueKeepsFirstOccurrenceOrder(StripAll(lines));
  }

  /** Writing a package in front of others puts its line first. */
  lemma {:induction false} FileTextFront(p: string, ps: seq<string>)
    ensures FileText([p] + ps) == p + "\n" + FileText(ps)
    decreases |ps|
  {
    if ps != [] {
      var init := ps[..|ps| - 1];
      FileTextFront(p, init);
      assert ([p] + ps)[..|ps|] == [p] + init;
    }
  }

  /** The written text read back line by line: each package followed by its `\n`. */
  lemma {:induction false} ReadLinesOfFileText(ps: seq<string>)
    requires forall k :: 0 <= k < |ps| ==> '\n' !in ps[k]
    ensures |ReadLines(FileText(ps))| == |ps|
    ensures forall k :: 0 <= k < |ps| ==> ReadLines(FileText(ps))[k] == ps[k] + "\n"
    decreases |ps|
  {
    if ps != [] {
      var rest := ps[1..];
      assert ps == [ps[0]] + rest;
      FileTextFront(ps[0], rest);
      var t := FileText(ps);
      assert forall m :: 0 <= m < |ps[0]| ==> t[m] == ps[0][m];
      IndexOfIs(t, '\n', 0, |ps[0]|);
      assert t[..|ps[0]| + 1] == ps[0] + "\n";
      assert t[|ps[0]| + 1..] == FileText(rest);
      ReadLinesOfFileText(rest);
    }
  }

  /** A line holding `\n` at most at its end strips to a text without `\n`. */
  lemma StrippedLineHasNoNewline(line: string)
    requires forall m :: 0 <= m < |line| - 1 ==> line[m] != '\n'
    ensures '\n' !in Strip(line)
  {
    var r := Strip(line);
    var a := SpaceEnd(line, 0);
    forall m | 0 <= m < |r| ensures r[m] != '\n' {
      assert r[m] == line[a + m];
    }
  }

  /** A package line read back strips to the package. */
  lemma StripPackageLine(p: string)
    requires p != [] && Trimmed(p)
    ensures Strip(p + "\n") == p
  {
    var x := p + "\n";
    assert SpaceEnd(x, 0) == 0;
    var r := Strip(x);
    assert !IsSpace(x[|p| - 1]);
    assert r == x[..|r|];
  }

  /**
   * Lines 3-11 run on the file they wrote: the lines read back keep the
   * same packages in the same order, so the file is written again as it is.
   */
  lemma RerunKeepsPackages(text: string)
    ensures Packages(ReadLines(FileText(Packages(ReadLines(text))))) == Packages(ReadLines(text))
  {
    var lines := ReadLines(text);
    var ps := Packages(lines);
    forall k | 0 <= k < |ps| ensures '\n' !in ps[k] {
      assert ps[k] in ps;
      var i :| 0 <= i < |lines| && Strip(lines[i]) == ps[k];
      StrippedLineHasNoNewline(lines[i]);
    }
    ReadLinesOfFileText(ps);
    var back := ReadLines(FileText(ps));
    forall k | 0 <= k < |ps| ensures Strip(back[k]) == ps[k] {
      StripPackageLine(ps[k]);
    }
    assert StripAll(back) == ps;
    UniqueOfDistinct(ps);
    PackagesOfStrippedLines(back);
  }

  /** Distinct non-empty texts are kept as they are. */
  lemma {:induction false} UniqueOfDistinct(r: seq<string>)
    requires forall k :: 0 <= k < |r| ==> r[k] != []
    requires Distinct(r)
    ensures Unique(r) == r
  {
    if r != [] {
      var init := r[..|r| - 1];
      UniqueOfDistinct(init);
      assert r[|r| - 1] !in init;
    }
  }

  /** Running the de-duplicator on its own output changes nothing. */
  lemma DedupIdempotent(lines: seq<string>)
    ensures Packages(Packages(lines)) == Packages(lines)
  {
    var r := Packages(lines);
    forall k | 0 <= k < |r| ensures Strip(r[k]) == r[k] {
      StripTrimmed(r[k]);
    }
    assert StripAll(r) == r;
    UniqueOfDistinct(r);
    PackagesOfStrippedLines(r);
  }
}
