// check_copyright.py: the pre-commit helper's two pure pieces, the
// compression of a list of copyright years into text such as
// "1991, 2001-2003, 2006-2007" and the parsing of such text back into a
// sorted list of distinct years. The regular expressions of
// parse_years_string are modelled on the token stream they see: a maximal
// run of ASCII digits, a '-', or any other character. The current year is a
// parameter.
module CheckCopyright {

  // ---------------------------------------------------------------------
  // Decimal text ("%d" and int())
  // ---------------------------------------------------------------------

  predicate IsDigit(c: char)
  {
    '0' <= c <= '9'
  }

  predicate AllDigits(s: string)
  {
    forall j :: 0 <= j < |s| ==> IsDigit(s[j])
  }

  /** The decimal digit d as a character. */
  function DigitChar(d: nat): (c: char)
    requires d < 10
    ensures IsDigit(c) && c as int - '0' as int == d
  {
    (d + '0' as int) as char
  }

  /** "%d" % n for n >= 0: the shortest decimal digits of n. */
  function NatText(n: nat): (s: string)
    ensures |s| >= 1
    decreases n
  {
    (if n < 10 then [] else NatText(n / 10)) + [DigitChar(n % 10)]
  }

  /** "%d" writes only digits, without a leading zero. */
  lemma {:induction false} NatTextDigits(n: nat)
    ensures AllDigits(NatText(n))
    ensures |NatText(n)| > 1 ==> NatText(n)[0] != '0'
    decreases n
  {
    if n >= 10 {
      NatTextDigits(n / 10);
      assert NatText(n)[0] == NatText(n / 10)[0];
    }
  }

  /** "%d" % n: a minus sign before the digits of a negative number. */
  function IntText(n: int): string
  {
    if n < 0 then "-" + NatText(-n) else NatText(n)
  }

  /** The value of a decimal digit (0 for any other character, which int() is never given here). */
  function DigitValue(c: char): nat
  {
    if IsDigit(c) then c as int - '0' as int else 0
  }

  /** int(s) for a string of digits (leading zeros allowed). */
  function DecimalValue(s: string): nat
  {
    if s == [] then 0 else DecimalValue(s[..|s| - 1]) * 10 + DigitValue(s[|s| - 1])
  }

  /** int() reads back what "%d" wrote. */
  lemma {:induction false} DecimalValueOfText(n: nat)
    ensures DecimalValue(NatText(n)) == n
    decreases n
  {
    var front: string := if n < 10 then [] else NatText(n / 10);
    var last := DigitChar(n % 10);
    assert NatText(n) == front + [last];
    DecimalValueSnoc(front, last);
    if n >= 10 {
      DecimalValueOfText(n / 10);
    }
  }

  /** int() of a text with one more digit: ten times the value, plus the digit. */
  lemma DecimalValueSnoc(s: string, c: char)
    ensures DecimalValue(s + [c]) == DecimalValue(s) * 10 + DigitValue(c)
  {
    assert (s + [c])[..|s|] == s;
  }

  // ---------------------------------------------------------------------
  // generate_years_string
  // ---------------------------------------------------------------------

  /**
   * Where the last run of ys starts: the run is the longest suffix in
   * which every year is one more than the one before it.
   */
  function LastRunStart(ys: seq<int>): (k: nat)
    requires |ys| > 0
    ensures k < |ys|
    ensures forall j :: k < j < |ys| ==> ys[j] == ys[j - 1] + 1
    ensures k == 0 || ys[k] != ys[k - 1] + 1
    decreases |ys|
  {
    if |ys| == 1 then 0
    else if ys[|ys| - 1] == ys[|ys| - 2] + 1 then LastRunStart(ys[..|ys| - 1])
    else |ys| - 1
  }

  /** The text of the last run, starting at k: "a" for one year, "a-b" for more. */
  function RunText(ys: seq<int>, k: nat): string
    requires k < |ys|
  {
    IntText(ys[k]) + (if k == |ys| - 1 then "" else "-" + IntText(ys[|ys| - 1]))
  }

  /**
   * The compressed text of a list of years, defined run by run: each
   * maximal run of consecutive years is written "a" or "a-b", and the runs
   * are separated by ", ".
   */
  function YearsText(ys: seq<int>): (text: string)
    ensures text == [] <==> ys == []
    decreases |ys|
  {
    if |ys| == 0 then ""
    else
      var k := LastRunStart(ys);
      if k == 0 then RunText(ys, k) else YearsText(ys[..k]) + ", " + RunText(ys, k)
  }

  /** The compressed text starts with the first year and ends with the last one. */
  lemma {:induction false} YearsTextEnds(ys: seq<int>)
    requires ys != []
    ensures IntText(ys[0]) <= YearsText(ys)
    ensures |IntText(ys[|ys| - 1])| <= |YearsText(ys)|
    ensures YearsText(ys)[|YearsText(ys)| - |IntText(ys[|ys| - 1])|..] == IntText(ys[|ys| - 1])
    decreases |ys|
  {
    var k := LastRunStart(ys);
    RunTextEnds(ys, k);
    if k != 0 {
      YearsTextEnds(ys[..k]);
      assert ys[..k][0] == ys[0];
      JoinedEnds(YearsText(ys[..k]), ", ", RunText(ys, k), IntText(ys[0]), IntText(ys[|ys| - 1]));
    }
  }

  /** The text of the last run starts with its first year and ends with its last one. */
  lemma RunTextEnds(ys: seq<int>, k: nat)
    requires k < |ys|
    ensures IntText(ys[k]) <= RunText(ys, k)
    ensures |IntText(ys[|ys| - 1])| <= |RunText(ys, k)|
    ensures RunText(ys, k)[|RunText(ys, k)| - |IntText(ys[|ys| - 1])|..] == IntText(ys[|ys| - 1])
  {
    var head := IntText(ys[k]);
    var tail := if k == |ys| - 1 then "" else "-" + IntText(ys[|ys| - 1]);
    assert RunText(ys, k) == head + tail;
    assert RunText(ys, k)[..|head|] == head;
  }

  /** A prefix of the front and a suffix of the back stay so once they are joined. */
  lemma JoinedEnds(front: string, sep: string, back: string, first: string, last: string)
    requires first <= front
    requires |last| <= |back| && back[|back| - |last|..] == last
    ensures first <= front + sep + back
    ensures |last| <= |front + sep + back| && (front + sep + back)[|front + sep + back| - |last|..] == last
  {
    var all := front + sep + back;
    assert all[..|first|] == front[..|first|];
    assert all[|all| - |last|..] == back[|back| - |last|..];
  }

  /**
   * The example of generate_years_string's documentation:
   * [1991, 2001, 2002, 2003, 2006, 2007] becomes "1991, 2001-2003, 2006-2007".
   */
  lemma DocumentedExample()
    ensures YearsText([1991, 2001, 2002, 2003, 2006, 2007]) ==
      IntText(1991) + ", " + (IntText(2001) + "-" + IntText(2003)) + ", " + (IntText(2006) + "-" + IntText(2007))
  {
    var ys := [1991, 2001, 2002, 2003, 2006, 2007];
    var front := ys[..4];
    assert front == [1991, 2001, 2002, 2003];
    assert LastRunStart(ys) == 4 by {
      assert ys[..5] == front + [2006];
      assert ys[..5][..4] == front;
    }
    assert LastRunStart(front) == 1 by {
      assert front[..3] == [1991, 2001, 2002];
      assert front[..3][..2] == [1991, 2001];
    }
    assert front[..1] == [1991];
    var first := YearsText(front[..1]);
    assert first == IntText(1991) by {
      assert LastRunStart(front[..1]) == 0;
    }
    var middle := YearsText(front);
    assert middle == first + ", " + (IntText(2001) + "-" + IntText(2003));
    assert YearsText(ys) == middle + ", " + (IntText(2006) + "-" + IntText(2007));
  }

  /** "".join(pieces). */
  function Concat(pieces: seq<string>): string
  {
    if pieces == [] then "" else Concat(pieces[..|pieces| - 1]) + pieces[|pieces| - 1]
  }

  /** The text before the run starting at k: the earlier runs and a separator. */
  function TextBefore(ys: seq<int>, k: nat): string
    requires k <= |ys|
  {
    if k == 0 then "" else YearsText(ys[..k]) + ", "
  }

  lemma AppendPiece(pieces: seq<string>, x: string)
    ensures Concat(pieces + [x]) == Concat(pieces) + x
  {
    assert (pieces + [x])[..|pieces|] == pieces;
  }

  lemma PrependEmpty<T>(s: seq<T>)
    ensures [] + s == s
  {
  }

  /** The text of a non-empty list is the text before its last run, then that run. */
  lemma {:induction false} TextByLastRun(ys: seq<int>)
    requires |ys| > 0
    ensures var k := LastRunStart(ys);
      YearsText(ys) == TextBefore(ys, k) + IntText(ys[k]) + (if k < |ys| - 1 then "-" + IntText(ys[|ys| - 1]) else "")
  {
    var k := LastRunStart(ys);
    var before := TextBefore(ys, k);
    var first := IntText(ys[k]);
    var rest: string := if k < |ys| - 1 then "-" + IntText(ys[|ys| - 1]) else "";
    var run := RunText(ys, k);
    assert run == first + rest;
    if k == 0 {
      PrependEmpty(run);
    }
    assert YearsText(ys) == before + run;
    AssocSeq(before, first, rest);
  }

  /**
   * A year that does not continue the run starting at start closes it:
   * the next run starts at i, after the text of the runs up to i and a
   * separator.
   */
  lemma {:induction false} CloseRun(years: seq<int>, i: nat, start: nat)
    requires 0 < i < |years| && start < i && start == LastRunStart(years[..i])
    requires years[i] != years[i - 1] + 1
    ensures LastRunStart(years[..i + 1]) == i
    ensures TextBefore(years, i) ==
      TextBefore(years, start) + IntText(years[start]) +
      (if start < i - 1 then "-" + IntText(years[i - 1]) else "") + ", "
  {
    var ys := years[..i + 1];
    assert ys[..i] == years[..i];
    assert ys[i] == years[i] && ys[i - 1] == years[i - 1];
    var prefix := years[..i];
    assert prefix[..start] == years[..start];
    assert TextBefore(prefix, start) == TextBefore(years, start);
    assert prefix[start] == years[start] && prefix[i - 1] == years[i - 1];
    TextByLastRun(prefix);
    assert TextBefore(years, i) == YearsText(prefix) + ", ";
  }

  /** A year that continues the run leaves its start where it was. */
  lemma ContinueRun(years: seq<int>, i: nat)
    requires 0 < i < |years| && years[i] == years[i - 1] + 1
    ensures LastRunStart(years[..i + 1]) == LastRunStart(years[..i])
  {
    assert years[..i + 1][..i] == years[..i];
  }

  /**
   * The state of generate_years_string before it looks at years[i]: the
   * open run starts at start, the flag says whether it already holds more
   * than one year, and the pieces hold the text of the earlier runs and the
   * first year of the open one (closed with "-b" once the last year has
   * been seen).
   */
  ghost predicate Generating(years: seq<int>, i: nat, start: nat, pieces: seq<string>, incremental: bool)
  {
    1 <= i <= |years| && start < i && start == LastRunStart(years[..i]) &&
    (incremental <==> start < i - 1) &&
    Concat(pieces) == TextBefore(years, start) + IntText(years[start]) +
                      (if i == |years| && incremental then "-" + IntText(years[i - 1]) else "")
  }

  lemma GeneratingStart(years: seq<int>)
    requires |years| > 0
    ensures Generating(years, 1, 0, [IntText(years[0])], false)
  {
    assert years[..1] == [years[0]];
    assert [IntText(years[0])][..0] == [];
  }

  /** A year that continues the open run is skipped, unless it is the last one, which closes the run. */
  lemma {:induction false} GeneratingContinue(years: seq<int>, i: nat, start: nat, pieces: seq<string>, incremental: bool)
    requires Generating(years, i, start, pieces, incremental) && i < |years| && years[i] == years[i - 1] + 1
    ensures Generating(years, i + 1, start,
                       if i == |years| - 1 then pieces + ["-" + IntText(years[i])] else pieces, true)
  {
    ContinueRun(years, i);
    var text := TextBefore(years, start) + IntText(years[start]);
    assert Concat(pieces) == text + "";
    if i == |years| - 1 {
      LastPiece(pieces, text, "-" + IntText(years[i]));
    }
  }

  lemma LastPiece(pieces: seq<string>, text: string, tail: string)
    requires Concat(pieces) == text + ""
    ensures Concat(pieces + [tail]) == text + tail
  {
    AppendPiece(pieces, tail);
    assert text + "" == text;
  }

  /** Any other year closes the open run and opens a new one. */
  lemma {:induction false} GeneratingClose(years: seq<int>, i: nat, start: nat, pieces: seq<string>, incremental: bool,
                                           closing: string)
    requires Generating(years, i, start, pieces, incremental) && i < |years| && years[i] != years[i - 1] + 1
    requires closing == if incremental then "-" + IntText(years[i - 1]) + ", " else ", "
    ensures Generating(years, i + 1, i, pieces + [closing] + [IntText(years[i])], false)
  {
    CloseRun(years, i, start);
    var rest: string := if incremental then "-" + IntText(years[i - 1]) else "";
    assert closing == rest + ", ";
    var before, first := TextBefore(years, start), IntText(years[start]);
    assert Concat(pieces) == before + first + "";
    ClosePieces(pieces, before + first, rest, IntText(years[i]));
  }

  lemma ClosePieces(pieces: seq<string>, text: string, rest: string, next: string)
    requires Concat(pieces) == text + ""
    ensures Concat(pieces + [rest + ", "] + [next]) == text + rest + ", " + next + ""
  {
    AppendPiece(pieces, rest + ", ");
    AppendPiece(pieces + [rest + ", "], next);
    assert text + "" == text;
    assert text + (rest + ", ") + next + "" == text + rest + ", " + next + "";
  }

  lemma {:induction false} GeneratingDone(years: seq<int>, start: nat, pieces: seq<string>, incremental: bool)
    requires Generating(years, |years|, start, pieces, incremental)
    ensures Concat(pieces) == YearsText(years)
  {
    assert years[..|years|] == years;
    TextByLastRun(years);
  }

  /** One turn of the loop of generate_years_string. */
  method GenerateStep(years: seq<int>, i: nat, pieces: seq<string>, lastElementWasIncremental: bool, ghost start: nat)
    returns (pieces': seq<string>, incremental: bool)
    requires Generating(years, i, start, pieces, lastElementWasIncremental) && i < |years|
    ensures Generating(years, i + 1, if incremental then start else i, pieces', incremental)
  {
    if years[i] == years[i - 1] + 1 {
      GeneratingContinue(years, i, start, pieces, lastElementWasIncremental);
      incremental := true;
      pieces' := pieces;
      if i == |years| - 1 {
        pieces' := pieces + ["-" + IntText(years[i])];
      }
    } else {
      var closing := if lastElementWasIncremental then "-" + IntText(years[i - 1]) + ", " else ", ";
      GeneratingClose(years, i, start, pieces, lastElementWasIncremental, closing);
      pieces' := pieces + [closing] + [IntText(years[i])];
      incremental := false;
    }
  }

  /**
   * generate_years_string: the first year is written; then each year that
   * continues a run is skipped, except that the last one closes its run
   * with "-b"; any other year closes the open run (with "-b" if it held
   * more than one year), adds ", " and starts a new one.
   */
  method GenerateYearsString(years: seq<int>) returns (s: string)
    ensures s == YearsText(years)
  {
    s := "";
    if |years| > 0 {
      var pieces := [IntText(years[0])];
      var lastElementWasIncremental := false;
      ghost var start: nat := 0;
      GeneratingStart(years);
      for i := 1 to |years|
        invariant Generating(years, i, start, pieces, lastElementWasIncremental)
      {
        var incremental;
        pieces, incremental := GenerateStep(years, i, pieces, lastElementWasIncremental, start);
        if !incremental {
          start := i;
        }
        lastElementWasIncremental := incremental;
      }
      GeneratingDone(years, start, pieces, lastElementWasIncremental);
      s := Concat(pieces);
    }
  }

  // ---------------------------------------------------------------------
  // The tokens the regular expressions of parse_years_string see
  // ---------------------------------------------------------------------

  /** A maximal run of digits with its value, a '-', or any other character. */
  datatype Token = Number(value: nat) | Dash | Other

  /** How many digits s ends with. */
  function TrailingDigits(s: string): (k: nat)
    ensures k <= |s|
    ensures s != [] && IsDigit(s[|s| - 1]) ==> k >= 1
    ensures forall i :: |s| - k <= i < |s| ==> IsDigit(s[i])
    ensures k < |s| ==> !IsDigit(s[|s| - 1 - k])
    decreases |s|
  {
    if s == [] || !IsDigit(s[|s| - 1]) then 0 else 1 + TrailingDigits(s[..|s| - 1])
  }

  /** A digit string after a non-digit (or nothing) is exactly the trailing digit run. */
  lemma {:induction false} TrailingDigitsOf(x: string, d: string)
    requires AllDigits(d) && (x == [] || !IsDigit(x[|x| - 1]))
    ensures TrailingDigits(x + d) == |d|
    decreases |d|
  {
    var s := x + d;
    if d == [] {
      assert s == x;
    } else {
      assert s[|s| - 1] == d[|d| - 1];
      assert s[..|s| - 1] == x + d[..|d| - 1];
      TrailingDigitsOf(x, d[..|d| - 1]);
    }
  }

  /**
   * The token stream of s: every maximal digit run taken whole. Splitting
   * a text into maximal runs does not depend on the direction of reading,
   * so the stream is built here from the end of the text.
   */
  function Lex(s: string): (toks: seq<Token>)
    ensures |toks| <= |s| && (toks == [] <==> s == [])
    ensures s != [] ==> (toks[|toks| - 1].Number? <==> IsDigit(s[|s| - 1]))
    ensures forall i :: 0 <= i < |toks| - 1 ==> !(toks[i].Number? && toks[i + 1].Number?)
    decreases |s|
  {
    if s == [] then []
    else if IsDigit(s[|s| - 1]) then
      var k := TrailingDigits(s);
      Lex(s[..|s| - k]) + [Number(DecimalValue(s[|s| - k..]))]
    else Lex(s[..|s| - 1]) + [if s[|s| - 1] == '-' then Dash else Other]
  }

  /** A non-digit character appended to a text adds one Dash or Other token. */
  lemma PeelChar(x: string, c: char)
    requires !IsDigit(c)
    ensures Lex(x + [c]) == Lex(x) + [if c == '-' then Dash else Other]
  {
    var s := x + [c];
    assert s[..|s| - 1] == x;
  }

  /** A run of digits appended after a non-digit (or to nothing) adds the one token holding its value. */
  lemma PeelDigits(x: string, d: string)
    requires d != [] && AllDigits(d)
    requires x == [] || !IsDigit(x[|x| - 1])
    ensures Lex(x + d) == Lex(x) + [Number(DecimalValue(d))]
  {
    var s := x + d;
    TrailingDigitsOf(x, d);
    assert s[|s| - 1] == d[|d| - 1];
    assert s[..|s| - |d|] == x;
    assert s[|s| - |d|..] == d;
  }

  /** The digits of n appended after a non-digit (or to nothing) add the one token Number(n). */
  lemma PeelNumber(x: string, n: nat)
    requires x == [] || !IsDigit(x[|x| - 1])
    ensures Lex(x + NatText(n)) == Lex(x) + [Number(n)]
  {
    NatTextDigits(n);
    DecimalValueOfText(n);
    PeelDigits(x, NatText(n));
  }

  lemma RegroupRange(x: string, a: string, b: string)
    ensures x + (a + ("-" + b)) == ((x + a) + ['-']) + b
  {
  }

  lemma AppendThree<T>(l: seq<T>, p: T, q: T, r: T)
    ensures ((l + [p]) + [q]) + [r] == l + [p, q, r]
  {
  }

  /** Two digit runs around a dash, after a non-digit (or nothing), add a number, a dash and a number. */
  lemma PeelRange(x: string, a: string, b: string)
    requires a != [] && AllDigits(a) && b != [] && AllDigits(b)
    requires x == [] || !IsDigit(x[|x| - 1])
    ensures Lex(x + (a + ("-" + b))) == Lex(x) + [Number(DecimalValue(a)), Dash, Number(DecimalValue(b))]
  {
    var dashed := (x + a) + ['-'];
    RegroupRange(x, a, b);
    PeelDigits(x, a);
    PeelChar(x + a, '-');
    assert dashed[|dashed| - 1] == '-';
    PeelDigits(dashed, b);
    AppendThree(Lex(x), Number(DecimalValue(a)), Dash, Number(DecimalValue(b)));
  }

  // ---------------------------------------------------------------------
  // parse_years_string
  // ---------------------------------------------------------------------

  /**
   * The numbers (?<![-\d])\d+(?![-\d]) finds: digit runs with neither a
   * '-' nor a digit on either side; prev is the token before toks (Other
   * at the start of the text).
   */
  function SinglesAfter(prev: Token, toks: seq<Token>): seq<nat>
    decreases |toks|
  {
    if toks == [] then []
    else
      (if toks[0].Number? && prev == Other && (|toks| == 1 || toks[1] == Other) then [toks[0].value] else []) +
      SinglesAfter(toks[0], toks[1..])
  }

  function Singles(toks: seq<Token>): seq<nat>
  {
    SinglesAfter(Other, toks)
  }

  /**
   * The pairs \d+-\d+ finds, scanning from the left without overlap: a
   * number, a '-' and a number; after a match the scan resumes after it.
   */
  function Ranges(toks: seq<Token>): seq<(nat, nat)>
    decreases |toks|
  {
    if |toks| >= 3 && toks[0].Number? && toks[1] == Dash && toks[2].Number? then
      [(toks[0].value, toks[2].value)] + Ranges(toks[3..])
    else if toks != [] then Ranges(toks[1..])
    else []
  }

  /** range(a, b + 1). */
  function Span(a: int, b: int): (r: seq<int>)
    ensures forall y :: y in r <==> a <= y <= b
    decreases b - a
  {
    if a > b then [] else [a] + Span(a + 1, b)
  }

  /** Every range expanded, in order. */
  function Expand(rs: seq<(nat, nat)>): seq<int>
  {
    if rs == [] then [] else Span(rs[0].0, rs[0].1) + Expand(rs[1..])
  }

  /** The years list before filtering: the single numbers, then every range expanded. */
  function Years(toks: seq<Token>): seq<int>
  {
    Singles(toks) + Expand(Ranges(toks))
  }

  /** A list sorted in strictly increasing order (so free of duplicates). */
  predicate StrictlyIncreasing(ys: seq<int>)
  {
    forall i, j :: 0 <= i < j < |ys| ==> ys[i] < ys[j]
  }

  /** The distinct years of cands in 1900 < y <= hi, in increasing order. */
  function Collect(cands: seq<int>, hi: int): (r: seq<int>)
    ensures forall y :: y in r <==> 1900 < y <= hi && y in cands
    ensures StrictlyIncreasing(r)
    decreases hi - 1900
  {
    if hi <= 1900 then []
    else
      var below := Collect(cands, hi - 1);
      assert forall i :: 0 <= i < |below| ==> below[i] < hi by {
        forall i | 0 <= i < |below|
          ensures below[i] < hi
        {
          assert below[i] in below;
        }
      }
      below + (if hi in cands then [hi] else [])
  }

  /**
   * parse_years_string: every stand-alone number and every year of every
   * range a-b, kept when 1900 < y <= currentYear, without duplicates,
   * sorted.
   */
  function ParseYearsString(s: string, currentYear: int): (r: seq<int>)
    ensures StrictlyIncreasing(r)
    ensures forall y :: y in r ==> 1900 < y <= currentYear
  {
    Collect(Years(Lex(s)), currentYear)
  }

  /** A year is in the expansion exactly when one of the ranges holds it. */
  lemma {:induction false} ExpandMeaning(rs: seq<(nat, nat)>, y: int)
    ensures y in Expand(rs) <==> exists j :: 0 <= j < |rs| && rs[j].0 <= y <= rs[j].1
  {
    if rs != [] {
      ExpandMeaning(rs[1..], y);
      if y in Expand(rs[1..]) {
        var j :| 0 <= j < |rs[1..]| && rs[1..][j].0 <= y <= rs[1..][j].1;
        assert rs[j + 1] == rs[1..][j];
      }
      if exists j :: 0 <= j < |rs| && rs[j].0 <= y <= rs[j].1 {
        var j :| 0 <= j < |rs| && rs[j].0 <= y <= rs[j].1;
        if j > 0 {
          assert rs[1..][j - 1] == rs[j];
        }
      }
    }
  }

  /**
   * What parsing keeps: the result is strictly increasing (sorted, no
   * duplicates), and a year is in it exactly when it lies in
   * 1900 < y <= currentYear and is a stand-alone number of the text or lies
   * in one of its ranges a-b, both ends included.
   */
  lemma {:induction false} ParseMeaning(s: string, currentYear: int, y: int)
    ensures StrictlyIncreasing(ParseYearsString(s, currentYear))
    ensures y in ParseYearsString(s, currentYear) <==>
      1900 < y <= currentYear &&
      (y in Singles(Lex(s)) ||
       exists j :: 0 <= j < |Ranges(Lex(s))| && Ranges(Lex(s))[j].0 <= y <= Ranges(Lex(s))[j].1)
  {
    ExpandMeaning(Ranges(Lex(s)), y);
  }

  // ---------------------------------------------------------------------
  // The round trip
  // ---------------------------------------------------------------------

  predicate NonNegative(ys: seq<int>)
  {
    forall j :: 0 <= j < |ys| ==> ys[j] >= 0
  }

  /** The tokens of the last run starting at k. */
  function RunTokens(ys: seq<int>, k: nat): seq<Token>
    requires k < |ys| && NonNegative(ys)
  {
    if k == |ys| - 1 then [Number(ys[k])] else [Number(ys[k]), Dash, Number(ys[|ys| - 1])]
  }

  /** The tokens of YearsText(ys), run by run, ", " giving two Other tokens. */
  function YearsTokens(ys: seq<int>): seq<Token>
    requires NonNegative(ys)
    decreases |ys|
  {
    if ys == [] then []
    else
      var k := LastRunStart(ys);
      if k == 0 then RunTokens(ys, k) else YearsTokens(ys[..k]) + [Other, Other] + RunTokens(ys, k)
  }

  /** "a-b" after a non-digit (or nothing) adds the number a, a dash and the number b. */
  lemma PeelRangeNumbers(x: string, a: nat, b: nat)
    requires x == [] || !IsDigit(x[|x| - 1])
    ensures Lex(x + (NatText(a) + ("-" + NatText(b)))) == Lex(x) + [Number(a), Dash, Number(b)]
  {
    NatTextDigits(a);
    NatTextDigits(b);
    DecimalValueOfText(a);
    DecimalValueOfText(b);
    PeelRange(x, NatText(a), NatText(b));
  }

  /** The text of a run, after a non-digit or nothing, adds its number, or its two numbers around a dash. */
  lemma LexRunText(x: string, ys: seq<int>, k: nat)
    requires k < |ys| && NonNegative(ys)
    requires x == [] || !IsDigit(x[|x| - 1])
    ensures Lex(x + RunText(ys, k)) == Lex(x) + RunTokens(ys, k)
  {
    if k == |ys| - 1 {
      assert RunText(ys, k) == NatText(ys[k]) + "";
      AppendEmptyRight(NatText(ys[k]));
      PeelNumber(x, ys[k]);
    } else {
      assert RunText(ys, k) == NatText(ys[k]) + ("-" + NatText(ys[|ys| - 1]));
      PeelRangeNumbers(x, ys[k], ys[|ys| - 1]);
    }
  }

  lemma AppendSeparator(l: seq<Token>, r: seq<Token>)
    ensures ((l + [Other]) + [Other]) + r == l + [Other, Other] + r
  {
  }

  lemma RegroupSeparated(front: string, run: string)
    ensures front + ", " + run == (front + [','] + [' ']) + run
  {
  }

  /** The compressed text lexes, run by run, as YearsTokens. */
  lemma {:induction false} LexYearsText(ys: seq<int>)
    requires NonNegative(ys)
    ensures Lex(YearsText(ys)) == YearsTokens(ys)
    decreases |ys|
  {
    if ys != [] {
      var k := LastRunStart(ys);
      if k == 0 {
        assert YearsText(ys) == [] + RunText(ys, k);
        LexRunText([], ys, k);
      } else {
        var front := YearsText(ys[..k]);
        LexYearsText(ys[..k]);
        PeelChar(front, ',');
        PeelChar(front + [','], ' ');
        RegroupSeparated(front, RunText(ys, k));
        LexRunText(front + [','] + [' '], ys, k);
        AppendSeparator(Lex(front), RunTokens(ys, k));
      }
    }
  }

  /** Singles splits at a boundary where one side is another character. */
  lemma TailAppend<T>(a: seq<T>, b: seq<T>)
    requires a != []
    ensures (a + b)[0] == a[0] && (a + b)[1..] == a[1..] + b
  {
  }

  lemma {:induction false} SinglesAfterAppend(prev: Token, a: seq<Token>, b: seq<Token>)
    requires a != [] && b != [] && (a[|a| - 1] == Other || b[0] == Other)
    ensures SinglesAfter(prev, a + b) == SinglesAfter(prev, a) + SinglesAfter(Other, b)
    decreases |a|
  {
    TailAppend(a, b);
    var head: seq<nat> := if a[0].Number? && prev == Other && (|a| == 1 || a[1] == Other) then [a[0].value] else [];
    if |a| == 1 {
      assert (a + b)[1] == b[0];
      assert SinglesAfter(a[0], b) == SinglesAfter(Other, b);
      assert SinglesAfter(prev, a) == head + [];
      AppendEmptyRight(head);
    } else {
      assert (a + b)[1] == a[1];
      SinglesAfterAppend(a[0], a[1..], b);
      AssocSeq(head, SinglesAfter(a[0], a[1..]), SinglesAfter(Other, b));
    }
  }

  lemma AppendEmptyRight<T>(s: seq<T>)
    ensures s + [] == s
  {
  }

  lemma AssocSeq<T>(a: seq<T>, b: seq<T>, c: seq<T>)
    ensures a + (b + c) == (a + b) + c
  {
  }

  lemma {:induction false} SinglesAppend(a: seq<Token>, b: seq<Token>)
    requires a == [] || b == [] || a[|a| - 1] == Other || b[0] == Other
    ensures Singles(a + b) == Singles(a) + Singles(b)
  {
    if a == [] {
      assert a + b == b;
    } else if b == [] {
      assert a + b == a;
    } else {
      SinglesAfterAppend(Other, a, b);
    }
  }

  /** No range match straddles a boundary where one side is another character. */
  lemma {:induction false} RangesAppend(a: seq<Token>, b: seq<Token>)
    requires a == [] || b == [] || a[|a| - 1] == Other || b[0] == Other
    ensures Ranges(a + b) == Ranges(a) + Ranges(b)
    decreases |a|
  {
    if a == [] {
      assert a + b == b;
    } else if b == [] {
      assert a + b == a;
    } else if |a| >= 3 && a[0].Number? && a[1] == Dash && a[2].Number? {
      assert (a + b)[3..] == a[3..] + b;
      RangesAppend(a[3..], b);
    } else {
      assert (a + b)[1..] == a[1..] + b;
      RangesAppend(a[1..], b);
    }
  }

  /** A run of consecutive years from k is ys[k], ys[k] + 1, ... */
  lemma {:induction false} RunValues(ys: seq<int>, k: nat, j: nat)
    requires k <= j < |ys|
    requires forall i :: k < i < |ys| ==> ys[i] == ys[i - 1] + 1
    ensures ys[j] == ys[k] + (j - k)
    decreases j
  {
    if j > k {
      RunValues(ys, k, j - 1);
    }
  }

  /** The tokens of a run parse to exactly the years of the run. */
  lemma {:induction false} RunYears(ys: seq<int>, k: nat, y: int)
    requires k < |ys| && NonNegative(ys)
    requires forall j :: k < j < |ys| ==> ys[j] == ys[j - 1] + 1
    ensures y in Years(RunTokens(ys, k)) <==> y in ys[k..]
  {
    if k == |ys| - 1 {
      SingleYear(ys[k]);
      assert ys[k..] == [ys[k]];
    } else {
      RangeYears(ys[k], ys[|ys| - 1]);
      RunMembers(ys, k, y);
    }
  }

  /** The years of a run are the years from its first to its last. */
  lemma RunMembers(ys: seq<int>, k: nat, y: int)
    requires k < |ys|
    requires forall j :: k < j < |ys| ==> ys[j] == ys[j - 1] + 1
    ensures y in ys[k..] <==> ys[k] <= y <= ys[|ys| - 1]
  {
    var a, b := ys[k], ys[|ys| - 1];
    RunValues(ys, k, |ys| - 1);
    if y in ys[k..] {
      var j :| k <= j < |ys| && ys[j] == y;
      RunValues(ys, k, j);
    }
    if a <= y <= b {
      RunValues(ys, k, k + (y - a));
      assert ys[k + (y - a)] == y;
    }
  }

  /** A lone number parses to itself. */
  lemma SingleYear(a: nat)
    ensures Years([Number(a)]) == [a]
  {
    var run := [Number(a)];
    assert run[1..] == [];
    assert SinglesAfter(run[0], run[1..]) == [];
    assert Singles(run) == [a] + [];
    assert Ranges(run) == [];
  }

  /** "a-b" parses to the years a to b. */
  lemma RangeYears(a: nat, b: nat)
    ensures Years([Number(a), Dash, Number(b)]) == Span(a, b)
  {
    var run := [Number(a), Dash, Number(b)];
    assert run[1..] == [Dash, Number(b)] && run[1..][1..] == [Number(b)] && run[3..] == [];
    assert SinglesAfter(Dash, [Number(b)]) == [];
    assert SinglesAfter(Number(a), [Dash, Number(b)]) == [];
    assert Singles(run) == [];
    assert Ranges(run) == [(a, b)];
    assert Expand(Ranges(run)) == Span(a, b) + [];
  }

  lemma {:induction false} ExpandAppend(r1: seq<(nat, nat)>, r2: seq<(nat, nat)>)
    ensures Expand(r1 + r2) == Expand(r1) + Expand(r2)
    decreases |r1|
  {
    if r1 == [] {
      assert r1 + r2 == r2;
    } else {
      assert (r1 + r2)[1..] == r1[1..] + r2;
      ExpandAppend(r1[1..], r2);
    }
  }

  /** The years of runs separated by ", " are those of either side. */
  lemma {:induction false} SeparatedYears(front: seq<Token>, run: seq<Token>, y: int)
    ensures y in Years(front + [Other, Other] + run) <==> y in Years(front) || y in Years(run)
  {
    var sep: seq<Token> := [Other, Other];
    SinglesAppend(front, sep);
    RangesAppend(front, sep);
    SinglesAppend(front + sep, run);
    RangesAppend(front + sep, run);
    assert sep[1..][1..] == [];
    assert Singles(sep) == [] && Ranges(sep) == [];
    assert Singles(front + sep) == Singles(front) + [];
    assert Ranges(front + sep) == Ranges(front) + [];
    assert Singles(front + sep + run) == Singles(front) + Singles(run);
    assert Ranges(front + sep + run) == Ranges(front) + Ranges(run);
    ExpandAppend(Ranges(front), Ranges(run));
  }

  /** The years the tokens of YearsText(ys) parse to are exactly the years of ys. */
  lemma {:induction false} YearsOfTokens(ys: seq<int>, y: int)
    requires NonNegative(ys)
    ensures y in Years(YearsTokens(ys)) <==> y in ys
    decreases |ys|
  {
    if ys != [] {
      var k := LastRunStart(ys);
      RunYears(ys, k, y);
      if k > 0 {
        SeparatedYears(YearsTokens(ys[..k]), RunTokens(ys, k), y);
        YearsOfTokens(ys[..k], y);
        assert ys == ys[..k] + ys[k..];
      } else {
        assert ys[k..] == ys;
      }
    }
  }

  lemma HeadIn(s: seq<int>)
    ensures |s| > 0 ==> s[0] in s
  {
  }

  /** Two strictly increasing lists with the same years are the same list. */
  lemma {:induction false} IncreasingUnique(a: seq<int>, b: seq<int>)
    requires StrictlyIncreasing(a) && StrictlyIncreasing(b)
    requires forall y :: y in a <==> y in b
    ensures a == b
    decreases |a|
  {
    if a == [] {
      HeadIn(b);
    } else {
      assert a[0] in a;
      assert a[0] == b[0] by {
        assert a[0] in b && b[0] in a;
      }
      forall y
        ensures y in a[1..] <==> y in b[1..]
      {
        if y in a[1..] {
          assert y > a[0] && y in b;
        }
        if y in b[1..] {
          assert y > b[0] && y in a;
        }
      }
      IncreasingUnique(a[1..], b[1..]);
      assert a == [a[0]] + a[1..] && b == [b[0]] + b[1..];
    }
  }

  /**
   * The round trip: a strictly increasing list of years in
   * 1900 < y <= currentYear parses back from its compressed text.
   */
  lemma {:induction false} RoundTrip(ys: seq<int>, currentYear: int)
    requires StrictlyIncreasing(ys)
    requires forall j :: 0 <= j < |ys| ==> 1900 < ys[j] <= currentYear
    ensures ParseYearsString(YearsText(ys), currentYear) == ys
  {
    LexYearsText(ys);
    var r := ParseYearsString(YearsText(ys), currentYear);
    forall y
      ensures y in r <==> y in ys
    {
      YearsOfTokens(ys, y);
    }
    IncreasingUnique(r, ys);
  }
}
