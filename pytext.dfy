/**
  The Python string built-ins the height-map reader and writer rely on:
  str.isspace, str.strip(), str.split() with no separator, str.split('\n'),
  str.replace(',', ''), int() applied to a str, and str() applied to an int.
 */
module PyText {
  import opened Wrappers

  /** Python's str.isspace for one character. */
  predicate IsSpace(ch: char) {
    ch == ' ' || '\t' <= ch <= '\r' || IsOtherSpace(ch)
  }

  /** The whitespace characters outside ASCII's space, tab and line breaks. */
  predicate IsOtherSpace(ch: char) {
    || '\U{1C}' <= ch <= '\U{1F}'
    || ch == '\U{85}' || ch == '\U{A0}' || ch == '\U{1680}'
    || '\U{2000}' <= ch <= '\U{200A}'
    || ch == '\U{2028}' || ch == '\U{2029}' || ch == '\U{202F}' || ch == '\U{205F}' || ch == '\U{3000}'
  }

  /** Every character is whitespace (Python: `not s.strip()`). */
  predicate IsBlank(s: string) {
    forall i :: 0 <= i < |s| ==> IsSpace(s[i])
  }

  /** No character is whitespace. */
  predicate NoSpace(s: string) {
    forall i :: 0 <= i < |s| ==> !IsSpace(s[i])
  }

  /** str.lstrip(): drops the leading whitespace. */
  function TrimStart(s: string): (r: string)
    ensures |r| <= |s| && r == s[|s| - |r|..]
    ensures r == [] <==> IsBlank(s)
    ensures r != [] ==> !IsSpace(r[0])
  {
    if s != [] && IsSpace(s[0]) then TrimStart(s[1..]) else s
  }

  /** str.rstrip(): drops the trailing whitespace. */
  function TrimEnd(s: string): (r: string)
    ensures |r| <= |s| && r == s[..|r|]
    ensures r == [] <==> IsBlank(s)
    ensures r != [] ==> !IsSpace(r[|r| - 1])
  {
    if s != [] && IsSpace(s[|s| - 1]) then TrimEnd(s[..|s| - 1]) else s
  }

  /** str.strip(): the string without surrounding whitespace. */
  function Strip(s: string): (r: string)
    ensures r == [] <==> IsBlank(s)
    ensures r != [] ==> !IsSpace(r[0]) && !IsSpace(r[|r| - 1])
    ensures s != [] && !IsSpace(s[0]) && !IsSpace(s[|s| - 1]) ==> r == s
  {
    TrimEnd(TrimStart(s))
  }

  /** Whitespace in front of whitespace is whitespace. */
  lemma BlankCons(ch: char, p: string)
    requires IsSpace(ch) && IsBlank(p)
    ensures IsBlank([ch] + p)
  {
    assert forall i :: 0 < i <= |p| ==> ([ch] + p)[i] == p[i - 1];
  }

  /** Whitespace after whitespace is whitespace. */
  lemma BlankSnoc(p: string, ch: char)
    requires IsBlank(p) && IsSpace(ch)
    ensures IsBlank(p + [ch])
  {
    assert forall i :: 0 <= i < |p| ==> (p + [ch])[i] == p[i];
  }

  /** The first k characters are the head and k - 1 characters of the tail. */
  lemma HeadSlice(s: string, k: nat)
    requires 1 <= k <= |s|
    ensures s[..k] == [s[0]] + s[1..][..k - 1]
  {
  }

  /** The characters from k on are those of the initial part, then the last. */
  lemma LastSlice(s: string, k: nat)
    requires k < |s|
    ensures s[k..] == s[..|s| - 1][k..] + [s[|s| - 1]]
  {
  }

  /** lstrip() removes only whitespace. */
  lemma {:induction false} TrimStartDropsBlank(s: string)
    ensures IsBlank(s[..|s| - |TrimStart(s)|])
  {
    if s != [] && IsSpace(s[0]) {
      TrimStartDropsBlank(s[1..]);
      var k := |s| - |TrimStart(s[1..])|;
      HeadSlice(s, k);
      BlankCons(s[0], s[1..][..k - 1]);
    }
  }

  /** rstrip() removes only whitespace. */
  lemma {:induction false} TrimEndDropsBlank(s: string)
    ensures IsBlank(s[|TrimEnd(s)|..])
  {
    if s != [] && IsSpace(s[|s| - 1]) {
      var init := s[..|s| - 1];
      TrimEndDropsBlank(init);
      var k := |TrimEnd(init)|;
      LastSlice(s, k);
      BlankSnoc(init[k..], s[|s| - 1]);
    }
  }

  /**
    strip() keeps a contiguous middle of the text and drops only whitespace
    on either side of it; together with Strip's own contract (the ends it
    keeps are not whitespace) this fixes the result on every input.
   */
  lemma StripIsInfix(s: string) returns (i: nat, j: nat)
    ensures i <= j <= |s| && Strip(s) == s[i..j]
    ensures IsBlank(s[..i]) && IsBlank(s[j..])
  {
    var t := TrimStart(s);
    var m := TrimEnd(t);
    var p := s[..|s| - |t|];
    var q := t[|m|..];
    TrimStartDropsBlank(s);
    TrimEndDropsBlank(t);
    SplitAt(s, |s| - |t|);
    SplitAt(t, |m|);
    i, j := |p|, |p| + |m|;
    ThreeParts(s, p, m, q);
  }

  /** A sequence is its first k elements followed by the rest. */
  lemma SplitAt(s: string, k: nat)
    requires k <= |s|
    ensures s == s[..k] + s[k..]
  {
  }

  /** The three parts of p + m + q are found again by slicing at |p| and |p| + |m|. */
  lemma ThreeParts(s: string, p: string, m: string, q: string)
    requires s == p + (m + q)
    ensures s[..|p|] == p && s[|p|..|p| + |m|] == m && s[|p| + |m|..] == q
  {
    assert s == p + m + q;
  }

  /** Length of the leading run of non-whitespace characters. */
  function WordLength(s: string): (n: nat)
    ensures n <= |s|
    ensures forall i :: 0 <= i < n ==> !IsSpace(s[i])
    ensures n < |s| ==> IsSpace(s[n])
  {
    if s == [] || IsSpace(s[0]) then 0 else 1 + WordLength(s[1..])
  }

  /** str.split() with no separator: the maximal runs of non-whitespace, in order. */
  function Words(s: string): (ws: seq<string>)
    ensures forall i :: 0 <= i < |ws| ==> ws[i] != [] && NoSpace(ws[i])
    ensures IsBlank(s) ==> ws == []
    decreases |s|
  {
    if s == [] then []
    else if IsSpace(s[0]) then Words(s[1..])
    else
      var n := WordLength(s);
      [s[..n]] + Words(s[n..])
  }

  /** A word that stops before the end of `a` stops at the same place in any extension of `a`. */
  lemma {:induction false} WordLengthPrefix(a: string, t: string)
    requires WordLength(a) < |a|
    ensures WordLength(a + t) == WordLength(a)
  {
    if !IsSpace(a[0]) {
      assert (a + t)[1..] == a[1..] + t;
      WordLengthPrefix(a[1..], t);
    }
  }

  /** Leading whitespace adds no word. */
  lemma {:induction false} BlankPrefix(sp: string, b: string)
    requires IsBlank(sp)
    ensures Words(sp + b) == Words(b)
  {
    if sp != [] {
      assert (sp + b)[0] == sp[0] && (sp + b)[1..] == sp[1..] + b;
      BlankPrefix(sp[1..], b);
    } else {
      assert sp + b == b;
    }
  }

  /** split() skips a leading whitespace character. */
  lemma WordsSkipSpace(s: string)
    requires s != [] && IsSpace(s[0])
    ensures Words(s) == Words(s[1..])
  {
  }

  /** split() takes the leading word, then splits the rest. */
  lemma WordsTakeWord(s: string)
    requires s != [] && !IsSpace(s[0])
    ensures Words(s) == [s[..WordLength(s)]] + Words(s[WordLength(s)..])
  {
  }

  /** Cutting a + t inside a. */
  lemma ConcatSlices(a: string, t: string, m: nat)
    requires m <= |a|
    ensures (a + t)[..m] == a[..m] && (a + t)[m..] == a[m..] + t
  {
  }

  /** WordsBeforeSpace for `a` that starts with whitespace, from the same for its tail. */
  lemma WordsSpaceStep(a: string, t: string)
    requires a != [] && IsSpace(a[0])
    requires Words(a[1..] + t) == Words(a[1..]) + Words(t)
    ensures Words(a + t) == Words(a) + Words(t)
  {
    ConcatSlices(a, t, 1);
    WordsSkipSpace(a + t);
    WordsSkipSpace(a);
  }

  /** A word that ends inside `a` is split off a + t as it is off `a`. */
  lemma WordsConcatHead(a: string, t: string)
    requires a != [] && !IsSpace(a[0]) && WordLength(a) < |a|
    ensures Words(a + t) == [a[..WordLength(a)]] + Words(a[WordLength(a)..] + t)
  {
    WordLengthPrefix(a, t);
    ConcatSlices(a, t, WordLength(a));
    WordsTakeWord(a + t);
  }

  /** WordsBeforeSpace for `a` that starts with a word ending inside it, from the same for the rest. */
  lemma WordsWordStep(a: string, t: string)
    requires a != [] && !IsSpace(a[0]) && WordLength(a) < |a|
    requires Words(a[WordLength(a)..] + t) == Words(a[WordLength(a)..]) + Words(t)
    ensures Words(a + t) == Words(a) + Words(t)
  {
    var m := WordLength(a);
    WordsConcatHead(a, t);
    WordsTakeWord(a);
    ConsAssoc(a[..m], Words(a[m..]), Words(t));
  }

  /** Putting one word in front of two lists of words, either way round. */
  lemma ConsAssoc(w: string, x: seq<string>, y: seq<string>)
    ensures [w] + (x + y) == ([w] + x) + y
  {
  }

  /** WordsBeforeSpace for `a` that is a single word. */
  lemma WordsLastWord(a: string, t: string)
    requires a != [] && !IsSpace(a[0]) && WordLength(a) == |a|
    requires t != [] && IsSpace(t[0])
    ensures Words(a + t) == Words(a) + Words(t)
  {
    var m := |a|;
    WordLengthOfWord(a, t);
    assert (a + t)[0] == a[0];
    assert (a + t)[..m] == a && (a + t)[m..] == t;
    assert a[..m] == a && a[m..] == [];
    assert Words(a) == [a];
  }

  /** Text that starts with whitespace ends the word before it. */
  lemma {:induction false} WordsBeforeSpace(a: string, t: string)
    requires t != [] && IsSpace(t[0])
    ensures Words(a + t) == Words(a) + Words(t)
    decreases |a|
  {
    if a == [] {
      assert a + t == t;
    } else if IsSpace(a[0]) {
      WordsBeforeSpace(a[1..], t);
      WordsSpaceStep(a, t);
    } else if WordLength(a) < |a| {
      WordsBeforeSpace(a[WordLength(a)..], t);
      WordsWordStep(a, t);
    } else {
      WordsLastWord(a, t);
    }
  }

  /**
    Any non-empty run of whitespace (spaces, tabs, several of them) separates
    the words on its two sides: split() of the whole is the words of the left
    part followed by the words of the right part.
   */
  lemma WordsSeparated(a: string, sp: string, b: string)
    requires sp != [] && IsBlank(sp)
    ensures Words(a + sp + b) == Words(a) + Words(b)
  {
    assert a + sp + b == a + (sp + b);
    assert (sp + b)[0] == sp[0];
    WordsBeforeSpace(a, sp + b);
    BlankPrefix(sp, b);
  }

  /** ' '.join(ws). */
  function JoinSpaced(ws: seq<string>): string {
    if |ws| == 0 then ""
    else if |ws| == 1 then ws[0]
    else ws[0] + " " + JoinSpaced(ws[1..])
  }

  lemma {:induction false} WordLengthOfWord(w: string, t: string)
    requires NoSpace(w)
    requires t == [] || IsSpace(t[0])
    ensures WordLength(w + t) == |w|
  {
    if w != [] {
      assert (w + t)[1..] == w[1..] + t;
      WordLengthOfWord(w[1..], t);
    }
  }

  /** Splitting words joined by single spaces gives the words back. */
  lemma {:induction false} WordsOfJoinSpaced(ws: seq<string>)
    requires forall i :: 0 <= i < |ws| ==> ws[i] != [] && NoSpace(ws[i])
    ensures Words(JoinSpaced(ws)) == ws
  {
    if |ws| == 1 {
      var w := ws[0];
      WordLengthOfWord(w, "");
      assert w + "" == w;
      assert w[|w|..] == [];
    } else if |ws| > 1 {
      var w, rest := ws[0], JoinSpaced(ws[1..]);
      var s := w + " " + rest;
      assert s == w + (" " + rest);
      WordLengthOfWord(w, " " + rest);
      assert s[..|w|] == w;
      assert s[|w|..] == " " + rest;
      assert (" " + rest)[1..] == rest;
      WordsOfJoinSpaced(ws[1..]);
    }
  }

  /** str.split('\n'): the pieces between newlines, always at least one. */
  function SplitLines(s: string): (ls: seq<string>)
    ensures |ls| >= 1
    ensures forall i :: 0 <= i < |ls| ==> '\n' !in ls[i]
  {
    if s == [] then [""]
    else
      var rest := SplitLines(s[1..]);
      if s[0] == '\n' then [""] + rest else [[s[0]] + rest[0]] + rest[1..]
  }

  /** Text with no newline is a single line. */
  lemma {:induction false} SplitLinesNoNewline(s: string)
    requires '\n' !in s
    ensures SplitLines(s) == [s]
  {
    if s != [] {
      SplitLinesNoNewline(s[1..]);
      assert [s[0]] + s[1..] == s;
    }
  }

  /** '\n'.join(ls), the inverse of SplitLines. */
  function JoinLines(ls: seq<string>): string
    requires |ls| >= 1
  {
    if |ls| == 1 then ls[0] else ls[0] + "\n" + JoinLines(ls[1..])
  }

  /** Joining the pieces of a split with newlines rebuilds the text. */
  lemma {:induction false} JoinSplitLines(s: string)
    ensures JoinLines(SplitLines(s)) == s
  {
    if s != [] {
      var rest := SplitLines(s[1..]);
      JoinSplitLines(s[1..]);
      if s[0] != '\n' {
        if |rest| == 1 {
          assert JoinLines(SplitLines(s)) == [s[0]] + rest[0];
        } else {
          assert rest == [rest[0]] + rest[1..];
          assert JoinLines(rest) == rest[0] + "\n" + JoinLines(rest[1..]);
        }
      }
    }
  }

  /** A line followed by a newline splits off as the first piece. */
  lemma {:induction false} SplitLinesCons(a: string, b: string)
    requires '\n' !in a
    ensures SplitLines(a + "\n" + b) == [a] + SplitLines(b)
  {
    if a != [] {
      assert (a + "\n" + b)[1..] == a[1..] + "\n" + b;
      SplitLinesCons(a[1..], b);
      assert [a[0]] + a[1..] == a;
    } else {
      assert a + "\n" + b == "\n" + b;
    }
  }

  /** str.replace(',', ''). */
  function RemoveCommas(s: string): (r: string)
    ensures ',' !in r
    ensures ',' !in s ==> r == s
    ensures |r| <= |s|
    ensures forall ch :: ch != ',' ==> multiset(r)[ch] == multiset(s)[ch]
  {
    if s == [] then []
    else
      assert s == [s[0]] + s[1..];
      (if s[0] == ',' then [] else [s[0]]) + RemoveCommas(s[1..])
  }

  /** Removing commas works piecewise, so the kept characters stay in order. */
  lemma {:induction false} RemoveCommasAppend(a: string, b: string)
    ensures RemoveCommas(a + b) == RemoveCommas(a) + RemoveCommas(b)
  {
    if a == [] {
      assert a + b == b;
    } else {
      assert (a + b)[0] == a[0] && (a + b)[1..] == a[1..] + b;
      RemoveCommasAppend(a[1..], b);
    }
  }

  predicate IsDigit(ch: char) {
    '0' <= ch <= '9'
  }

  predicate AllDigits(s: string) {
    forall i :: 0 <= i < |s| ==> IsDigit(s[i])
  }

  function DigitValue(ch: char): (d: nat)
    requires IsDigit(ch)
    ensures d < 10
  {
    (ch as int) - ('0' as int)
  }

  function DigitChar(d: nat): (ch: char)
    requires d < 10
    ensures IsDigit(ch) && DigitValue(ch) == d
  {
    (('0' as int) + d) as char
  }

  /** The value of a string of decimal digits, most significant first. */
  function DigitsValue(s: string): nat
    requires AllDigits(s)
  {
    if s == [] then 0 else DigitsValue(s[..|s| - 1]) * 10 + DigitValue(s[|s| - 1])
  }

  /** str(n) for a non-negative n: no leading zeros, and its digits read back as n. */
  function NatToDecimal(n: nat): (s: string)
    ensures s != [] && AllDigits(s)
    ensures DigitsValue(s) == n
    ensures s[0] == '0' ==> n == 0
  {
    if n < 10 then [DigitChar(n)]
    else
      var s := NatToDecimal(n / 10) + [DigitChar(n % 10)];
      assert s[..|s| - 1] == NatToDecimal(n / 10);
      s
  }

  /**
    int() of a str, for an optional '+' or '-' sign followed by one or more
    ASCII digits; None stands for the ValueError raised on anything else.
   */
  function ParseInt(s: string): (r: Option<int>)
    ensures r.Some? ==> s != [] && IsDigit(s[|s| - 1])
    ensures r.Some? && IsDigit(s[0]) ==> r.value >= 0
  {
    if s != [] && (s[0] == '+' || s[0] == '-') then
      var ds := s[1..];
      if ds != [] && AllDigits(ds) then
        Some(if s[0] == '-' then -(DigitsValue(ds) as int) else DigitsValue(ds))
      else None
    else if s != [] && AllDigits(s) then Some(DigitsValue(s))
    else None
  }

  /** The text int() accepts here: an optional '+' or '-', then one or more ASCII digits. */
  predicate IsIntLiteral(s: string) {
    if s != [] && (s[0] == '+' || s[0] == '-') then |s| > 1 && AllDigits(s[1..])
    else s != [] && AllDigits(s)
  }

  /**
    int() succeeds exactly on signed or unsigned numerals, and its value is
    the value of the digits, negated after a '-'.
   */
  lemma ParseIntAccepts(s: string)
    ensures ParseInt(s).Some? <==> IsIntLiteral(s)
    ensures ParseInt(s).Some? && s[0] == '-' ==> ParseInt(s).value == -(DigitsValue(s[1..]) as int)
    ensures ParseInt(s).Some? && s[0] == '+' ==> ParseInt(s).value == DigitsValue(s[1..])
    ensures ParseInt(s).Some? && IsDigit(s[0]) ==> ParseInt(s).value == DigitsValue(s)
  {
  }

  /** A leading zero does not change the value of a string of digits. */
  lemma {:induction false} LeadingZeroValue(ds: string)
    requires AllDigits(ds)
    ensures AllDigits("0" + ds) && DigitsValue("0" + ds) == DigitsValue(ds)
  {
    var s := "0" + ds;
    assert AllDigits(s) by {
      forall i | 0 <= i < |s|
        ensures IsDigit(s[i])
      {
        if i > 0 {
          assert s[i] == ds[i - 1];
        }
      }
    }
    if ds != [] {
      var init := ds[..|ds| - 1];
      assert s[..|s| - 1] == "0" + init;
      assert s[|s| - 1] == ds[|ds| - 1];
      LeadingZeroValue(init);
    }
  }

  /** int() ignores leading zeros: "007" reads as 7. */
  lemma LeadingZeroIgnored(ds: string)
    requires ds != [] && AllDigits(ds)
    ensures ParseInt("0" + ds) == ParseInt(ds)
  {
    LeadingZeroValue(ds);
  }

  /** int() ignores a leading '+': "+5" reads as 5. */
  lemma LeadingPlusIgnored(ds: string)
    requires ds != [] && AllDigits(ds)
    ensures ParseInt("+" + ds) == ParseInt(ds)
  {
    assert ("+" + ds)[1..] == ds;
  }

  /** int() of "-" followed by digits is the negation of int() of the digits. */
  lemma LeadingMinusNegates(ds: string)
    requires ds != [] && AllDigits(ds)
    ensures ParseInt("-" + ds) == Some(-ParseInt(ds).value)
  {
    assert ("-" + ds)[1..] == ds;
  }

  /** str() of an int: a '-' for negatives, then the decimal digits. */
  function IntToDecimal(n: int): (s: string)
    ensures ParseInt(s) == Some(n)
    ensures s != [] && NoSpace(s) && ',' !in s && '\n' !in s
  {
    var s := if n < 0 then "-" + NatToDecimal(-n) else NatToDecimal(n);
    assert n < 0 ==> s[1..] == NatToDecimal(-n);
    assert forall i :: 0 <= i < |s| ==> s[i] == '-' || IsDigit(s[i]);
    s
  }
}
