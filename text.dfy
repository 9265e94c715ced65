/** The Python string built-ins the ledger relies on, as pure functions over
    `seq<char>`: substring search (`sep in row`), `row.split(sep)[1]`,
    `str.strip()`, `file.readlines()` in text mode, `'\n'.join(...)`,
    `str(int)` and `int(str)`. */
module Text {
  import opened Wrappers

  /** Text written by successive `file.write` calls, one per element. */
  function Concat(parts: seq<string>): string
  {
    if parts == [] then "" else parts[0] + Concat(parts[1..])
  }

  lemma ConcatSingle(s: string)
    ensures Concat([s]) == s
  {
    assert [s][1..] == [];
  }

  lemma {:induction false} ConcatAppend(a: seq<string>, b: seq<string>)
    ensures Concat(a + b) == Concat(a) + Concat(b)
  {
    if a != [] {
      assert (a + b)[1..] == a[1..] + b;
      ConcatAppend(a[1..], b);
    } else {
      assert a + b == b;
    }
  }

  /** `sep.join(parts)` */
  function Join(sep: string, parts: seq<string>): string
  {
    if |parts| == 0 then ""
    else if |parts| == 1 then parts[0]
    else parts[0] + sep + Join(sep, parts[1..])
  }

  /** Joining one more part adds the separator and the part at the end. */
  lemma {:induction false} JoinSnoc(sep: string, parts: seq<string>, p: string)
    requires parts != []
    ensures Join(sep, parts + [p]) == Join(sep, parts) + sep + p
  {
    if |parts| > 1 {
      assert (parts + [p])[1..] == parts[1..] + [p];
      JoinSnoc(sep, parts[1..], p);
    } else {
      assert (parts + [p])[1..] == [p];
    }
  }

  /** Every part followed by `sep`. */
  function Terminated(parts: seq<string>, sep: string): (ts: seq<string>)
    ensures |ts| == |parts|
  {
    seq(|parts|, i requires 0 <= i < |parts| => parts[i] + sep)
  }

  /** Joining with one more, empty, part puts `sep` after every part. */
  lemma {:induction false} JoinThenEmpty(sep: string, parts: seq<string>)
    ensures Join(sep, parts + [""]) == Concat(Terminated(parts, sep))
  {
    var ts := Terminated(parts, sep);
    if parts == [] {
      assert parts + [""] == [""];
      assert ts == [];
    } else {
      var xs := parts + [""];
      assert xs[1..] == parts[1..] + [""];
      JoinThenEmpty(sep, parts[1..]);
      assert ts[1..] == Terminated(parts[1..], sep);
    }
  }

  // ---------------------------------------------------------------------
  // Substring search and split

  /** `pat` occurs in `s` starting at position `j`. */
  predicate OccursAt(s: string, pat: string, j: nat)
  {
    j + |pat| <= |s| && s[j..j + |pat|] == pat
  }

  lemma OccursAtTail(s: string, pat: string)
    requires s != []
    ensures forall j: nat :: j > 0 ==> (OccursAt(s, pat, j) <==> OccursAt(s[1..], pat, j - 1))
  {
    forall j: nat | j > 0
      ensures OccursAt(s, pat, j) <==> OccursAt(s[1..], pat, j - 1)
    {
      if j + |pat| <= |s| {
        assert s[1..][j - 1..j - 1 + |pat|] == s[j..j + |pat|];
      }
    }
  }

  /** Position of the first occurrence of `pat` in `s`, as `s.find(pat)`;
      `pat in s` is `Find(s, pat).Some?`. */
  function Find(s: string, pat: string): (r: Option<nat>)
    ensures r.Some? ==> OccursAt(s, pat, r.value)
    ensures r.Some? ==> forall j: nat :: j < r.value ==> !OccursAt(s, pat, j)
    ensures r.None? ==> forall j: nat :: !OccursAt(s, pat, j)
    decreases |s|
  {
    if |s| < |pat| then None
    else if s[..|pat|] == pat then Some(0)
    else
      assert s[0..|pat|] == s[..|pat|];
      OccursAtTail(s, pat);
      match Find(s[1..], pat)
      case None => None
      case Some(k) => Some(k + 1)
  }

  /** A string that starts with the pattern has it at index 0. */
  lemma FindAtStart(s: string, pat: string)
    requires |pat| <= |s| && s[..|pat|] == pat
    ensures Find(s, pat) == Some(0)
  {
  }

  /** A pattern whose first character does not occur in `a` is found in
      `a + b` exactly where it is found in `b`, shifted by `|a|`. */
  lemma {:induction false} FindSkipsPrefix(a: string, b: string, pat: string)
    requires pat != [] && pat[0] !in a
    ensures Find(a + b, pat) == match Find(b, pat)
                                 case None => None
                                 case Some(k) => Some(k + |a|)
  {
    if a != [] {
      assert (a + b)[1..] == a[1..] + b;
      FindSkipsPrefix(a[1..], b, pat);
      if |a + b| >= |pat| {
        assert (a + b)[..|pat|][0] == a[0];
      }
    } else {
      assert a + b == b;
    }
  }

  /** Appending a character the pattern does not hold cannot create an occurrence. */
  lemma {:induction false} FindNoneExtend(v: string, c: char, pat: string)
    requires pat != [] && Find(v, pat).None? && c !in pat
    ensures Find(v + [c], pat).None?
  {
    var s := v + [c];
    forall j: nat
      ensures !OccursAt(s, pat, j)
    {
      if j + |pat| > |s| {
      } else if j + |pat| <= |v| {
        assert s[j..j + |pat|] == v[j..j + |pat|];
        assert !OccursAt(v, pat, j);
      } else {
        assert s[j..j + |pat|][|pat| - 1] == c;
      }
    }
  }

  /** `row.split(sep)[1]`: the text between the first occurrence of `sep`
      and the next one (or the end of `row`). */
  function SplitSecond(row: string, sep: string): (v: string)
    requires Find(row, sep).Some?
    ensures var start := Find(row, sep).value + |sep|;
            start + |v| <= |row| && v == row[start..start + |v|]
    ensures sep != [] ==> Find(v, sep).None?
    ensures var start := Find(row, sep).value + |sep|;
            start + |v| == |row| || OccursAt(row, sep, start + |v|)
    ensures var start := Find(row, sep).value + |sep|;
            forall j: nat :: start <= j < start + |v| ==> !OccursAt(row, sep, j)
  {
    var start := Find(row, sep).value + |sep|;
    SuffixPieceInRow(row, start, sep);
    UpToSeparator(row[start..], sep)
  }

  /** A piece cut from `row[start..]` by `UpToSeparator`, read in `row` itself. */
  lemma SuffixPieceInRow(row: string, start: nat, sep: string)
    requires start <= |row|
    ensures var v := UpToSeparator(row[start..], sep);
            start + |v| <= |row| && v == row[start..start + |v|]
    ensures var v := UpToSeparator(row[start..], sep);
            start + |v| == |row| || OccursAt(row, sep, start + |v|)
    ensures var v := UpToSeparator(row[start..], sep);
            forall j: nat :: start <= j < start + |v| ==> !OccursAt(row, sep, j)
  {
    var v := UpToSeparator(row[start..], sep);
    PrefixOfSuffix(row, start, |v|);
    if start + |v| < |row| {
      OccursInSuffix(row, start, sep, |v|);
    }
    forall j: nat | start <= j < start + |v|
      ensures !OccursAt(row, sep, j)
    {
      OccursInSuffix(row, start, sep, j - start);
    }
  }

  /** The longest prefix of `rest` that precedes the first occurrence of `sep`. */
  function UpToSeparator(rest: string, sep: string): (v: string)
    ensures |v| <= |rest| && v == rest[..|v|]
    ensures sep != [] ==> Find(v, sep).None?
    ensures |v| == |rest| || OccursAt(rest, sep, |v|)
    ensures forall j: nat :: j < |v| ==> !OccursAt(rest, sep, j)
  {
    match Find(rest, sep)
    case None => rest
    case Some(j) =>
      if sep != [] then FindNoneBefore(rest, sep, j); rest[..j]
      else rest[..j]
  }

  lemma PrefixOfSuffix<T>(s: seq<T>, start: nat, n: nat)
    requires start + n <= |s|
    ensures s[start..][..n] == s[start..start + n]
  {
  }

  /** The occurrences in a suffix of `s` are those in `s`, shifted. */
  lemma OccursInSuffix(s: string, start: nat, pat: string, j: nat)
    requires start <= |s|
    ensures OccursAt(s[start..], pat, j) <==> OccursAt(s, pat, start + j)
  {
    if start + j + |pat| <= |s| {
      assert s[start..][j..j + |pat|] == s[start + j..start + j + |pat|];
    }
  }

  lemma SliceOfPrefix<T>(s: seq<T>, j: nat, a: nat, b: nat)
    requires a <= b <= j <= |s|
    ensures s[..j][a..b] == s[a..b]
  {
  }

  /** Nothing before the first occurrence holds another one. */
  lemma FindNoneBefore(s: string, pat: string, j: nat)
    requires pat != [] && Find(s, pat) == Some(j)
    ensures Find(s[..j], pat).None?
  {
    var p := s[..j];
    forall k: nat
      ensures !OccursAt(p, pat, k)
    {
      if k + |pat| <= |p| {
        SliceOfPrefix(s, j, k, k + |pat|);
        assert k < j;
        assert !OccursAt(s, pat, k);
      }
    }
  }

  // ---------------------------------------------------------------------
  // Whitespace and strip

  /** The characters for which Python's `str.isspace()` holds. */
  predicate IsSpace(c: char)
  {
    || '\t' <= c <= '\r'
    || '\U{001C}' <= c <= ' '
    || c == '\U{0085}' || c == '\U{00A0}' || c == '\U{1680}'
    || '\U{2000}' <= c <= '\U{200A}'
    || c == '\U{2028}' || c == '\U{2029}' || c == '\U{202F}' || c == '\U{205F}'
    || c == '\U{3000}'
  }

  /** `s.lstrip()`: the longest suffix of `s` that does not start with whitespace. */
  function TrimLeft(s: string): (r: string)
    ensures |r| <= |s| && forall k :: 0 <= k < |r| ==> r[k] == s[|s| - |r| + k]
    ensures r == [] || !IsSpace(r[0])
    ensures forall k :: 0 <= k < |s| - |r| ==> IsSpace(s[k])
  {
    if |s| > 0 && IsSpace(s[0]) then TrimLeft(s[1..]) else s
  }

  /** `s.rstrip()`: the longest prefix of `s` that does not end with whitespace. */
  function TrimRight(s: string): (r: string)
    ensures |r| <= |s| && forall k :: 0 <= k < |r| ==> r[k] == s[k]
    ensures r == [] || !IsSpace(r[|r| - 1])
    ensures forall k :: |r| <= k < |s| ==> IsSpace(s[k])
  {
    if |s| > 0 && IsSpace(s[|s| - 1]) then TrimRight(s[..|s| - 1]) else s
  }

  /** `s.strip()` */
  function Strip(s: string): string
  {
    TrimLeft(TrimRight(s))
  }

  /** A line terminator makes no difference to `strip()`. */
  lemma StripLineEnd(v: string)
    ensures Strip(v + "\n") == Strip(v)
  {
    assert (v + "\n")[..|v|] == v;
  }

  // ---------------------------------------------------------------------
  // readlines()

  /** Universal-newline translation of text mode: `\r\n` and a lone `\r`
      are read as `\n`. */
  function TranslateNewlines(s: string): (r: string)
    ensures '\r' !in r
  {
    if s == [] then []
    else if s[0] == '\r' then
      if |s| > 1 && s[1] == '\n' then "\n" + TranslateNewlines(s[2..])
      else "\n" + TranslateNewlines(s[1..])
    else [s[0]] + TranslateNewlines(s[1..])
  }

  lemma {:induction false} TranslateNoCarriageReturn(s: string)
    requires '\r' !in s
    ensures TranslateNewlines(s) == s
  {
    if s != [] {
      assert '\r' !in s[1..] by { assert forall c :: c in s[1..] ==> c in s; }
      TranslateNoCarriageReturn(s[1..]);
    }
  }

  /** A line as `readlines` returns it: non-empty, with `\n` at most at its end. */
  predicate IsLine(l: string)
  {
    |l| > 0 && forall k :: 0 <= k < |l| - 1 ==> l[k] != '\n'
  }

  /** A line ending in `\n` and holding no `\r`, as every line of a file the
      ledger writes itself. */
  predicate IsTerminatedLine(l: string)
  {
    IsLine(l) && l[|l| - 1] == '\n' && '\r' !in l
  }

  /** Every line of `ls` is a terminated line. */
  predicate AllTerminated(ls: seq<string>)
  {
    forall i :: 0 <= i < |ls| ==> IsTerminatedLine(ls[i])
  }

  /** Splitting after every `\n`, keeping the terminators. */
  function SplitLines(s: string): (r: seq<string>)
    ensures Concat(r) == s
    ensures forall i :: 0 <= i < |r| ==> IsLine(r[i]) && (i < |r| - 1 ==> r[i][|r[i]| - 1] == '\n')
  {
    if s == [] then []
    else
      var rest := SplitLines(s[1..]);
      if s[0] == '\n' || rest == [] then
        assert Concat([[s[0]]] + rest) == [s[0]] + Concat(rest);
        [[s[0]]] + rest
      else
        var r := [[s[0]] + rest[0]] + rest[1..];
        assert Concat(r) == [s[0]] + Concat(rest);
        r
  }

  /** `file.readlines()` on a file opened in text mode. */
  function ReadLines(text: string): seq<string>
  {
    SplitLines(TranslateNewlines(text))
  }

  lemma {:induction false} SplitLinesCons(l: string, t: string)
    requires IsLine(l) && l[|l| - 1] == '\n'
    ensures SplitLines(l + t) == [l] + SplitLines(t)
    decreases |l|
  {
    if |l| == 1 {
      assert l + t == ['\n'] + t;
      assert (l + t)[1..] == t;
    } else {
      var s, tail := l + t, l[1..];
      assert s[1..] == tail + t;
      assert s[0] == l[0] != '\n';
      assert IsLine(tail) by {
        assert forall k :: 0 <= k < |tail| - 1 ==> tail[k] == l[k + 1];
      }
      SplitLinesCons(tail, t);
      var rest := SplitLines(tail + t);
      assert rest == [tail] + SplitLines(t);
      assert [s[0]] + rest[0] == l;
      assert rest[1..] == SplitLines(t);
    }
  }

  /** Reading back text written as a sequence of terminated lines gives those lines. */
  lemma {:induction false} ReadLinesOfConcat(ls: seq<string>)
    requires AllTerminated(ls)
    ensures ReadLines(Concat(ls)) == ls
  {
    NoCarriageReturnInConcat(ls);
    TranslateNoCarriageReturn(Concat(ls));
    SplitLinesOfConcat(ls);
  }

  lemma {:induction false} NoCarriageReturnInConcat(ls: seq<string>)
    requires forall i :: 0 <= i < |ls| ==> '\r' !in ls[i]
    ensures '\r' !in Concat(ls)
  {
    if ls != [] {
      NoCarriageReturnInConcat(ls[1..]);
    }
  }

  lemma {:induction false} SplitLinesOfConcat(ls: seq<string>)
    requires AllTerminated(ls)
    ensures SplitLines(Concat(ls)) == ls
  {
    if ls != [] {
      SplitLinesCons(ls[0], Concat(ls[1..]));
      SplitLinesOfConcat(ls[1..]);
    }
  }

  // ---------------------------------------------------------------------
  // str(int) and int(str)

  predicate IsDigit(c: char)
  {
    '0' <= c <= '9'
  }

  function DigitChar(d: nat): (c: char)
    requires d < 10
    ensures IsDigit(c) && DigitValue(c) == d
  {
    (d + '0' as int) as char
  }

  function DigitValue(c: char): (d: nat)
    requires IsDigit(c)
    ensures d < 10
  {
    c as int - '0' as int
  }

  /** Decimal digits of `n` without leading zeros. */
  function NatToDecimal(n: nat): (s: string)
    ensures |s| > 0 && forall k :: 0 <= k < |s| ==> IsDigit(s[k])
    ensures |s| > 1 ==> s[0] != '0'
  {
    if n < 10 then [DigitChar(n)] else NatToDecimal(n / 10) + [DigitChar(n % 10)]
  }

  /** `str(n)` */
  function IntToDecimal(n: int): string
  {
    if n < 0 then "-" + NatToDecimal(-n) else NatToDecimal(n)
  }

  /** The value of a string of decimal digits. */
  function DecimalValue(s: string): nat
    requires forall k :: 0 <= k < |s| ==> IsDigit(s[k])
  {
    if s == [] then 0
    else DecimalValue(s[..|s| - 1]) * 10 + DigitValue(s[|s| - 1])
  }

  predicate AllDigits(s: string)
  {
    |s| > 0 && forall k :: 0 <= k < |s| ==> IsDigit(s[k])
  }

  /** `int(s)` for a sign followed by ASCII digits, after `int`'s own
      stripping of surrounding whitespace; `None` where Python raises
      `ValueError`. */
  function ParseInt(s: string): Option<int>
  {
    var t := Strip(s);
    if |t| > 0 && (t[0] == '-' || t[0] == '+') then
      if AllDigits(t[1..]) then
        var magnitude: int := DecimalValue(t[1..]);
        Some(if t[0] == '-' then -magnitude else magnitude)
      else None
    else if AllDigits(t) then Some(DecimalValue(t))
    else None
  }

  lemma {:induction false} DecimalValueOfNat(n: nat)
    ensures DecimalValue(NatToDecimal(n)) == n
  {
    if n >= 10 {
      var s := NatToDecimal(n);
      assert s[..|s| - 1] == NatToDecimal(n / 10);
      DecimalValueOfNat(n / 10);
    }
  }

  /** `str(n)` is made of digits and at most a leading minus sign. */
  lemma DecimalChars(n: int)
    ensures forall k :: 0 <= k < |IntToDecimal(n)| ==> IsDigit(IntToDecimal(n)[k]) || IntToDecimal(n)[k] == '-'
  {
    if n < 0 {
      assert IntToDecimal(n)[1..] == NatToDecimal(-n);
    }
  }

  /** A string that neither starts nor ends with whitespace is left alone by `strip()`. */
  lemma StripUnchanged(s: string)
    requires |s| > 0 && !IsSpace(s[0]) && !IsSpace(s[|s| - 1])
    ensures Strip(s) == s
  {
  }

  lemma ParseIntOfNat(n: nat)
    ensures ParseInt(NatToDecimal(n)) == Some(n)
  {
    var s := NatToDecimal(n);
    assert IsDigit(s[0]) && IsDigit(s[|s| - 1]);
    StripUnchanged(s);
    assert s[0] != '-' && s[0] != '+';
    assert AllDigits(s);
    DecimalValueOfNat(n);
  }

  /** `str(n)` has no surrounding whitespace. */
  lemma DecimalStripped(n: int)
    ensures Strip(IntToDecimal(n)) == IntToDecimal(n)
  {
    var s := IntToDecimal(n);
    if n < 0 {
      var t := NatToDecimal(-n);
      assert s == "-" + t;
      assert s[|s| - 1] == t[|t| - 1];
    }
    assert !IsSpace(s[0]) && !IsSpace(s[|s| - 1]);
    StripUnchanged(s);
  }

  /** `int("-" + t)` for a string of digits `t` whose value is `m`. */
  lemma ParseIntMinus(t: string, m: nat)
    requires AllDigits(t) && DecimalValue(t) == m
    ensures ParseInt("-" + t) == Some(-(m as int))
  {
    var s := "-" + t;
    assert s[0] == '-' && s[1..] == t && s[|s| - 1] == t[|t| - 1];
    StripUnchanged(s);
  }

  lemma ParseIntOfNegative(n: int)
    requires n < 0
    ensures ParseInt(IntToDecimal(n)) == Some(n)
  {
    var t := NatToDecimal(-n);
    DecimalValueOfNat(-n);
    ParseIntMinus(t, -n);
    assert IntToDecimal(n) == "-" + t;
  }

  /** `int(str(n)) == n` */
  lemma ParseIntOfDecimal(n: int)
    ensures ParseInt(IntToDecimal(n)) == Some(n)
  {
    if n < 0 {
      ParseIntOfNegative(n);
    } else {
      ParseIntOfNat(n);
    }
  }

  /** `str` is injective on integers. */
  lemma DecimalInjective(m: int, n: int)
    requires IntToDecimal(m) == IntToDecimal(n)
    ensures m == n
  {
    ParseIntOfDecimal(m);
    ParseIntOfDecimal(n);
  }
}
