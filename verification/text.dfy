/** String helpers shared by the renderers: decimal rendering of integers (as
    JavaScript's `String(n)` writes them), substring search (`includes`) and
    splitting/joining on line breaks. */
module Text {

  predicate IsDigit(c: char) { '0' <= c <= '9' }

  function DigitChar(d: nat): (c: char)
    requires d < 10
    ensures IsDigit(c)
  {
    ('0' as int + d) as char
  }

  function DigitValue(c: char): (d: nat)
    requires IsDigit(c)
    ensures d < 10
  {
    c as int - '0' as int
  }

  /** Decimal digits of `n`, most significant first, without leading zeros. */
  function NatToString(n: nat): (s: string)
    ensures |s| >= 1
    ensures forall i :: 0 <= i < |s| ==> IsDigit(s[i])
    ensures |s| > 1 ==> s[0] != '0'
    decreases n
  {
    if n < 10 then [DigitChar(n)] else NatToString(n / 10) + [DigitChar(n % 10)]
  }

  /** Reads a string of decimal digits back as a number. */
  function ParseNat(s: string): nat
    requires forall i :: 0 <= i < |s| ==> IsDigit(s[i])
    decreases |s|
  {
    if s == [] then 0 else ParseNat(s[..|s| - 1]) * 10 + DigitValue(s[|s| - 1])
  }

  lemma {:induction false} ParseNatToString(n: nat)
    ensures ParseNat(NatToString(n)) == n
    decreases n
  {
    if n >= 10 {
      var s := NatToString(n);
      assert s[..|s| - 1] == NatToString(n / 10);
      ParseNatToString(n / 10);
    }
  }

  /** Distinct numbers render differently, so a rendered port identifies its port. */
  lemma NatToStringInjective(a: nat, b: nat)
    requires NatToString(a) == NatToString(b)
    ensures a == b
  {
    ParseNatToString(a);
    ParseNatToString(b);
  }

  /** `String(i)` for an integer: a minus sign before the digits of a negative value. */
  function IntToString(i: int): (s: string)
    ensures |s| >= 1
    ensures i >= 0 ==> s == NatToString(i)
    ensures i < 0 ==> s[0] == '-' && s[1..] == NatToString(-i)
  {
    if i < 0 then "-" + NatToString(-i) else NatToString(i)
  }

  lemma IntToStringInjective(a: int, b: int)
    requires IntToString(a) == IntToString(b)
    ensures a == b
  {
    if a < 0 && b < 0 {
      NatToStringInjective(-a, -b);
    } else if a >= 0 && b >= 0 {
      NatToStringInjective(a, b);
    }
  }

  predicate IsPrefix(p: string, s: string) {
    |p| <= |s| && s[..|p|] == p
  }

  /** JavaScript's `s.includes(sub)`. */
  predicate Contains(s: string, sub: string) {
    exists i :: 0 <= i <= |s| && IsPrefix(sub, s[i..])
  }

  lemma ContainsAt(s: string, sub: string, i: nat)
    requires i + |sub| <= |s| && s[i..i + |sub|] == sub
    ensures Contains(s, sub)
  {
    assert IsPrefix(sub, s[i..]);
  }

  /** SQLite's BINARY collation on text: code-point order, a proper prefix first. */
  predicate TextLe(a: string, b: string)
    decreases |a|
  {
    if |a| == 0 then true
    else if |b| == 0 then false
    else if a[0] != b[0] then a[0] < b[0]
    else TextLe(a[1..], b[1..])
  }

  lemma {:induction false} TextLeTotal(a: string, b: string)
    ensures TextLe(a, b) || TextLe(b, a)
    decreases |a|
  {
    if |a| > 0 && |b| > 0 && a[0] == b[0] {
      TextLeTotal(a[1..], b[1..]);
    }
  }

  lemma {:induction false} TextLeTrans(a: string, b: string, c: string)
    requires TextLe(a, b) && TextLe(b, c)
    ensures TextLe(a, c)
    decreases |a|
  {
    if |a| > 0 && |b| > 0 && |c| > 0 && a[0] == b[0] && b[0] == c[0] {
      TextLeTrans(a[1..], b[1..], c[1..]);
    }
  }

  lemma {:induction false} TextLeAntisym(a: string, b: string)
    requires TextLe(a, b) && TextLe(b, a)
    ensures a == b
    decreases |a|
  {
    if |a| > 0 && |b| > 0 {
      TextLeAntisym(a[1..], b[1..]);
      assert a == [a[0]] + a[1..] && b == [b[0]] + b[1..];
    }
  }

  /** `s` has no occurrence of `c`. */
  predicate Lacks(s: string, c: char) {
    forall i :: 0 <= i < |s| ==> s[i] != c
  }

  lemma LacksAppend(a: string, b: string, c: char)
    requires Lacks(a, c) && Lacks(b, c)
    ensures Lacks(a + b, c)
  {
    assert forall i :: |a| <= i < |a + b| ==> (a + b)[i] == b[i - |a|];
  }

  predicate NoNewline(s: string) {
    Lacks(s, '\n')
  }

  /** Lines without a line break stay so when concatenated. */
  lemma LinesSingleAppend(a: seq<string>, b: seq<string>)
    requires forall i :: 0 <= i < |a| ==> NoNewline(a[i])
    requires forall i :: 0 <= i < |b| ==> NoNewline(b[i])
    ensures forall i :: 0 <= i < |a + b| ==> NoNewline((a + b)[i])
  {
    assert forall i :: |a| <= i < |a + b| ==> (a + b)[i] == b[i - |a|];
  }

  /** Regrouping lines; stated once so that long concatenations need not be
      re-associated inside bigger proofs. */
  lemma AppendAssoc(a: seq<string>, b: seq<string>, c: seq<string>)
    ensures (a + b) + c == a + (b + c)
  {
  }

  /** Index of the first `c` in `s`, or `|s|` when there is none. */
  function IndexOfChar(s: string, c: char): (k: nat)
    ensures k <= |s|
    ensures forall j :: 0 <= j < k ==> s[j] != c
    ensures k < |s| ==> s[k] == c
    decreases |s|
  {
    if |s| == 0 || s[0] == c then 0 else 1 + IndexOfChar(s[1..], c)
  }

  lemma IndexOfCharMissing(a: string, c: char)
    requires Lacks(a, c)
    ensures IndexOfChar(a, c) == |a|
  {
  }

  lemma IndexOfCharAfter(a: string, c: char, rest: string)
    requires Lacks(a, c)
    ensures IndexOfChar(a + [c] + rest, c) == |a|
  {
    var s := a + [c] + rest;
    assert s[|a|] == c;
    assert forall j :: 0 <= j < |a| ==> s[j] == a[j];
  }

  /** Lines glued with a line break between consecutive lines, the way a
      multi-line template literal lays them out. */
  function JoinLines(lines: seq<string>): string
    decreases |lines|
  {
    if |lines| == 0 then ""
    else if |lines| == 1 then lines[0]
    else lines[0] + "\n" + JoinLines(lines[1..])
  }

  /** Splits on every line break; the reader of a rendered text file. */
  function SplitLines(s: string): (lines: seq<string>)
    ensures |lines| >= 1
    decreases |s|
  {
    var k := IndexOfChar(s, '\n');
    if k == |s| then [s] else [s[..k]] + SplitLines(s[k + 1..])
  }

  /** Lines each ended by a line break, the way a file built by appending
      newline-terminated pieces is laid out. */
  function Unlines(lines: seq<string>): string
    decreases |lines|
  {
    if |lines| == 0 then "" else lines[0] + "\n" + Unlines(lines[1..])
  }

  lemma {:induction false} UnlinesJoin(lines: seq<string>)
    ensures Unlines(lines) == JoinLines(lines + [""])
    decreases |lines|
  {
    if |lines| > 0 {
      assert (lines + [""])[1..] == lines[1..] + [""];
      UnlinesJoin(lines[1..]);
    }
  }

  lemma {:induction false} UnlinesAppend(a: seq<string>, b: seq<string>)
    ensures Unlines(a + b) == Unlines(a) + Unlines(b)
    decreases |a|
  {
    if |a| > 0 {
      assert (a + b)[1..] == a[1..] + b;
      UnlinesAppend(a[1..], b);
    } else {
      assert a + b == b;
    }
  }

  /** Splitting undoes joining, provided no line carries its own line break. */
  lemma {:induction false} SplitJoinLines(lines: seq<string>)
    requires |lines| >= 1
    requires forall i :: 0 <= i < |lines| ==> NoNewline(lines[i])
    ensures SplitLines(JoinLines(lines)) == lines
    decreases |lines|
  {
    var s := JoinLines(lines);
    var a := lines[0];
    if |lines| == 1 {
      IndexOfCharMissing(a, '\n');
    } else {
      var rest := JoinLines(lines[1..]);
      assert s == a + "\n" + rest;
      IndexOfCharAfter(a, '\n', rest);
      assert s[..|a|] == a;
      assert s[|a| + 1..] == rest;
      SplitJoinLines(lines[1..]);
    }
  }

  /** A line without a break of its own splits off the front of a text. */
  lemma SplitFront(a: string, tail: string)
    requires NoNewline(a)
    ensures SplitLines(a + "\n" + tail) == [a] + SplitLines(tail)
  {
    var s := a + "\n" + tail;
    IndexOfCharAfter(a, '\n', tail);
    assert s[..|a|] == a;
    assert s[|a| + 1..] == tail;
  }

  lemma UnlinesCons(lines: seq<string>, rest: string)
    requires |lines| > 0
    ensures Unlines(lines) + rest == lines[0] + "\n" + (Unlines(lines[1..]) + rest)
  {
  }

  lemma ConsAssoc<T>(a: seq<T>, b: seq<T>)
    requires |a| > 0
    ensures [a[0]] + (a[1..] + b) == a + b
  {
    assert a == [a[0]] + a[1..];
  }

  /** Splitting at a line break splits each side on its own, whatever either
      side holds. */
  lemma {:induction false} SplitLinesCat(a: string, b: string)
    ensures SplitLines(a + "\n" + b) == SplitLines(a) + SplitLines(b)
    decreases |a|
  {
    var k := IndexOfChar(a, '\n');
    if k == |a| {
      IndexOfCharMissingIff(a);
      SplitFront(a, b);
    } else {
      var s := a + "\n" + b;
      var rest := a[k + 1..];
      IndexOfCharPrefix(a, "\n" + b, '\n');
      assert s == a + ("\n" + b);
      assert s[k + 1..] == rest + "\n" + b;
      SplitAt(s, k, a[..k], rest + "\n" + b);
      SplitAt(a, k, a[..k], rest);
      SplitLinesCat(rest, b);
      ConsAssoc([a[..k]] + SplitLines(rest), SplitLines(b));
    }
  }

  lemma IndexOfCharMissingIff(a: string)
    requires IndexOfChar(a, '\n') == |a|
    ensures NoNewline(a)
  {
  }

  /** One step of the splitter, at the first line break. */
  lemma SplitAt(s: string, k: nat, head: string, tail: string)
    requires k == IndexOfChar(s, '\n') && k < |s|
    requires head == s[..k] && tail == s[k + 1..]
    ensures SplitLines(s) == [head] + SplitLines(tail)
  {
  }

  lemma IndexOfCharPrefix(a: string, t: string, c: char)
    requires IndexOfChar(a, c) < |a|
    ensures IndexOfChar(a + t, c) == IndexOfChar(a, c)
  {
    var k := IndexOfChar(a, c);
    var m := IndexOfChar(a + t, c);
    assert (a + t)[k] == c;
    if m < k {
      assert (a + t)[m] == a[m];
    }
  }

  /** A joined line with no break of its own is one of the lines the text
      splits into, whatever the other lines hold. */
  lemma {:induction false} JoinLinesMember(lines: seq<string>, i: nat)
    requires i < |lines| && NoNewline(lines[i])
    ensures lines[i] in SplitLines(JoinLines(lines))
    decreases |lines|
  {
    if |lines| == 1 {
      IndexOfCharMissing(lines[0], '\n');
    } else {
      SplitLinesCat(lines[0], JoinLines(lines[1..]));
      if i == 0 {
        IndexOfCharMissing(lines[0], '\n');
      } else {
        JoinLinesMember(lines[1..], i - 1);
      }
    }
  }

  /** Newline-terminated lines without breaks of their own split back off the
      front of a text, whatever follows them. */
  lemma {:induction false} SplitUnlines(lines: seq<string>, rest: string)
    requires forall i :: 0 <= i < |lines| ==> NoNewline(lines[i])
    ensures SplitLines(Unlines(lines) + rest) == lines + SplitLines(rest)
    decreases |lines|
  {
    if |lines| == 0 {
      assert Unlines(lines) + rest == rest;
    } else {
      var tail := Unlines(lines[1..]) + rest;
      UnlinesCons(lines, rest);
      SplitFront(lines[0], tail);
      SplitUnlines(lines[1..], rest);
      ConsAssoc(lines, SplitLines(rest));
    }
  }
}
