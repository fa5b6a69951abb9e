/** The slice of `JSON.stringify` the server's responses and progress events
    use: string literals with the standard escapes, integers, `null`, and
    objects whose keys are known in advance. Each writer has a reader that
    takes its output back, followed by whatever comes after it. */
module Json {
  import opened Wrappers
  import opened Text
  import opened Values

  // ---------------------------------------------------------------------------
  // Strings

  /** No control character, so in particular no line break: what
      `JSON.stringify` writes is always printable. */
  predicate Printable(s: string) {
    forall i :: 0 <= i < |s| ==> s[i] >= ' '
  }

  lemma PrintableAppend(a: string, b: string)
    requires Printable(a) && Printable(b)
    ensures Printable(a + b)
  {
    assert forall i :: |a| <= i < |a + b| ==> (a + b)[i] == b[i - |a|];
  }

  lemma PrintableNoNewline(s: string)
    requires Printable(s)
    ensures NoNewline(s)
  {
  }

  /** The lower-case hexadecimal digit of `d`. */
  function HexDigit(d: nat): (c: char)
    requires d < 16
  {
    if d < 10 then DigitChar(d) else ('a' as int + (d - 10)) as char
  }

  /** The value of a hexadecimal digit of either case. */
  function HexValue(c: char): (r: Option<nat>)
    ensures r.Some? ==> r.value < 16
  {
    if '0' <= c <= '9' then Some(c as int - '0' as int)
    else if 'a' <= c <= 'f' then Some(c as int - 'a' as int + 10)
    else if 'A' <= c <= 'F' then Some(c as int - 'A' as int + 10)
    else None
  }

  /** How `JSON.stringify` writes one character inside a string literal: the
      quote and the backslash are escaped, the five control characters that
      have a short escape get it, the other control characters become
      `\u00XX` in lower-case hexadecimal, and everything else is kept. */
  function EscapeChar(c: char): (r: string)
    ensures |r| >= 1 && Printable(r)
    ensures c >= ' ' && c != '"' && c != '\\' <==> r == [c]
  {
    if c == '"' then "\\\""
    else if c == '\\' then "\\\\"
    else if c == '\U{0008}' then "\\b"
    else if c == '\U{000C}' then "\\f"
    else if c == '\n' then "\\n"
    else if c == '\r' then "\\r"
    else if c == '\t' then "\\t"
    else if c < ' ' then "\\u00" + [HexDigit(c as int / 16), HexDigit(c as int % 16)]
    else [c]
  }

  /** The inside of a string literal. */
  function Escape(s: string): (r: string)
    ensures Printable(r) && |r| >= |s|
    decreases |s|
  {
    if |s| == 0 then ""
    else
      var head := EscapeChar(s[0]);
      var tail := Escape(s[1..]);
      PrintableAppend(head, tail);
      head + tail
  }

  /** `JSON.stringify` of a string. */
  function Quote(s: string): (r: string)
    ensures Printable(r)
  {
    PrintableAppend("\"", Escape(s));
    PrintableAppend("\"" + Escape(s), "\"");
    "\"" + Escape(s) + "\""
  }

  /** The four hexadecimal digits of a `\u` escape, as a number. */
  function Hex4(t: string): (r: Option<nat>)
    requires |t| == 4
    ensures r.Some? ==> r.value < 0x1_0000
  {
    match (HexValue(t[0]), HexValue(t[1]), HexValue(t[2]), HexValue(t[3]))
    case (Some(a), Some(b), Some(c), Some(d)) => Some(((a * 16 + b) * 16 + c) * 16 + d)
    case _ => None
  }

  /** The character an escape sequence stands for, read after its backslash,
      and how many characters follow the backslash. A `\u` escape of a
      surrogate half is refused: pairs are not read. */
  function ReadEscape(t: string): (r: Option<(char, nat)>)
    ensures r.Some? ==> 1 <= r.value.1 <= |t|
  {
    if |t| == 0 then None
    else if t[0] == '"' then Some(('"', 1))
    else if t[0] == '\\' then Some(('\\', 1))
    else if t[0] == '/' then Some(('/', 1))
    else if t[0] == 'b' then Some(('\U{0008}', 1))
    else if t[0] == 'f' then Some(('\U{000C}', 1))
    else if t[0] == 'n' then Some(('\n', 1))
    else if t[0] == 'r' then Some(('\r', 1))
    else if t[0] == 't' then Some(('\t', 1))
    else if t[0] == 'u' && |t| >= 5 then
      match Hex4(t[1..5])
      case None => None
      case Some(v) => if v < 0xD800 || v >= 0xE000 then Some((v as char, 5)) else None
    else None
  }

  /** `c` in front of what was read, if anything was. */
  function Prepend(c: char, r: Option<(string, string)>): Option<(string, string)> {
    match r
    case None => None
    case Some((s, rest)) => Some(([c] + s, rest))
  }

  /** Reads the inside of a string literal up to its closing quote: the
      decoded string and the text after the quote. A raw control character, a
      bad escape or a missing closing quote is refused. */
  function ReadChars(t: string): (r: Option<(string, string)>)
    ensures r.Some? ==> |r.value.1| < |t|
    decreases |t|
  {
    if |t| == 0 then None
    else if t[0] == '"' then Some(("", t[1..]))
    else if t[0] < ' ' then None
    else if t[0] == '\\' then
      match ReadEscape(t[1..])
      case None => None
      case Some((c, n)) => Prepend(c, ReadChars(t[1 + n..]))
    else Prepend(t[0], ReadChars(t[1..]))
  }

  /** Reads a string literal. */
  function ReadString(t: string): Option<(string, string)> {
    if |t| >= 1 && t[0] == '"' then ReadChars(t[1..]) else None
  }

  lemma HexRoundTrip(d: nat)
    requires d < 16
    ensures HexValue(HexDigit(d)) == Some(d)
  {
  }

  /** One written character reads back as itself. */
  lemma ReadEscapeChar(c: char, t: string)
    ensures ReadChars(EscapeChar(c) + t) == Prepend(c, ReadChars(t))
  {
    if c >= ' ' && c != '"' && c != '\\' {
      ReadPlainChar(c, t);
    } else if c < ' ' && c != '\U{0008}' && c != '\U{000C}' && c != '\n' && c != '\r' && c != '\t' {
      ReadUnicodeEscape(c, t);
    } else {
      ReadShortEscape(c, t);
    }
  }

  lemma ReadPlainChar(c: char, t: string)
    requires c >= ' ' && c != '"' && c != '\\'
    ensures ReadChars(EscapeChar(c) + t) == Prepend(c, ReadChars(t))
  {
    assert ([c] + t)[1..] == t;
  }

  lemma ReadUnicodeEscape(c: char, t: string)
    requires c < ' ' && c != '\U{0008}' && c != '\U{000C}' && c != '\n' && c != '\r' && c != '\t'
    ensures ReadChars(EscapeChar(c) + t) == Prepend(c, ReadChars(t))
  {
    var u := EscapeChar(c) + t;
    var hi := c as int / 16;
    var lo := c as int % 16;
    HexRoundTrip(hi);
    HexRoundTrip(lo);
    var e := EscapeChar(c);
    assert e == ['\\', 'u', '0', '0', HexDigit(hi), HexDigit(lo)];
    assert u[..6] == e;
    assert u[0] == '\\' && u[1] == 'u';
    var w := u[1..][1..5];
    assert w[0] == '0' && w[1] == '0' && w[2] == HexDigit(hi) && w[3] == HexDigit(lo);
    assert Hex4(w) == Some(c as int);
    assert ReadEscape(u[1..]) == Some((c, 5));
    assert u[6..] == t;
  }

  lemma ReadShortEscape(c: char, t: string)
    requires c == '"' || c == '\\' || c == '\U{0008}' || c == '\U{000C}' || c == '\n' || c == '\r' || c == '\t'
    ensures ReadChars(EscapeChar(c) + t) == Prepend(c, ReadChars(t))
  {
    var u := EscapeChar(c) + t;
    assert u[2..] == t;
  }

  /** A string literal reads back as the string it was written from, leaving
      what follows it. */
  lemma {:induction false} ReadEscaped(s: string, rest: string)
    ensures ReadChars(Escape(s) + ("\"" + rest)) == Some((s, rest))
    decreases |s|
  {
    if |s| == 0 {
      assert Escape(s) + ("\"" + rest) == "\"" + rest;
    } else {
      var t := Escape(s[1..]) + ("\"" + rest);
      EscapeStep(s, "\"" + rest);
      ReadEscapeChar(s[0], t);
      ReadEscaped(s[1..], rest);
      assert [s[0]] + s[1..] == s;
    }
  }

  lemma EscapeStep(s: string, after: string)
    requires |s| > 0
    ensures Escape(s) + after == EscapeChar(s[0]) + (Escape(s[1..]) + after)
  {
  }

  lemma ReadQuote(s: string, rest: string)
    ensures ReadString(Quote(s) + rest) == Some((s, rest))
  {
    var t := Quote(s) + rest;
    assert t[1..] == Escape(s) + ("\"" + rest);
    ReadEscaped(s, rest);
  }

  /** Two strings are written alike only if they are equal. */
  lemma QuoteInjective(a: string, b: string)
    requires Quote(a) == Quote(b)
    ensures a == b
  {
    ReadQuote(a, "");
    ReadQuote(b, "");
    assert Quote(a) + "" == Quote(b) + "";
  }

  // ---------------------------------------------------------------------------
  // Integers

  /** The length of the run of digits `t` starts with. */
  function DigitRun(t: string): (k: nat)
    ensures k <= |t|
    ensures forall i :: 0 <= i < k ==> IsDigit(t[i])
    ensures k < |t| ==> !IsDigit(t[k])
    decreases |t|
  {
    if |t| == 0 || !IsDigit(t[0]) then 0 else 1 + DigitRun(t[1..])
  }

  function ReadNat(t: string): Option<(nat, string)> {
    var k := DigitRun(t);
    if k == 0 then None else Some((ParseNat(t[..k]), t[k..]))
  }

  /** Reads an optional minus sign and a run of digits. */
  function ReadInt(t: string): Option<(int, string)> {
    var negative := |t| >= 1 && t[0] == '-';
    match ReadNat(if negative then t[1..] else t)
    case None => None
    case Some((n, rest)) => Some((if negative then 0 - n else n, rest))
  }

  /** What may follow a number without running into it. */
  predicate EndsNumber(rest: string) {
    |rest| == 0 || !IsDigit(rest[0])
  }

  lemma ReadNatToString(n: nat, rest: string)
    requires EndsNumber(rest)
    ensures ReadNat(NatToString(n) + rest) == Some((n, rest))
  {
    var s := NatToString(n);
    var t := s + rest;
    var k := DigitRun(t);
    assert forall i :: 0 <= i < |s| ==> t[i] == s[i];
    assert |rest| > 0 ==> t[|s|] == rest[0];
    assert k == |s|;
    assert t[..k] == s && t[k..] == rest;
    ParseNatToString(n);
  }

  lemma ReadIntToString(i: int, rest: string)
    requires EndsNumber(rest)
    ensures ReadInt(IntToString(i) + rest) == Some((i, rest))
  {
    if i < 0 {
      ReadNegative(-i, rest);
    } else {
      ReadNonNegative(i, rest);
    }
  }

  lemma ReadNegative(n: nat, rest: string)
    requires EndsNumber(rest) && n > 0
    ensures ReadInt("-" + NatToString(n) + rest) == Some((0 - n, rest))
  {
    var body := NatToString(n) + rest;
    assert "-" + NatToString(n) + rest == "-" + body;
    assert ("-" + body)[0] == '-' && ("-" + body)[1..] == body;
    ReadNatToString(n, rest);
  }

  lemma ReadNonNegative(n: nat, rest: string)
    requires EndsNumber(rest)
    ensures ReadInt(NatToString(n) + rest) == Some((n, rest))
  {
    var t := NatToString(n) + rest;
    assert t[0] == NatToString(n)[0];
    ReadNatToString(n, rest);
  }

  // ---------------------------------------------------------------------------
  // Values and objects

  /** `JSON.stringify` of a column value: a number, a string or `null`. */
  function CellJson(c: Cell): (r: string)
    ensures |r| >= 1 && Printable(r)
  {
    match c
    case SqlNull => "null"
    case SqlInt(i) => IntToString(i)
    case SqlText(t) => Quote(t)
  }

  function ReadCell(t: string): Option<(Cell, string)> {
    if |t| == 0 then None
    else if t[0] == 'n' then (if |t| >= 4 && t[..4] == "null" then Some((SqlNull, t[4..])) else None)
    else if t[0] == '"' then
      match ReadChars(t[1..])
      case None => None
      case Some((s, rest)) => Some((SqlText(s), rest))
    else
      match ReadInt(t)
      case None => None
      case Some((i, rest)) => Some((SqlInt(i), rest))
  }

  lemma ReadCellJson(c: Cell, rest: string)
    requires EndsNumber(rest)
    ensures ReadCell(CellJson(c) + rest) == Some((c, rest))
  {
    match c
    case SqlNull => ReadNullJson(rest);
    case SqlInt(i) => ReadIntJson(i, rest);
    case SqlText(s) => ReadTextJson(s, rest);
  }

  lemma ReadNullJson(rest: string)
    ensures ReadCell(CellJson(SqlNull) + rest) == Some((SqlNull, rest))
  {
    var t := "null" + rest;
    assert t[..4] == "null" && t[4..] == rest;
  }

  lemma ReadIntJson(i: int, rest: string)
    requires EndsNumber(rest)
    ensures ReadCell(CellJson(SqlInt(i)) + rest) == Some((SqlInt(i), rest))
  {
    var t := IntToString(i) + rest;
    ReadIntToString(i, rest);
    assert t[0] == IntToString(i)[0];
  }

  lemma ReadTextJson(s: string, rest: string)
    ensures ReadCell(CellJson(SqlText(s)) + rest) == Some((SqlText(s), rest))
  {
    var t := Quote(s) + rest;
    assert t[1..] == Escape(s) + ("\"" + rest);
    ReadEscaped(s, rest);
  }

  /** One `"key":value` member. */
  function Member(key: string, c: Cell): (r: string)
    ensures Printable(r)
  {
    PrintableAppend(Quote(key), ":");
    PrintableAppend(Quote(key) + ":", CellJson(c));
    Quote(key) + ":" + CellJson(c)
  }

  /** The members of an object, separated by commas, keys in the order given. */
  function Members(keys: seq<string>, cells: seq<Cell>): (r: string)
    requires |keys| == |cells|
    ensures Printable(r)
    decreases |keys|
  {
    if |keys| == 0 then ""
    else if |keys| == 1 then Member(keys[0], cells[0])
    else
      var head := Member(keys[0], cells[0]) + ",";
      PrintableAppend(Member(keys[0], cells[0]), ",");
      PrintableAppend(head, Members(keys[1..], cells[1..]));
      head + Members(keys[1..], cells[1..])
  }

  /** Reads a member with the given key. */
  function ReadMember(t: string, key: string): Option<(Cell, string)> {
    match ReadString(t)
    case None => None
    case Some((k, rest)) =>
      if k != key || |rest| == 0 || rest[0] != ':' then None else ReadCell(rest[1..])
  }

  /** Reads the members with the given keys, in order. */
  function ReadMembers(t: string, keys: seq<string>): (r: Option<(seq<Cell>, string)>)
    ensures r.Some? ==> |r.value.0| == |keys|
    decreases |keys|
  {
    if |keys| == 0 then Some(([], t))
    else match ReadMember(t, keys[0])
      case None => None
      case Some((c, rest)) =>
        if |keys| == 1 then Some(([c], rest))
        else if |rest| == 0 || rest[0] != ',' then None
        else match ReadMembers(rest[1..], keys[1..])
          case None => None
          case Some((cs, rest')) => Some(([c] + cs, rest'))
  }

  lemma ReadMemberJson(key: string, c: Cell, rest: string)
    requires EndsNumber(rest)
    ensures ReadMember(Member(key, c) + rest, key) == Some((c, rest))
  {
    var after := ":" + (CellJson(c) + rest);
    MemberSplit(key, c, rest);
    ReadQuote(key, after);
    assert after[1..] == CellJson(c) + rest;
    ReadCellJson(c, rest);
  }

  lemma MemberSplit(key: string, c: Cell, rest: string)
    ensures Member(key, c) + rest == Quote(key) + (":" + (CellJson(c) + rest))
  {
  }

  /** Reading a first member followed by a comma goes on with the rest. */
  lemma ReadMembersStep(t: string, keys: seq<string>, c: Cell, tail: string, cs: seq<Cell>, rest: string)
    requires |keys| > 1 && ReadMember(t, keys[0]) == Some((c, "," + tail))
    requires ReadMembers(tail, keys[1..]) == Some((cs, rest))
    ensures ReadMembers(t, keys) == Some(([c] + cs, rest))
  {
    assert ("," + tail)[1..] == tail;
  }

  lemma MembersSplit(keys: seq<string>, cells: seq<Cell>, rest: string)
    requires |keys| == |cells| > 1
    ensures Members(keys, cells) + rest == Member(keys[0], cells[0]) + ("," + (Members(keys[1..], cells[1..]) + rest))
  {
  }

  lemma {:induction false} ReadMembersJson(keys: seq<string>, cells: seq<Cell>, rest: string)
    requires |keys| == |cells|
    requires EndsNumber(rest)
    ensures ReadMembers(Members(keys, cells) + rest, keys) == Some((cells, rest))
    decreases |keys|
  {
    if |keys| == 0 {
      assert Members(keys, cells) + rest == rest;
    } else if |keys| == 1 {
      ReadOneMember(keys, cells, rest);
    } else {
      ReadMembersJson(keys[1..], cells[1..], rest);
      ReadMoreMembers(keys, cells, rest);
    }
  }

  lemma ReadOneMember(keys: seq<string>, cells: seq<Cell>, rest: string)
    requires |keys| == |cells| == 1
    requires EndsNumber(rest)
    ensures ReadMembers(Members(keys, cells) + rest, keys) == Some((cells, rest))
  {
    ReadMemberJson(keys[0], cells[0], rest);
    assert [cells[0]] == cells;
  }

  /** The members after the first read back, so all do. */
  lemma ReadMoreMembers(keys: seq<string>, cells: seq<Cell>, rest: string)
    requires |keys| == |cells| > 1
    requires ReadMembers(Members(keys[1..], cells[1..]) + rest, keys[1..]) == Some((cells[1..], rest))
    ensures ReadMembers(Members(keys, cells) + rest, keys) == Some((cells, rest))
  {
    var tail := Members(keys[1..], cells[1..]) + rest;
    MembersSplit(keys, cells, rest);
    ReadMemberJson(keys[0], cells[0], "," + tail);
    ReadMembersStep(Members(keys, cells) + rest, keys, cells[0], tail, cells[1..], rest);
    assert [cells[0]] + cells[1..] == cells;
  }

  /** `JSON.stringify` of an object with the given members. */
  function Object(keys: seq<string>, cells: seq<Cell>): (r: string)
    requires |keys| == |cells|
    ensures Printable(r)
  {
    PrintableAppend("{", Members(keys, cells));
    PrintableAppend("{" + Members(keys, cells), "}");
    "{" + Members(keys, cells) + "}"
  }

  function ReadObject(t: string, keys: seq<string>): (r: Option<(seq<Cell>, string)>)
    ensures r.Some? ==> |r.value.0| == |keys|
  {
    if |t| == 0 || t[0] != '{' then None
    else match ReadMembers(t[1..], keys)
      case None => None
      case Some((cs, rest)) => if |rest| == 0 || rest[0] != '}' then None else Some((cs, rest[1..]))
  }

  lemma ReadObjectStep(t: string, keys: seq<string>, cs: seq<Cell>, rest: string)
    requires |t| > 0 && t[0] == '{' && ReadMembers(t[1..], keys) == Some((cs, "}" + rest))
    ensures ReadObject(t, keys) == Some((cs, rest))
  {
    assert ("}" + rest)[1..] == rest;
  }

  lemma ReadObjectJson(keys: seq<string>, cells: seq<Cell>, rest: string)
    requires |keys| == |cells|
    ensures ReadObject(Object(keys, cells) + rest, keys) == Some((cells, rest))
  {
    var t := Object(keys, cells) + rest;
    var inner := Members(keys, cells) + ("}" + rest);
    ObjectSplit(keys, cells, rest);
    assert t[0] == '{' && t[1..] == inner;
    ReadMembersJson(keys, cells, "}" + rest);
    ReadObjectStep(t, keys, cells, rest);
  }

  lemma ObjectSplit(keys: seq<string>, cells: seq<Cell>, rest: string)
    requires |keys| == |cells|
    ensures Object(keys, cells) + rest == "{" + (Members(keys, cells) + ("}" + rest))
  {
  }
}
