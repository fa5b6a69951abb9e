/** The two kinds of value the service handles: JavaScript values read from a
    request body or a configuration object (`Val`, where a missing key reads as
    `undefined`), and SQLite cells stored in the `instances` table (`Cell`).
    Only the shapes a JSON request body and better-sqlite3 exchange are kept:
    null, booleans, integers and strings. */
module Values {
  import opened Text

  datatype Val = Undefined | Null | Bool(b: bool) | Num(n: int) | Str(s: string)

  datatype Cell = SqlNull | SqlInt(i: int) | SqlText(t: string)

  /** JavaScript truthiness: `undefined`, `null`, `false`, `0` and `''` are falsy. */
  predicate Truthy(v: Val) {
    match v
    case Undefined => false
    case Null => false
    case Bool(b) => b
    case Num(n) => n != 0
    case Str(s) => s != ""
  }

  /** `${v}` inside a template literal: a string as itself, and anything else
      as a non-empty word or number on one line. */
  function JsString(v: Val): (s: string)
    ensures v.Str? ==> s == v.s
    ensures !v.Str? ==> |s| >= 1 && NoNewline(s)
  {
    match v
    case Undefined => "undefined"
    case Null => "null"
    case Bool(b) => if b then "true" else "false"
    case Num(n) => IntToString(n)
    case Str(s) => s
  }

  /** The JavaScript value better-sqlite3 returns for a stored cell. */
  function FromCell(c: Cell): (v: Val)
    ensures Bindable(v)
  {
    match c
    case SqlNull => Null
    case SqlInt(i) => Num(i)
    case SqlText(t) => Str(t)
  }

  /** What better-sqlite3 accepts as a parameter: null, numbers and strings
      (a boolean is refused with a TypeError). */
  predicate Bindable(v: Val) {
    v.Null? || v.Num? || v.Str?
  }

  /** The cell a bound parameter is stored as. */
  function Bind(v: Val): (c: Cell)
    requires Bindable(v)
    ensures FromCell(c) == v
  {
    match v
    case Null => SqlNull
    case Num(n) => SqlInt(n)
    case Str(s) => SqlText(s)
  }

  lemma BindFromCell(c: Cell)
    ensures Bind(FromCell(c)) == c
  {
  }

  /** Truthiness of a stored cell as JavaScript sees the row's field. */
  predicate CellTruthy(c: Cell) {
    Truthy(FromCell(c))
  }

  /** `${row.field}` inside a template literal. */
  function CellString(c: Cell): string {
    JsString(FromCell(c))
  }

  /** A plain object as its own keys and values, in key order. */
  type Body = seq<(string, Val)>

  /** `obj[key]`: the first entry with that key, `undefined` when absent. */
  function Get(b: Body, key: string): Val
    decreases |b|
  {
    if |b| == 0 then Undefined
    else if b[0].0 == key then b[0].1
    else Get(b[1..], key)
  }

  /** A value read from an object is `undefined` or one of its entries for that key. */
  lemma {:induction false} GetFound(b: Body, key: string)
    ensures Get(b, key) == Undefined || exists i :: 0 <= i < |b| && b[i].0 == key && b[i].1 == Get(b, key)
    decreases |b|
  {
    if |b| > 0 && b[0].0 != key {
      GetFound(b[1..], key);
      if Get(b, key) != Undefined {
        var i :| 0 <= i < |b[1..]| && b[1..][i].0 == key && b[1..][i].1 == Get(b, key);
        assert b[i + 1] == b[1..][i];
      }
    }
  }

  /** The value of a key is that of its first entry. */
  lemma {:induction false} GetFirst(b: Body, key: string, i: nat)
    requires i < |b| && b[i].0 == key
    requires forall j :: 0 <= j < i ==> b[j].0 != key
    ensures Get(b, key) == b[i].1
    decreases i
  {
    if i > 0 {
      GetFirst(b[1..], key, i - 1);
    }
  }

  /** A key with no entry reads as `undefined`. */
  lemma {:induction false} GetAbsent(b: Body, key: string)
    requires forall j :: 0 <= j < |b| ==> b[j].0 != key
    ensures Get(b, key) == Undefined
    decreases |b|
  {
    if |b| > 0 {
      GetAbsent(b[1..], key);
    }
  }

  /** No string in the object spans more than one line. */
  predicate SingleLine(b: Body) {
    forall i :: 0 <= i < |b| ==> b[i].1.Str? ==> NoNewline(b[i].1.s)
  }

  lemma SingleLineGet(b: Body, key: string)
    requires SingleLine(b)
    ensures NoNewline(JsString(Get(b, key)))
  {
    var v := Get(b, key);
    GetFound(b, key);
    if v.Num? {
      var s := IntToString(v.n);
      assert forall i :: 1 <= i < |s| ==> IsDigit(s[i]);
    }
  }

  /** `{...base, ...over}`: keys of `over` win over those of `base`. */
  function Spread(base: Body, over: Body): (r: Body)
    ensures |r| == |base| + |over|
  {
    over + base
  }

  predicate HasKey(b: Body, key: string) {
    exists i :: 0 <= i < |b| && b[i].0 == key
  }

  lemma {:induction false} GetSpread(base: Body, over: Body, key: string)
    ensures Get(Spread(base, over), key) == if HasKey(over, key) then Get(over, key) else Get(base, key)
    decreases |over|
  {
    if |over| > 0 {
      assert Spread(base, over)[0] == over[0];
      if over[0].0 != key {
        assert Spread(base, over)[1..] == Spread(base, over[1..]);
        assert Get(Spread(base, over), key) == Get(Spread(base, over[1..]), key);
        assert Get(over, key) == Get(over[1..], key);
        GetSpread(base, over[1..], key);
        if HasKey(over, key) {
          var i :| 0 <= i < |over| && over[i].0 == key;
          assert over[1..][i - 1].0 == key;
          assert HasKey(over[1..], key);
        } else {
          assert !HasKey(over[1..], key) by {
            forall i | 0 <= i < |over[1..]| ensures over[1..][i].0 != key {
              assert over[1..][i] == over[i + 1];
            }
          }
        }
      } else {
        assert HasKey(over, key);
      }
    } else {
      assert Spread(base, over) == base;
    }
  }
}

/** The errors the service raises, with the message each carries. */
module Errors {

  datatype Error =
    | MissingRequiredFields
    | NameAndSubdomainRequired
    | SubdomainInUse(subdomain: string)
    | CustomDomainInUse(domain: string)
    | InstanceNotFound
    | SourceNotFound
    | NoSuchColumn(column: string)
    | ConstraintFailed
    | CannotBind
    | ToolFailed(detail: string)
    | Wrapped(prefix: string, inner: Error)

  /** `error.message`. */
  function Message(e: Error): string {
    match e
    case MissingRequiredFields => "Missing required fields"
    case NameAndSubdomainRequired => "Name and subdomain are required"
    case SubdomainInUse(s) => "Subdomain '" + s + "' already in use"
    case CustomDomainInUse(d) => "Custom domain '" + d + "' already in use"
    case InstanceNotFound => "Instance not found"
    case SourceNotFound => "Source instance not found"
    case NoSuchColumn(c) => "no such column: " + c
    case ConstraintFailed => "constraint failed"
    case CannotBind => "SQLite3 can only bind numbers, strings, bigints, buffers, and null"
    case ToolFailed(d) => d
    case Wrapped(p, inner) => p + Message(inner)
  }

  /** The message Node's `exec` rejects with when a command exits non-zero. */
  function CommandFailed(command: string, stderr: string): string {
    "Command failed: " + command + "\n" + stderr
  }
}
