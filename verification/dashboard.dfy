/** The dashboard logic of app/public/js/app.js that is more than DOM
    plumbing: the subdomain suggested from the instance name, the flag that
    says whether the subdomain field still holds a suggestion, and the way a
    progress notification marks the step indicators. */
module Dashboard {
  import opened Text

  // ---------------------------------------------------------------------------
  // Subdomain slug

  /** `toLowerCase` of one character, as far as it matters to the slug: capital
      letters fold, KELVIN SIGN becomes `k` and CAPITAL I WITH DOT ABOVE becomes
      `i` and a combining dot. Every other character is kept as it is: its real
      lower case is never an ASCII letter, digit, hyphen or space, so the next
      step removes it either way. */
  function LowerChar(c: char): (r: string)
    ensures |r| >= 1
  {
    if 'A' <= c <= 'Z' then [(c as int + 32) as char]
    else if c == '\U{212A}' then "k"
    else if c == '\U{0130}' then "i\U{0307}"
    else [c]
  }

  function Lowered(s: string): string
    decreases |s|
  {
    if |s| == 0 then "" else LowerChar(s[0]) + Lowered(s[1..])
  }

  /** The characters of the regular expression class `\s`. */
  predicate IsSpace(c: char) {
    || c == ' ' || c == '\t' || c == '\n' || c == '\r' || c == '\U{000B}' || c == '\U{000C}'
    || c == '\U{00A0}' || c == '\U{1680}' || '\U{2000}' <= c <= '\U{200A}'
    || c == '\U{2028}' || c == '\U{2029}' || c == '\U{202F}' || c == '\U{205F}'
    || c == '\U{3000}' || c == '\U{FEFF}'
  }

  predicate IsAlnum(c: char) {
    'a' <= c <= 'z' || '0' <= c <= '9'
  }

  /** The class `[a-z0-9\s-]`. */
  predicate Kept(c: char) {
    IsAlnum(c) || IsSpace(c) || c == '-'
  }

  /** `.replace(/[^a-z0-9\s-]/g, '')`. */
  function Filtered(s: string): (r: string)
    ensures forall i :: 0 <= i < |r| ==> Kept(r[i])
    decreases |s|
  {
    if |s| == 0 then "" else (if Kept(s[0]) then [s[0]] else "") + Filtered(s[1..])
  }

  /** The length of the run of `c`-class characters that starts `s`. */
  function SpaceRun(s: string): (k: nat)
    ensures k <= |s|
    ensures forall i :: 0 <= i < k ==> IsSpace(s[i])
    ensures k < |s| ==> !IsSpace(s[k])
    decreases |s|
  {
    if |s| == 0 || !IsSpace(s[0]) then 0 else 1 + SpaceRun(s[1..])
  }

  /** `.replace(/\s+/g, '-')`. */
  function Dashed(s: string): string
    decreases |s|
  {
    if |s| == 0 then ""
    else if IsSpace(s[0]) then "-" + Dashed(s[SpaceRun(s)..])
    else [s[0]] + Dashed(s[1..])
  }

  function HyphenRun(s: string): (k: nat)
    ensures k <= |s|
    ensures forall i :: 0 <= i < k ==> s[i] == '-'
    ensures k < |s| ==> s[k] != '-'
    decreases |s|
  {
    if |s| == 0 || s[0] != '-' then 0 else 1 + HyphenRun(s[1..])
  }

  /** `.replace(/-+/g, '-')`. */
  function Collapsed(s: string): string
    decreases |s|
  {
    if |s| == 0 then ""
    else if s[0] == '-' then "-" + Collapsed(s[HyphenRun(s)..])
    else [s[0]] + Collapsed(s[1..])
  }

  /** `.replace(/^-|-$/g, '')`: one hyphen goes from each end; a lone hyphen is
      matched once. */
  function Trimmed(s: string): string {
    var t := if |s| > 0 && s[0] == '-' then s[1..] else s;
    if |t| > 0 && t[|t| - 1] == '-' then t[..|t| - 1] else t
  }

  /** The subdomain the dashboard suggests for an instance name. */
  function Slug(name: string): string {
    Trimmed(Collapsed(Dashed(Filtered(Lowered(name)))))
  }

  predicate SlugChar(c: char) {
    IsAlnum(c) || c == '-'
  }

  predicate NoDoubleHyphen(t: string) {
    forall i :: 0 < i < |t| ==> !(t[i - 1] == '-' && t[i] == '-')
  }

  /** Lower-case letters, digits and single hyphens, with no hyphen at either
      end. */
  predicate IsSlug(t: string) {
    && (forall i :: 0 <= i < |t| ==> SlugChar(t[i]))
    && NoDoubleHyphen(t)
    && (|t| > 0 ==> t[0] != '-' && t[|t| - 1] != '-')
  }

  /** The letters and digits of a text, in order. */
  function Alnums(s: string): string
    decreases |s|
  {
    if |s| == 0 then "" else (if IsAlnum(s[0]) then [s[0]] else "") + Alnums(s[1..])
  }

  // ---------------------------------------------------------------------------
  // What each replace step does

  lemma {:induction false} DashedChars(s: string)
    requires forall i :: 0 <= i < |s| ==> Kept(s[i])
    ensures forall i :: 0 <= i < |Dashed(s)| ==> SlugChar(Dashed(s)[i])
    decreases |s|
  {
    if |s| > 0 {
      var rest := if IsSpace(s[0]) then s[SpaceRun(s)..] else s[1..];
      DashedChars(rest);
    }
  }

  /** Collapsing keeps the characters, their first, and leaves no two hyphens
      together. */
  lemma {:induction false} CollapsedShape(s: string)
    requires forall i :: 0 <= i < |s| ==> SlugChar(s[i])
    ensures var r := Collapsed(s);
      && (forall i :: 0 <= i < |r| ==> SlugChar(r[i]))
      && NoDoubleHyphen(r)
      && (|r| > 0 <==> |s| > 0)
      && (|s| > 0 ==> r[0] == s[0])
    decreases |s|
  {
    if |s| > 0 {
      var rest := if s[0] == '-' then s[HyphenRun(s)..] else s[1..];
      CollapsedShape(rest);
      var r := Collapsed(s);
      var tail := Collapsed(rest);
      assert r == [s[0]] + tail;
      if s[0] == '-' && |tail| > 0 {
        assert tail[0] == rest[0] != '-';
      }
      forall i | 0 < i < |r| ensures !(r[i - 1] == '-' && r[i] == '-') {
        if i > 1 {
          assert r[i - 1] == tail[i - 2] && r[i] == tail[i - 1];
        }
      }
    }
  }

  lemma TrimmedShape(s: string)
    requires (forall i :: 0 <= i < |s| ==> SlugChar(s[i])) && NoDoubleHyphen(s)
    ensures IsSlug(Trimmed(s))
  {
    var t := if |s| > 0 && s[0] == '-' then s[1..] else s;
    assert forall i :: 0 < i < |t| ==> !(t[i - 1] == '-' && t[i] == '-') by {
      if |s| > 0 && s[0] == '-' {
        assert forall i :: 0 < i < |t| ==> t[i - 1] == s[i] && t[i] == s[i + 1];
      }
    }
    if |s| > 1 && s[0] == '-' {
      assert t[0] == s[1] != '-';
    }
    if |t| > 1 && t[|t| - 1] == '-' {
      assert t[|t| - 2] != '-';
    }
  }

  /** The suggestion is always a slug. */
  lemma SlugShape(name: string)
    ensures IsSlug(Slug(name))
  {
    var f := Filtered(Lowered(name));
    DashedChars(f);
    CollapsedShape(Dashed(f));
    TrimmedShape(Collapsed(Dashed(f)));
  }

  // ---------------------------------------------------------------------------
  // A slug goes through unchanged

  lemma {:induction false} LoweredSlug(t: string)
    requires forall i :: 0 <= i < |t| ==> SlugChar(t[i])
    ensures Lowered(t) == t
    decreases |t|
  {
    if |t| > 0 {
      LoweredSlug(t[1..]);
      assert [t[0]] + t[1..] == t;
    }
  }

  lemma {:induction false} FilteredKept(t: string)
    requires forall i :: 0 <= i < |t| ==> Kept(t[i])
    ensures Filtered(t) == t
    decreases |t|
  {
    if |t| > 0 {
      FilteredKept(t[1..]);
      assert [t[0]] + t[1..] == t;
    }
  }

  lemma {:induction false} DashedNoSpace(t: string)
    requires forall i :: 0 <= i < |t| ==> !IsSpace(t[i])
    ensures Dashed(t) == t
    decreases |t|
  {
    if |t| > 0 {
      DashedNoSpace(t[1..]);
      assert [t[0]] + t[1..] == t;
    }
  }

  lemma {:induction false} CollapsedSingle(t: string)
    requires NoDoubleHyphen(t)
    ensures Collapsed(t) == t
    decreases |t|
  {
    if |t| > 0 {
      if t[0] == '-' {
        assert |t| > 1 ==> t[1] != '-';
        assert HyphenRun(t) == 1;
      }
      CollapsedSingle(t[1..]);
      assert [t[0]] + t[1..] == t;
    }
  }

  /** A slug character is kept by the filter and is not a space. */
  lemma SlugCharClass(t: string)
    requires forall i :: 0 <= i < |t| ==> SlugChar(t[i])
    ensures forall i :: 0 <= i < |t| ==> Kept(t[i]) && !IsSpace(t[i])
  {
  }

  /** A slug is its own suggestion. */
  lemma SlugFixes(t: string)
    requires IsSlug(t)
    ensures Slug(t) == t
  {
    SlugCharClass(t);
    assert Lowered(t) == t by { LoweredSlug(t); }
    assert Filtered(t) == t by { FilteredKept(t); }
    assert Dashed(t) == t by { DashedNoSpace(t); }
    assert Collapsed(t) == t by { CollapsedSingle(t); }
  }

  /** Suggesting again from a suggestion changes nothing. */
  lemma SlugIdempotent(name: string)
    ensures Slug(Slug(name)) == Slug(name)
  {
    SlugShape(name);
    SlugFixes(Slug(name));
  }

  /** The texts the suggestion leaves alone are exactly the slugs. */
  lemma SlugFixedIff(t: string)
    ensures Slug(t) == t <==> IsSlug(t)
  {
    SlugShape(t);
    if IsSlug(t) {
      SlugFixes(t);
    }
  }

  // ---------------------------------------------------------------------------
  // The letters and digits survive

  lemma {:induction false} AlnumsAppend(a: string, b: string)
    ensures Alnums(a + b) == Alnums(a) + Alnums(b)
    decreases |a|
  {
    if |a| > 0 {
      assert (a + b)[1..] == a[1..] + b;
      AlnumsAppend(a[1..], b);
    } else {
      assert a + b == b;
    }
  }

  lemma {:induction false} AlnumsFiltered(s: string)
    ensures Alnums(Filtered(s)) == Alnums(s)
    decreases |s|
  {
    if |s| > 0 {
      AlnumsFiltered(s[1..]);
      AlnumsAppend(if Kept(s[0]) then [s[0]] else "", Filtered(s[1..]));
    }
  }

  /** A run of characters without letters or digits contributes none. */
  lemma {:induction false} AlnumsSkip(s: string, k: nat)
    requires k <= |s| && forall i :: 0 <= i < k ==> !IsAlnum(s[i])
    ensures Alnums(s) == Alnums(s[k..])
    decreases k
  {
    if k > 0 {
      AlnumsSkip(s[1..], k - 1);
      assert s[1..][k - 1..] == s[k..];
    }
  }

  lemma {:induction false} AlnumsDashed(s: string)
    ensures Alnums(Dashed(s)) == Alnums(s)
    decreases |s|
  {
    if |s| > 0 {
      if IsSpace(s[0]) {
        var k := SpaceRun(s);
        AlnumsDashed(s[k..]);
        AlnumsAppend("-", Dashed(s[k..]));
        AlnumsSkip(s, k);
      } else {
        AlnumsDashed(s[1..]);
        AlnumsAppend([s[0]], Dashed(s[1..]));
      }
    }
  }

  lemma {:induction false} AlnumsCollapsed(s: string)
    ensures Alnums(Collapsed(s)) == Alnums(s)
    decreases |s|
  {
    if |s| > 0 {
      if s[0] == '-' {
        var k := HyphenRun(s);
        AlnumsCollapsed(s[k..]);
        AlnumsAppend("-", Collapsed(s[k..]));
        AlnumsSkip(s, k);
      } else {
        AlnumsCollapsed(s[1..]);
        AlnumsAppend([s[0]], Collapsed(s[1..]));
      }
    }
  }

  lemma AlnumsTrimmed(s: string)
    ensures Alnums(Trimmed(s)) == Alnums(s)
  {
    var t := if |s| > 0 && s[0] == '-' then s[1..] else s;
    if |s| > 0 && s[0] == '-' {
      AlnumsSkip(s, 1);
    }
    if |t| > 0 && t[|t| - 1] == '-' {
      assert t == t[..|t| - 1] + "-";
      AlnumsAppend(t[..|t| - 1], "-");
    }
  }

  /** The suggestion keeps every letter and digit of the lower-cased name, in
      order, and adds none: the only other characters it has are hyphens. */
  lemma SlugKeepsAlnums(name: string)
    ensures Alnums(Slug(name)) == Alnums(Lowered(name))
  {
    var l := Lowered(name);
    AlnumsFiltered(l);
    AlnumsDashed(Filtered(l));
    AlnumsCollapsed(Dashed(Filtered(l)));
    AlnumsTrimmed(Collapsed(Dashed(Filtered(l))));
  }

  // ---------------------------------------------------------------------------
  // The name and subdomain fields

  /** The two fields and the `autoGenerated` mark on the subdomain field. */
  datatype Form = Form(name: string, subdomain: string, auto: bool)

  /** The user typing into one of the fields; the field's new value. */
  datatype Input = NameTyped(value: string) | SubdomainTyped(value: string)

  const Blank: Form := Form("", "", false)

  /** The two `input` handlers: a new name rewrites an empty or suggested
      subdomain and marks it suggested; typing into the subdomain removes the
      mark. */
  function OnInput(f: Form, e: Input): Form {
    match e
    case NameTyped(v) =>
      if f.subdomain == "" || f.auto then Form(v, Slug(v), true) else f.(name := v)
    case SubdomainTyped(v) => f.(subdomain := v, auto := false)
  }

  function Typing(f: Form, es: seq<Input>): Form
    decreases |es|
  {
    if |es| == 0 then f else Typing(OnInput(f, es[0]), es[1..])
  }

  /** The mark is honest: while it is set the subdomain is the suggestion for
      the current name, and so a slug. */
  predicate Honest(f: Form) {
    f.auto ==> f.subdomain == Slug(f.name)
  }

  lemma {:induction false} TypingHonest(f: Form, es: seq<Input>)
    requires Honest(f)
    ensures Honest(Typing(f, es))
    ensures Typing(f, es).auto ==> IsSlug(Typing(f, es).subdomain)
    decreases |es|
  {
    if |es| > 0 {
      TypingHonest(OnInput(f, es[0]), es[1..]);
    } else if f.auto {
      SlugShape(f.name);
    }
  }

  /** A subdomain the user typed, if not empty, survives any number of later
      name changes. */
  lemma {:induction false} ManualSubdomainSticks(f: Form, v: string, names: seq<string>)
    requires v != ""
    ensures var es := [SubdomainTyped(v)] + seq(|names|, i requires 0 <= i < |names| => NameTyped(names[i]));
      Typing(f, es).subdomain == v && !Typing(f, es).auto
  {
    NamesKeepManual(OnInput(f, SubdomainTyped(v)), names);
    var es := [SubdomainTyped(v)] + seq(|names|, i requires 0 <= i < |names| => NameTyped(names[i]));
    assert es[1..] == seq(|names|, i requires 0 <= i < |names| => NameTyped(names[i]));
  }

  lemma {:induction false} NamesKeepManual(f: Form, names: seq<string>)
    requires f.subdomain != "" && !f.auto
    ensures var es := seq(|names|, i requires 0 <= i < |names| => NameTyped(names[i]));
      Typing(f, es).subdomain == f.subdomain && !Typing(f, es).auto
    decreases |names|
  {
    var es := seq(|names|, i requires 0 <= i < |names| => NameTyped(names[i]));
    if |names| > 0 {
      var g := OnInput(f, es[0]);
      NamesKeepManual(g, names[1..]);
      assert es[1..] == seq(|names[1..]|, i requires 0 <= i < |names[1..]| => NameTyped(names[1..][i]));
    }
  }

  /** Clearing the subdomain hands it back to the suggestion. */
  lemma ClearedSubdomainFollowsName(f: Form, n: string)
    ensures Typing(f, [SubdomainTyped(""), NameTyped(n)]) == Form(n, Slug(n), true)
  {
    var es := [SubdomainTyped(""), NameTyped(n)];
    var g := OnInput(f, es[0]);
    assert es[1..] == [NameTyped(n)] && [NameTyped(n)][1..] == [];
    assert Typing(f, es) == Typing(g, [NameTyped(n)]);
    assert Typing(g, [NameTyped(n)]) == Typing(OnInput(g, NameTyped(n)), []);
  }

  // ---------------------------------------------------------------------------
  // Progress indicators

  /** A `.step` element: its `data-step` name and its two classes. */
  datatype StepMark = StepMark(name: string, active: bool, complete: bool)

  /** The progress modal: the bar's width, the percentage text, the message,
      and the step elements in document order. */
  datatype Panel = Panel(width: string, percentage: string, message: string, steps: seq<StepMark>)

  /** The position of the first element named `step`, or the number of
      elements when none is. */
  function FirstNamed(els: seq<StepMark>, step: string): (k: nat)
    ensures k <= |els|
    ensures forall i :: 0 <= i < k ==> els[i].name != step
    ensures k < |els| ==> els[k].name == step
    decreases |els|
  {
    if |els| == 0 || els[0].name == step then 0 else 1 + FirstNamed(els[1..], step)
  }

  /** `updateProgress(step, message, progress)`: the bar and texts show the
      notification; every element loses `active` and gets it back if named
      `step`; every element before the first one named `step` gets `complete`,
      which is never taken away. */
  method UpdateProgress(p: Panel, step: string, message: string, progress: int) returns (r: Panel)
    ensures r.width == IntToString(progress) + "%" && r.percentage == r.width && r.message == message
    ensures |r.steps| == |p.steps|
    ensures forall i :: 0 <= i < |r.steps| ==> r.steps[i].name == p.steps[i].name
    ensures forall i :: 0 <= i < |r.steps| ==> (r.steps[i].active <==> p.steps[i].name == step)
    ensures forall i :: 0 <= i < |r.steps| ==>
      (r.steps[i].complete <==> p.steps[i].complete || i < FirstNamed(p.steps, step))
  {
    var els := p.steps;
    var i := 0;
    while i < |els|
      invariant 0 <= i <= |els| && |els| == |p.steps|
      invariant forall j :: 0 <= j < |els| ==> els[j].name == p.steps[j].name && els[j].complete == p.steps[j].complete
      invariant forall j :: 0 <= j < i ==> (els[j].active <==> p.steps[j].name == step)
    {
      els := els[i := els[i].(active := els[i].name == step)];
      i := i + 1;
    }
    var k := FirstNamed(p.steps, step);
    var found := false;
    i := 0;
    while i < |els|
      invariant 0 <= i <= |els| && |els| == |p.steps|
      invariant found <==> k < i
      invariant forall j :: 0 <= j < |els| ==> els[j].name == p.steps[j].name
      invariant forall j :: 0 <= j < |els| ==> (els[j].active <==> p.steps[j].name == step)
      invariant forall j :: 0 <= j < i ==> (els[j].complete <==> p.steps[j].complete || j < k)
      invariant forall j :: i <= j < |els| ==> els[j].complete == p.steps[j].complete
    {
      if els[i].name == step {
        found := true;
      } else if !found {
        els := els[i := els[i].(complete := true)];
      }
      i := i + 1;
    }
    r := Panel(IntToString(progress) + "%", IntToString(progress) + "%", message, els);
  }

  /** The step marks after a notification, as a function. */
  function Marked(els: seq<StepMark>, step: string): (r: seq<StepMark>) {
    seq(|els|, i requires 0 <= i < |els| =>
      els[i].(active := els[i].name == step, complete := els[i].complete || i < FirstNamed(els, step)))
  }

  /** The same notification twice marks as it does once. */
  lemma MarkedIdempotent(els: seq<StepMark>, step: string)
    ensures Marked(Marked(els, step), step) == Marked(els, step)
  {
    var m := Marked(els, step);
    assert FirstNamed(m, step) == FirstNamed(els, step) by {
      FirstNamedNames(els, m, step);
    }
  }

  /** Only the names decide where the first match is. */
  lemma {:induction false} FirstNamedNames(a: seq<StepMark>, b: seq<StepMark>, step: string)
    requires |a| == |b| && forall i :: 0 <= i < |a| ==> a[i].name == b[i].name
    ensures FirstNamed(a, step) == FirstNamed(b, step)
    decreases |a|
  {
    if |a| > 0 && a[0].name != step {
      FirstNamedNames(a[1..], b[1..], step);
    }
  }

  /** The final `complete` notification, when no element is named `complete`,
      marks every step complete and none active. */
  lemma CompleteMarksAll(els: seq<StepMark>)
    requires forall i :: 0 <= i < |els| ==> els[i].name != "complete"
    ensures forall i :: 0 <= i < |els| ==> Marked(els, "complete")[i].complete && !Marked(els, "complete")[i].active
  {
    assert FirstNamed(els, "complete") == |els|;
  }
}
