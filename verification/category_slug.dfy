/** The category modal: the slug generator (a chain of regular-expression
    replacements), the auto-slug flag that decides whether editing the name
    rewrites the slug, and the name and slug form rules. */
module CategorySlug {
  import opened Text

  /** A character the slug rule `^[a-z0-9-]+$` allows. */
  predicate SlugChar(c: char) { IsAsciiLower(c) || IsDigit(c) || c == '-' }

  predicate AllSlugChars(s: string) { forall i :: 0 <= i < |s| ==> SlugChar(s[i]) }

  /** The form rule for the slug: required, and `^[a-z0-9-]+$`. */
  predicate SlugRule(s: string) { |s| > 0 && AllSlugChars(s) }

  /** The form rule for the name: required, at least 2 and at most 100 characters. */
  predicate NameRule(name: string) { 2 <= |name| <= 100 }

  /** The name rule's bounds: one character is too short, 101 too long. */
  lemma NameRuleBoundaries()
    ensures !NameRule("") && !NameRule("a") && NameRule("an")
    ensures NameRule(seq(100, _ => 'a')) && !NameRule(seq(101, _ => 'a'))
  {
  }

  predicate NoDoubleHyphen(s: string) {
    forall i :: 0 <= i < |s| - 1 ==> !(s[i] == '-' && s[i + 1] == '-')
  }

  predicate NoEdgeHyphen(s: string) {
    |s| > 0 ==> s[0] != '-' && s[|s| - 1] != '-'
  }

  // ------------------------------------------------------------- the stages

  /** A character `/[^a-z0-9\s-]/g` leaves in place. */
  predicate Kept(c: char) { IsAsciiLower(c) || IsDigit(c) || IsSpace(c) || c == '-' }

  /** `.replace(/[^a-z0-9\s-]/g, '')`. */
  function KeepAllowed(s: string): (r: string)
    ensures forall i :: 0 <= i < |r| ==> Kept(r[i])
    ensures (forall i :: 0 <= i < |s| ==> Kept(s[i])) ==> r == s
  {
    if |s| == 0 then ""
    else if Kept(s[0]) then [s[0]] + KeepAllowed(s[1..])
    else KeepAllowed(s[1..])
  }

  /** The filter only deletes: every character it returns is taken from
      the input, as often as it occurs there. */
  lemma {:induction false} KeepAllowedDeletes(s: string)
    ensures multiset(KeepAllowed(s)) <= multiset(s)
    decreases |s|
  {
    if |s| > 0 {
      KeepAllowedDeletes(s[1..]);
      assert s == [s[0]] + s[1..];
    }
  }

  lemma {:induction false} KeepAllowedAppend(a: string, b: string)
    ensures KeepAllowed(a + b) == KeepAllowed(a) + KeepAllowed(b)
    decreases |a|
  {
    if |a| == 0 {
      assert a + b == b;
    } else {
      assert (a + b)[1..] == a[1..] + b;
      KeepAllowedAppend(a[1..], b);
    }
  }

  /** The class a collapsing stage works on: `\s` for `/\s+/g`, the hyphen
      for `/-+/g`. */
  predicate InRun(c: char, spaces: bool) {
    if spaces then IsSpace(c) else c == '-'
  }

  /** Drops the leading run of `InRun` characters. */
  function DropRun(s: string, spaces: bool): (r: string)
    ensures |r| <= |s| && r == s[|s| - |r|..]
    ensures |r| > 0 ==> !InRun(r[0], spaces)
  {
    if |s| > 0 && InRun(s[0], spaces) then DropRun(s[1..], spaces) else s
  }

  /** `.replace(/\s+/g, '-')` (spaces) or `.replace(/-+/g, '-')` (hyphens):
      every maximal run of the class becomes one hyphen. */
  function CollapseRuns(s: string, spaces: bool): (r: string)
    ensures |r| > 0 <==> |s| > 0
    ensures |s| > 0 && !InRun(s[0], spaces) ==> r[0] == s[0]
    decreases |s|
  {
    if |s| == 0 then ""
    else if InRun(s[0], spaces) then
      var rest := CollapseRuns(DropRun(s[1..], spaces), spaces);
      ['-'] + rest
    else
      [s[0]] + CollapseRuns(s[1..], spaces)
  }

  /** The characters a collapsing stage may receive: slug characters and
      characters of its class. */
  predicate SlugOrRun(s: string, spaces: bool) {
    forall i :: 0 <= i < |s| ==> SlugChar(s[i]) || InRun(s[i], spaces)
  }

  lemma SlugCons(c: char, t: string)
    requires SlugChar(c) && AllSlugChars(t)
    ensures AllSlugChars([c] + t)
  {
    forall i | 0 < i < |[c] + t| ensures SlugChar(([c] + t)[i]) {
      assert ([c] + t)[i] == t[i - 1];
    }
  }

  lemma SlugOrRunSuffix(s: string, k: nat, spaces: bool)
    requires SlugOrRun(s, spaces) && k <= |s|
    ensures SlugOrRun(s[k..], spaces)
  {
    forall i | 0 <= i < |s[k..]| ensures SlugChar(s[k..][i]) || InRun(s[k..][i], spaces) {
      assert s[k..][i] == s[k + i];
    }
  }

  /** Every character the collapsing stage emits is a hyphen or a character
      of its input outside the class. */
  lemma {:induction false} CollapseRunsChars(s: string, spaces: bool)
    requires SlugOrRun(s, spaces)
    ensures AllSlugChars(CollapseRuns(s, spaces))
    decreases |s|
  {
    if |s| > 0 {
      SlugOrRunSuffix(s, 1, spaces);
      if InRun(s[0], spaces) {
        var d := DropRun(s[1..], spaces);
        SlugOrRunSuffix(s[1..], |s| - 1 - |d|, spaces);
        CollapseRunsChars(d, spaces);
        SlugCons('-', CollapseRuns(d, spaces));
      } else {
        CollapseRunsChars(s[1..], spaces);
        SlugCons(s[0], CollapseRuns(s[1..], spaces));
      }
    }
  }

  /** After merging hyphen runs no two hyphens are adjacent. */
  lemma {:induction false} CollapseHyphensNoDouble(s: string)
    ensures NoDoubleHyphen(CollapseRuns(s, false))
    decreases |s|
  {
    if |s| > 0 {
      if s[0] == '-' {
        var d := DropRun(s[1..], false);
        CollapseHyphensNoDouble(d);
      } else {
        CollapseHyphensNoDouble(s[1..]);
      }
    }
  }

  /** `.replace(/^-|-$/g, '')`: one hyphen off the front, one off the back. */
  function TrimHyphens(s: string): (r: string)
    ensures |r| <= |s|
    ensures forall i :: 0 <= i < |r| ==> r[i] in s
    ensures NoDoubleHyphen(s) ==> NoDoubleHyphen(r) && NoEdgeHyphen(r)
    ensures NoEdgeHyphen(s) ==> r == s
  {
    var a := if |s| > 0 && s[0] == '-' then s[1..] else s;
    assert forall i :: 0 <= i < |a| ==> a[i] == s[i + |s| - |a|];
    if |a| > 0 && a[|a| - 1] == '-' then a[..|a| - 1] else a
  }

  /** `generateSlug(name)`: lower-case, drop every character outside
      `[a-z0-9\s-]`, turn each run of whitespace into a hyphen, merge runs of
      hyphens, and cut a hyphen off each end. */
  function GenerateSlug(name: string): (r: string)
    ensures AllSlugChars(r)
    ensures NoDoubleHyphen(r) && NoEdgeHyphen(r)
    ensures |r| > 0 ==> SlugRule(r)
    ensures IsSlug(name) ==> r == name
  {
    assert IsSlug(name) ==> Stages(name) == name by {
      if IsSlug(name) {
        StagesFixSlug(name);
      }
    }
    var kept := KeepAllowed(Lower(name));
    var spaced := CollapseRuns(kept, true);
    var merged := CollapseRuns(spaced, false);
    CollapseRunsChars(kept, true);
    CollapseRunsChars(spaced, false);
    CollapseHyphensNoDouble(spaced);
    var r := TrimHyphens(merged);
    forall i | 0 <= i < |r| ensures SlugChar(r[i]) {
      var k :| 0 <= k < |merged| && merged[k] == r[i];
    }
    r
  }

  // ---------------------------------------------------------- idempotence

  /** What the generator always produces: slug characters, no doubled
      hyphen, no hyphen at either end. */
  predicate IsSlug(s: string) { AllSlugChars(s) && NoDoubleHyphen(s) && NoEdgeHyphen(s) }

  /** The chain of replacements after lower-casing, as one function. */
  function Stages(s: string): string {
    TrimHyphens(CollapseRuns(CollapseRuns(KeepAllowed(Lower(s)), true), false))
  }

  /** Every stage leaves a slug as it is. */
  lemma StagesFixSlug(s: string)
    requires IsSlug(s)
    ensures Stages(s) == s
  {
    LowerSlugChars(s);
    assert KeepAllowed(s) == s;
    CollapseRunsNoRun(s, true);
    CollapseHyphensSingle(s);
  }

  lemma {:induction false} CollapseRunsNoRun(s: string, spaces: bool)
    requires forall i :: 0 <= i < |s| ==> !InRun(s[i], spaces)
    ensures CollapseRuns(s, spaces) == s
    decreases |s|
  {
    if |s| > 0 {
      CollapseRunsNoRun(s[1..], spaces);
    }
  }

  lemma {:induction false} CollapseHyphensSingle(s: string)
    requires NoDoubleHyphen(s)
    ensures CollapseRuns(s, false) == s
    decreases |s|
  {
    if |s| > 0 {
      assert NoDoubleHyphen(s[1..]) by {
        forall i | 0 <= i < |s[1..]| - 1 ensures !(s[1..][i] == '-' && s[1..][i + 1] == '-') {
          assert s[1..][i] == s[i + 1] && s[1..][i + 1] == s[i + 2];
        }
      }
      CollapseHyphensSingle(s[1..]);
      if s[0] == '-' && |s| > 1 {
        assert s[1] != '-';
        assert DropRun(s[1..], false) == s[1..];
      }
    }
  }

  lemma LowerSlugChars(s: string)
    requires AllSlugChars(s)
    ensures Lower(s) == s
  {
  }

  /** A slug is its own slug: `generateSlug(generateSlug(x)) == generateSlug(x)`. */
  lemma GenerateSlugIdempotent(name: string)
    ensures GenerateSlug(GenerateSlug(name)) == GenerateSlug(name)
  {
  }

  // ------------------------------------------------------ two-word names

  /** A non-empty word of lower-case letters and digits. */
  predicate IsWord(w: string) {
    |w| > 0 && forall i :: 0 <= i < |w| ==> IsAsciiLower(w[i]) || IsDigit(w[i])
  }

  /** Two words separated by a space give the two words joined by a hyphen:
      the generator keeps the words and turns the space into the hyphen. */
  lemma TwoWordsJoined(a: string, b: string)
    requires IsWord(a) && IsWord(b)
    ensures GenerateSlug(a + " " + b) == a + "-" + b
  {
    var s := a + " " + b;
    assert Lower(s) == s;
    assert KeepAllowed(s) == s by {
      assert forall i :: 0 <= i < |s| ==> Kept(s[i]);
    }
    CollapseSpaceBetween(a, b);
    var t := a + "-" + b;
    assert IsSlug(t) by {
      assert forall i :: 0 <= i < |t| ==> SlugChar(t[i]);
      assert forall i :: 0 <= i < |t| && t[i] == '-' ==> i == |a|;
    }
    CollapseHyphensSingle(t);
  }

  /** The whitespace stage turns the single space between two words into a
      hyphen and keeps both words. */
  lemma CollapseSpaceBetween(a: string, b: string)
    requires IsWord(a) && IsWord(b)
    ensures CollapseRuns(a + " " + b, true) == a + "-" + b
  {
    CollapseNoRunPrefix(a, " " + b, true);
    assert a + " " + b == a + (" " + b);
    var t := " " + b;
    assert t[1..] == b;
    assert DropRun(b, true) == b;
    CollapseRunsNoRun(b, true);
    assert CollapseRuns(t, true) == "-" + b;
  }

  /** A prefix without characters of the class is copied as it is. */
  lemma {:induction false} CollapseNoRunPrefix(x: string, t: string, spaces: bool)
    requires forall i :: 0 <= i < |x| ==> !InRun(x[i], spaces)
    ensures CollapseRuns(x + t, spaces) == x + CollapseRuns(t, spaces)
    decreases |x|
  {
    if |x| > 0 {
      assert forall i :: 0 <= i < |x[1..]| ==> x[1..][i] == x[i + 1];
      CollapseNoRunPrefix(x[1..], t, spaces);
      CollapseHead(x, t, spaces);
      assert x == [x[0]] + x[1..];
    } else {
      assert x + t == t;
    }
  }

  // -------------------------------------------------- whitespace runs

  /** Every character of `s` belongs to the class. */
  predicate AllInRun(s: string, spaces: bool) {
    forall i :: 0 <= i < |s| ==> InRun(s[i], spaces)
  }

  lemma {:induction false} DropRunSkips(a: string, b: string, spaces: bool)
    requires AllInRun(a, spaces)
    ensures DropRun(a + b, spaces) == DropRun(b, spaces)
    decreases |a|
  {
    if |a| == 0 {
      assert a + b == b;
    } else {
      assert (a + b)[1..] == a[1..] + b;
      DropRunSkips(a[1..], b, spaces);
    }
  }

  lemma {:induction false} DropRunStops(a: string, b: string, spaces: bool)
    requires !AllInRun(a, spaces)
    ensures DropRun(a + b, spaces) == DropRun(a, spaces) + b
    decreases |a|
  {
    if InRun(a[0], spaces) {
      assert (a + b)[1..] == a[1..] + b;
      var i :| 0 <= i < |a| && !InRun(a[i], spaces);
      assert a[1..][i - 1] == a[i];
      DropRunStops(a[1..], b, spaces);
    }
  }

  /** A string that opens with a run of class characters collapses to a
      hyphen followed by whatever follows the run. */
  lemma CollapseLeadingRun(w: string, y: string, spaces: bool)
    requires |w| > 0 && AllInRun(w, spaces)
    ensures CollapseRuns(w + y, spaces) == ['-'] + CollapseRuns(DropRun(y, spaces), spaces)
  {
    assert (w + y)[0] == w[0];
    assert (w + y)[1..] == w[1..] + y;
    assert AllInRun(w[1..], spaces) by {
      forall i | 0 <= i < |w[1..]| ensures InRun(w[1..][i], spaces) {
        assert w[1..][i] == w[i + 1];
      }
    }
    DropRunSkips(w[1..], y, spaces);
  }

  /** Collapsing two strings that differ only after a common first character
      that is outside the class. */
  lemma CollapseSameHead(x: string, t1: string, t2: string, spaces: bool)
    requires |x| > 0 && !InRun(x[0], spaces)
    requires CollapseRuns(x[1..] + t1, spaces) == CollapseRuns(x[1..] + t2, spaces)
    ensures CollapseRuns(x + t1, spaces) == CollapseRuns(x + t2, spaces)
  {
    CollapseHead(x, t1, spaces);
    CollapseHead(x, t2, spaces);
  }

  lemma CollapseHead(x: string, t: string, spaces: bool)
    requires |x| > 0 && !InRun(x[0], spaces)
    ensures CollapseRuns(x + t, spaces) == [x[0]] + CollapseRuns(x[1..] + t, spaces)
  {
    var s := x + t;
    assert s[0] == x[0];
    assert s[1..] == x[1..] + t;
  }

  /** Collapsing two strings that open with the same run, which ends inside
      `x`. */
  lemma CollapseSameRun(x: string, t1: string, t2: string, spaces: bool)
    requires |x| > 0 && InRun(x[0], spaces) && !AllInRun(x[1..], spaces)
    requires CollapseRuns(DropRun(x[1..], spaces) + t1, spaces) == CollapseRuns(DropRun(x[1..], spaces) + t2, spaces)
    ensures CollapseRuns(x + t1, spaces) == CollapseRuns(x + t2, spaces)
  {
    CollapseRunHead(x, t1, spaces);
    CollapseRunHead(x, t2, spaces);
  }

  lemma CollapseRunHead(x: string, t: string, spaces: bool)
    requires |x| > 0 && InRun(x[0], spaces) && !AllInRun(x[1..], spaces)
    ensures CollapseRuns(x + t, spaces) == ['-'] + CollapseRuns(DropRun(x[1..], spaces) + t, spaces)
  {
    var s := x + t;
    assert s[0] == x[0];
    assert s[1..] == x[1..] + t;
    DropRunStops(x[1..], t, spaces);
  }

  /** A run that reaches the end of `x` joins the run that follows it. */
  lemma CollapseJoinedRun(x: string, w: string, y: string, spaces: bool)
    requires |x| > 0 && AllInRun(x, spaces) && AllInRun(w, spaces)
    ensures CollapseRuns(x + (w + y), spaces) == ['-'] + CollapseRuns(DropRun(y, spaces), spaces)
  {
    assert AllInRun(x + w, spaces) by {
      forall i | 0 <= i < |x + w| ensures InRun((x + w)[i], spaces) {
        if i < |x| { assert (x + w)[i] == x[i]; } else { assert (x + w)[i] == w[i - |x|]; }
      }
    }
    assert x + (w + y) == (x + w) + y;
    CollapseLeadingRun(x + w, y, spaces);
  }

  /** In the collapsing stage, a run of class characters in the middle of the
      input acts exactly like a single one. */
  lemma {:induction false} CollapseRunAsOne(x: string, w: string, c: char, y: string, spaces: bool)
    requires |w| > 0 && AllInRun(w, spaces) && InRun(c, spaces)
    ensures CollapseRuns(x + (w + y), spaces) == CollapseRuns(x + ([c] + y), spaces)
    decreases |x|
  {
    if |x| == 0 {
      CollapseRunAtFront(w, c, y, spaces);
      assert x + (w + y) == w + y && x + ([c] + y) == [c] + y;
    } else if !InRun(x[0], spaces) {
      CollapseRunAsOne(x[1..], w, c, y, spaces);
      CollapseSameHead(x, w + y, [c] + y, spaces);
    } else if AllInRun(x[1..], spaces) {
      CollapseRunAfterRun(x, w, c, y, spaces);
    } else {
      CollapseRunAsOne(DropRun(x[1..], spaces), w, c, y, spaces);
      CollapseSameRun(x, w + y, [c] + y, spaces);
    }
  }

  lemma CollapseRunAtFront(w: string, c: char, y: string, spaces: bool)
    requires |w| > 0 && AllInRun(w, spaces) && InRun(c, spaces)
    ensures CollapseRuns(w + y, spaces) == CollapseRuns([c] + y, spaces)
  {
    CollapseLeadingRun(w, y, spaces);
    CollapseLeadingRun([c], y, spaces);
  }

  lemma CollapseRunAfterRun(x: string, w: string, c: char, y: string, spaces: bool)
    requires |w| > 0 && AllInRun(w, spaces) && InRun(c, spaces)
    requires |x| > 0 && InRun(x[0], spaces) && AllInRun(x[1..], spaces)
    ensures CollapseRuns(x + (w + y), spaces) == CollapseRuns(x + ([c] + y), spaces)
  {
    AllInRunCons(x, spaces);
    CollapseJoinedRun(x, w, y, spaces);
    CollapseJoinedRun(x, [c], y, spaces);
  }

  lemma AllInRunCons(x: string, spaces: bool)
    requires |x| > 0 && InRun(x[0], spaces) && AllInRun(x[1..], spaces)
    ensures AllInRun(x, spaces)
  {
    forall i | 0 < i < |x| ensures InRun(x[i], spaces) {
      assert x[i] == x[1..][i - 1];
    }
  }

  lemma LowerSpaces(w: string)
    requires AllSpace(w)
    ensures Lower(w) == w && KeepAllowed(w) == w
  {
  }

  /** The first two stages of the slug on a name with a whitespace run in it. */
  lemma KeptAround(x: string, w: string, y: string)
    requires AllSpace(w)
    ensures KeepAllowed(Lower(x + w + y)) == KeepAllowed(Lower(x)) + (w + KeepAllowed(Lower(y)))
  {
    LowerAround(x, w, y);
    KeepAround(Lower(x), w, Lower(y));
  }

  lemma LowerAround(x: string, w: string, y: string)
    requires AllSpace(w)
    ensures Lower(x + w + y) == Lower(x) + w + Lower(y)
  {
    LowerSpaces(w);
    LowerAppend(x + w, y);
    LowerAppend(x, w);
  }

  lemma KeepAround(a: string, w: string, b: string)
    requires AllSpace(w)
    ensures KeepAllowed(a + w + b) == KeepAllowed(a) + (w + KeepAllowed(b))
  {
    calc {
      KeepAllowed(a + w + b);
      { KeepAllowedAppend(a + w, b); }
      KeepAllowed(a + w) + KeepAllowed(b);
      { KeepAllowedAppend(a, w); KeepSpaces(w); }
      (KeepAllowed(a) + w) + KeepAllowed(b);
    }
  }

  /** Whitespace passes the character filter untouched. */
  lemma KeepSpaces(w: string)
    requires AllSpace(w)
    ensures KeepAllowed(w) == w
  {
    assert forall i :: 0 <= i < |w| ==> Kept(w[i]);
  }

  /** A run of whitespace anywhere in a name produces the same slug as a
      single space: it becomes at most one hyphen. */
  lemma WhitespaceRunIsOneHyphen(x: string, w: string, y: string)
    requires |w| > 0 && AllSpace(w)
    ensures GenerateSlug(x + w + y) == GenerateSlug(x + " " + y)
  {
    KeptAround(x, w, y);
    KeptAround(x, " ", y);
    var kx, ky := KeepAllowed(Lower(x)), KeepAllowed(Lower(y));
    assert AllInRun(w, true);
    CollapseRunAsOne(kx, w, ' ', ky, true);
    assert [' '] + ky == " " + ky;
  }

  // ---------------------------------------------------- the auto-slug flag

  /** The modal's form: name and slug fields and the auto-slug flag. */
  datatype CategoryForm = CategoryForm(name: string, slug: string, autoSlug: bool)

  /** After `resetFields` and `setAutoSlug(true)`: on a successful submit, on
      cancel, and when the modal first opens. */
  function ResetForm(): (f: CategoryForm)
    ensures f.autoSlug && f.name == "" && f.slug == ""
  {
    CategoryForm("", "", true)
  }

  /** `handleNameChange`: the slug is regenerated only while auto-slug is on
      and the new name is non-empty. */
  function NameChanged(f: CategoryForm, name: string): (r: CategoryForm)
    ensures r.name == name && r.autoSlug == f.autoSlug
    ensures f.autoSlug && name != "" ==> r.slug == GenerateSlug(name) && (|r.slug| > 0 ==> SlugRule(r.slug))
    ensures !(f.autoSlug && name != "") ==> r.slug == f.slug
  {
    if f.autoSlug && name != "" then f.(name := name, slug := GenerateSlug(name)) else f.(name := name)
  }

  /** `handleSlugChange`: a manual slug edit switches auto-slug off. */
  function SlugChanged(f: CategoryForm, slug: string): (r: CategoryForm)
    ensures r.slug == slug && r.name == f.name && !r.autoSlug
  {
    f.(slug := slug, autoSlug := false)
  }

  /** What the user does in the modal. `Submitted(ok)` is a submit whose
      `createCategory` call succeeded (`ok`) or threw. */
  datatype FormEvent = EditName(name: string) | EditSlug(slug: string) | Submitted(ok: bool) | Cancelled

  /** One event. Only a successful submit and cancel reset the form; a
      submit that throws lands in the catch, which leaves name, slug and
      the flag as they were. Without a reset the flag never turns on. */
  function Apply(f: CategoryForm, e: FormEvent): (r: CategoryForm)
    ensures e == Cancelled || e == Submitted(true) ==> r == ResetForm()
    ensures e == Submitted(false) ==> r == f
    ensures e.EditName? || e.EditSlug? ==> (r.autoSlug ==> f.autoSlug)
    ensures e.EditSlug? ==> r.slug == e.slug && !r.autoSlug
  {
    match e
    case EditName(n) => NameChanged(f, n)
    case EditSlug(s) => SlugChanged(f, s)
    case Submitted(ok) => if ok then ResetForm() else f
    case Cancelled => ResetForm()
  }

  function ApplyAll(f: CategoryForm, events: seq<FormEvent>): CategoryForm
    decreases |events|
  {
    if |events| == 0 then f else ApplyAll(Apply(f, events[0]), events[1..])
  }

  /** The events that reset the form: a successful submit and cancel. */
  predicate Resets(e: FormEvent) { e == Submitted(true) || e == Cancelled }

  predicate NoReset(events: seq<FormEvent>) {
    forall i :: 0 <= i < |events| ==> !Resets(events[i])
  }

  /** Once the slug has been edited by hand, name edits and failed submits
      never touch it again until the form is reset. */
  lemma {:induction false} ManualSlugSticks(f: CategoryForm, names: seq<FormEvent>)
    requires !f.autoSlug
    requires forall i :: 0 <= i < |names| ==> names[i].EditName? || names[i] == Submitted(false)
    ensures ApplyAll(f, names).slug == f.slug && !ApplyAll(f, names).autoSlug
    decreases |names|
  {
    if |names| > 0 {
      ManualSlugSticks(Apply(f, names[0]), names[1..]);
    }
  }

  /** Without a reset, auto-slug can only go from on to off, never back. */
  lemma {:induction false} AutoSlugOnlyTurnsOff(f: CategoryForm, events: seq<FormEvent>)
    requires NoReset(events)
    ensures ApplyAll(f, events).autoSlug ==> f.autoSlug
    ensures (exists i :: 0 <= i < |events| && events[i].EditSlug?) ==> !ApplyAll(f, events).autoSlug
    decreases |events|
  {
    if |events| > 0 {
      var f' := Apply(f, events[0]);
      assert NoReset(events[1..]) by {
        forall i | 0 <= i < |events[1..]| ensures !Resets(events[1..][i]) {
          assert events[1..][i] == events[i + 1];
        }
      }
      AutoSlugOnlyTurnsOff(f', events[1..]);
      if exists i :: 0 <= i < |events| && events[i].EditSlug? {
        var i :| 0 <= i < |events| && events[i].EditSlug?;
        if i > 0 {
          assert events[1..][i - 1].EditSlug?;
        }
      }
    }
  }

  /** While auto-slug is on, the slug always follows the last non-empty name. */
  lemma AutoSlugFollowsName(f: CategoryForm, name: string)
    requires f.autoSlug && name != ""
    ensures NameChanged(f, name).slug == GenerateSlug(name)
    ensures GenerateSlug(NameChanged(f, name).slug) == NameChanged(f, name).slug
  {
    GenerateSlugIdempotent(name);
  }
}
