/**
 The two sanitizers every generated name goes through: `sanitize_identifier`
 (`normalize.py`) and `terraform_safe_name` (`models.py`). Each is shown to map every
 string into a set of names it leaves alone, so each is idempotent, and that set is
 exactly its fixed points.
 */
module Naming {
  import opened Text

  // ---------- sanitize_identifier ----------

  /** A character harmless in a hostname but not in generated code. */
  predicate Unsafe(c: char) {
    c <= '\U{1f}' || c == '\U{7f}' || c in "\"'\\`<>{}"
  }

  /** Each unsafe character, and each `$(`, becomes one dash. */
  function Defuse(s: string): string {
    if s == "" then ""
    else if Unsafe(s[0]) then "-" + Defuse(s[1..])
    else if |s| >= 2 && s[0] == '$' && s[1] == '(' then "-" + Defuse(s[2..])
    else [s[0]] + Defuse(s[1..])
  }

  /** Each run of whitespace becomes one space. */
  function SqueezeSpaces(s: string): string {
    if s == "" then ""
    else if |s| >= 2 && IsSpace(s[0]) && IsSpace(s[1]) then SqueezeSpaces(s[1..])
    else [if IsSpace(s[0]) then ' ' else s[0]] + SqueezeSpaces(s[1..])
  }

  /** Each run of dashes becomes one dash. */
  function SqueezeDashes(s: string): string {
    if s == "" then ""
    else if |s| >= 2 && s[0] == '-' && s[1] == '-' then SqueezeDashes(s[1..])
    else [s[0]] + SqueezeDashes(s[1..])
  }

  predicate DashOrSpace(c: char) {
    c == '-' || c == ' '
  }

  /** What is left of a name. */
  function Scrubbed(value: string): string {
    Trim(SqueezeDashes(Trim(SqueezeSpaces(Defuse(value)), IsSpace)), DashOrSpace)
  }

  function Sanitize(value: string): string {
    if Scrubbed(value) == "" then "unnamed" else Scrubbed(value)
  }

  predicate NoPair(s: string, a: char, b: char) {
    forall i :: 0 <= i < |s| - 1 ==> !(s[i] == a && s[i + 1] == b)
  }

  predicate Defused(s: string) {
    (forall i :: 0 <= i < |s| ==> !Unsafe(s[i])) && NoPair(s, '$', '(')
  }

  predicate Spaced(s: string) {
    (forall i :: 0 <= i < |s| && IsSpace(s[i]) ==> s[i] == ' ') && NoPair(s, ' ', ' ')
  }

  /** The safe names: no unsafe character and no `$(`, blanks only as single spaces,
      no doubled dash, and neither a dash nor a space at either end. */
  predicate Clean(s: string) {
    && s != "" && Defused(s) && Spaced(s) && NoPair(s, '-', '-')
    && !DashOrSpace(s[0]) && !DashOrSpace(s[|s| - 1])
  }

  lemma {:induction false} DefuseDefuses(s: string)
    ensures Defused(Defuse(s))
    ensures s != "" ==> Defuse(s) != "" && (Defuse(s)[0] == s[0] || Defuse(s)[0] == '-')
    decreases |s|
  {
    if s != "" {
      DefuseDefuses(s[1..]);
      if |s| >= 2 {
        DefuseDefuses(s[2..]);
      }
    }
  }

  lemma {:induction false} DefuseKeeps(s: string)
    requires Defused(s)
    ensures Defuse(s) == s
  {
    if s != "" {
      assert forall i :: 0 <= i < |s| - 1 ==> s[1..][i] == s[i + 1];
      DefuseKeeps(s[1..]);
      assert s == [s[0]] + s[1..];
    }
  }

  lemma {:induction false} SqueezeSpacesSqueezes(s: string)
    requires Defused(s)
    ensures Defused(SqueezeSpaces(s)) && Spaced(SqueezeSpaces(s))
    ensures s != "" ==> SqueezeSpaces(s) != "" && SqueezeSpaces(s)[0] == if IsSpace(s[0]) then ' ' else s[0]
  {
    if s != "" {
      assert forall i :: 0 <= i < |s| - 1 ==> s[1..][i] == s[i + 1];
      SqueezeSpacesSqueezes(s[1..]);
    }
  }

  lemma {:induction false} SqueezeSpacesKeeps(s: string)
    requires Spaced(s)
    ensures SqueezeSpaces(s) == s
  {
    if s != "" {
      assert forall i :: 0 <= i < |s| - 1 ==> s[1..][i] == s[i + 1];
      SqueezeSpacesKeeps(s[1..]);
      assert s == [s[0]] + s[1..];
    }
  }

  lemma {:induction false} SqueezeDashesSqueezes(s: string)
    requires Defused(s) && Spaced(s)
    ensures var t := SqueezeDashes(s); Defused(t) && Spaced(t) && NoPair(t, '-', '-')
    ensures s != "" ==> SqueezeDashes(s) != "" && SqueezeDashes(s)[0] == s[0]
  {
    if s != "" {
      assert forall i :: 0 <= i < |s| - 1 ==> s[1..][i] == s[i + 1];
      SqueezeDashesSqueezes(s[1..]);
    }
  }

  lemma {:induction false} SqueezeDashesKeeps(s: string)
    requires NoPair(s, '-', '-')
    ensures SqueezeDashes(s) == s
  {
    if s != "" {
      assert forall i :: 0 <= i < |s| - 1 ==> s[1..][i] == s[i + 1];
      SqueezeDashesKeeps(s[1..]);
      assert s == [s[0]] + s[1..];
    }
  }

  lemma SliceNoPair(s: string, lo: nat, hi: nat, a: char, b: char)
    requires lo <= hi <= |s| && NoPair(s, a, b)
    ensures NoPair(s[lo..hi], a, b)
  {
    forall i | 0 <= i < hi - lo - 1 ensures !(s[lo..hi][i] == a && s[lo..hi][i + 1] == b) {
      assert s[lo..hi][i] == s[lo + i] && s[lo..hi][i + 1] == s[lo + i + 1];
    }
  }

  /** Trimming keeps what the earlier passes established. */
  lemma TrimKeepsPasses(s: string, drop: char -> bool)
    requires Defused(s) && Spaced(s)
    ensures var t := Trim(s, drop);
      && Defused(t) && Spaced(t) && (NoPair(s, '-', '-') ==> NoPair(t, '-', '-'))
      && (t != "" ==> !drop(t[0]) && !drop(t[|t| - 1]))
  {
    var at := TrimSlice(s, drop);
    var hi := at + |Trim(s, drop)|;
    SliceNoPair(s, at, hi, '$', '(');
    SliceNoPair(s, at, hi, ' ', ' ');
    if NoPair(s, '-', '-') {
      SliceNoPair(s, at, hi, '-', '-');
    }
  }

  /** Whatever the file held, the name is safe. */
  lemma SanitizeCleans(value: string)
    ensures Clean(Sanitize(value))
  {
    DefuseDefuses(value);
    SqueezeSpacesSqueezes(Defuse(value));
    TrimKeepsPasses(SqueezeSpaces(Defuse(value)), IsSpace);
    var cleaned := Trim(SqueezeSpaces(Defuse(value)), IsSpace);
    SqueezeDashesSqueezes(cleaned);
    TrimKeepsPasses(SqueezeDashes(cleaned), DashOrSpace);
    UnnamedIsClean();
  }

  lemma UnnamedIsClean()
    ensures Clean("unnamed")
  {
  }

  /** The names left alone are exactly the safe ones. */
  lemma SanitizeFixesExactlyClean(s: string)
    ensures Sanitize(s) == s <==> Clean(s)
  {
    if Clean(s) {
      DefuseKeeps(s);
      SqueezeSpacesKeeps(s);
      assert !IsSpace(s[0]) && !IsSpace(s[|s| - 1]);
      TrimKept(s, IsSpace);
      SqueezeDashesKeeps(s);
      TrimKept(s, DashOrSpace);
    } else {
      SanitizeCleans(s);
    }
  }

  lemma SanitizeIdempotent(value: string)
    ensures Sanitize(Sanitize(value)) == Sanitize(value)
  {
    SanitizeCleans(value);
    SanitizeFixesExactlyClean(Sanitize(value));
  }

  // ---------- names that leave nothing ----------

  /** Every character is blank, a dash, unsafe, or part of a `$(`. */
  predicate Void(s: string) {
    || s == ""
    || ((Unsafe(s[0]) || IsSpace(s[0]) || s[0] == '-') && Void(s[1..]))
    || (|s| >= 2 && s[0] == '$' && s[1] == '(' && Void(s[2..]))
  }

  predicate BlankOrDash(c: char) {
    IsSpace(c) || c == '-'
  }

  predicate All(s: string, p: char -> bool) {
    forall i :: 0 <= i < |s| ==> p(s[i])
  }

  lemma AllCons(c: char, s: string, p: char -> bool)
    ensures All([c] + s, p) <==> p(c) && All(s, p)
  {
    if All([c] + s, p) {
      assert ([c] + s)[0] == c;
      forall i | 0 <= i < |s| ensures p(s[i]) {
        assert ([c] + s)[i + 1] == s[i];
      }
    }
  }

  lemma AllSplit(s: string, p: char -> bool)
    requires s != ""
    ensures All(s, p) <==> p(s[0]) && All(s[1..], p)
  {
    AllCons(s[0], s[1..], p);
    assert s == [s[0]] + s[1..];
  }

  lemma {:induction false} DefuseVoid(s: string)
    ensures All(Defuse(s), BlankOrDash) <==> Void(s)
  {
    if s != "" {
      if Unsafe(s[0]) {
        DefuseVoid(s[1..]);
        AllCons('-', Defuse(s[1..]), BlankOrDash);
      } else if |s| >= 2 && s[0] == '$' && s[1] == '(' {
        DefuseVoid(s[2..]);
        AllCons('-', Defuse(s[2..]), BlankOrDash);
      } else {
        DefuseVoid(s[1..]);
        AllCons(s[0], Defuse(s[1..]), BlankOrDash);
      }
    }
  }

  lemma {:induction false} SqueezeSpacesVoid(s: string)
    ensures All(SqueezeSpaces(s), BlankOrDash) <==> All(s, BlankOrDash)
  {
    if s != "" {
      SqueezeSpacesVoid(s[1..]);
      AllSplit(s, BlankOrDash);
      if !(|s| >= 2 && IsSpace(s[0]) && IsSpace(s[1])) {
        AllCons(if IsSpace(s[0]) then ' ' else s[0], SqueezeSpaces(s[1..]), BlankOrDash);
      }
    }
  }

  lemma {:induction false} SqueezeDashesVoid(s: string)
    ensures All(SqueezeDashes(s), BlankOrDash) <==> All(s, BlankOrDash)
  {
    if s != "" {
      SqueezeDashesVoid(s[1..]);
      AllSplit(s, BlankOrDash);
      if !(|s| >= 2 && s[0] == '-' && s[1] == '-') {
        AllCons(s[0], SqueezeDashes(s[1..]), BlankOrDash);
      }
    }
  }

  lemma {:induction false} TrimLeftAll(s: string, drop: char -> bool, p: char -> bool)
    requires forall c :: drop(c) ==> p(c)
    ensures All(TrimLeft(s, drop), p) <==> All(s, p)
  {
    if s != "" && drop(s[0]) {
      TrimLeftAll(s[1..], drop, p);
      AllSplit(s, p);
    }
  }

  lemma {:induction false} TrimRightAll(s: string, drop: char -> bool, p: char -> bool)
    requires forall c :: drop(c) ==> p(c)
    ensures All(TrimRight(s, drop), p) <==> All(s, p)
  {
    if s != "" && drop(s[|s| - 1]) {
      TrimRightAll(s[..|s| - 1], drop, p);
    }
  }

  /** Trimming characters of a kind does not change whether all are of that kind. */
  lemma TrimAll(s: string, drop: char -> bool, p: char -> bool)
    requires forall c :: drop(c) ==> p(c)
    ensures All(Trim(s, drop), p) <==> All(s, p)
  {
    TrimLeftAll(s, drop, p);
    TrimRightAll(TrimLeft(s, drop), drop, p);
  }

  /** Trimming leaves nothing exactly when there is nothing to keep. */
  lemma TrimEmptyIff(s: string, drop: char -> bool)
    ensures Trim(s, drop) == "" <==> All(s, drop)
  {
    TrimAll(s, drop, drop);
    var at := TrimSlice(s, drop);
  }

  /** Nothing is left of a name exactly when it is void. */
  lemma ScrubbedEmptyIff(s: string)
    ensures Scrubbed(s) == "" <==> Void(s)
  {
    var squeezed := SqueezeSpaces(Defuse(s));
    var cleaned := Trim(squeezed, IsSpace);
    DefuseVoid(s);
    SqueezeSpacesVoid(Defuse(s));
    TrimAll(squeezed, IsSpace, BlankOrDash);
    SqueezeDashesVoid(cleaned);
    DefuseDefuses(s);
    SqueezeSpacesSqueezes(Defuse(s));
    TrimKeepsPasses(squeezed, IsSpace);
    SqueezeDashesSqueezes(cleaned);
    TrimEmptyIff(SqueezeDashes(cleaned), DashOrSpace);
    SpacedAll(SqueezeDashes(cleaned));
  }

  lemma SpacedAll(s: string)
    requires Spaced(s)
    ensures All(s, BlankOrDash) <==> All(s, DashOrSpace)
  {
  }

  lemma {:induction false} VoidThenBlank(s: string, c: char)
    requires IsSpace(c)
    ensures Void(s + [c]) <==> Void(s)
  {
    if s == "" {
      assert (s + [c])[1..] == "";
    } else {
      assert (s + [c])[1..] == s[1..] + [c];
      VoidThenBlank(s[1..], c);
      if |s| >= 2 {
        assert (s + [c])[2..] == s[2..] + [c];
        VoidThenBlank(s[2..], c);
      }
    }
  }

  lemma {:induction false} TrimLeftVoid(s: string)
    ensures Void(TrimLeft(s, IsSpace)) <==> Void(s)
  {
    if s != "" && IsSpace(s[0]) {
      TrimLeftVoid(s[1..]);
    }
  }

  lemma {:induction false} TrimRightVoid(s: string)
    ensures Void(TrimRight(s, IsSpace)) <==> Void(s)
  {
    if s != "" && IsSpace(s[|s| - 1]) {
      TrimRightVoid(s[..|s| - 1]);
      VoidThenBlank(s[..|s| - 1], s[|s| - 1]);
      assert s == s[..|s| - 1] + [s[|s| - 1]];
    }
  }

  lemma TrimVoid(s: string)
    ensures Void(Trim(s, IsSpace)) <==> Void(s)
  {
    TrimLeftVoid(s);
    TrimRightVoid(TrimLeft(s, IsSpace));
  }

  // ---------- terraform_safe_name ----------

  predicate IsLower(c: char) { 'a' <= c <= 'z' }
  predicate IsUpper(c: char) { 'A' <= c <= 'Z' }
  predicate IsNumeral(c: char) { '0' <= c <= '9' }
  predicate IsAlnum(c: char) { IsLower(c) || IsUpper(c) || IsNumeral(c) }
  predicate IsUnderscore(c: char) { c == '_' }

  /** `str.lower` as far as the slug can see it: ASCII letters, and the two characters
      outside ASCII whose lower case starts with an ASCII letter. Every other character
      lower-cases to characters outside [a-zA-Z0-9], which the slug does not tell apart. */
  function LowerChar(c: char): string {
    if IsUpper(c) then [(c as int - 'A' as int + 'a' as int) as char]
    else if c == '\U{130}' then "i\U{307}"
    else if c == '\U{212a}' then "k"
    else [c]
  }

  function Lower(s: string): string {
    if s == "" then "" else LowerChar(s[0]) + Lower(s[1..])
  }

  /** Each run of other characters becomes one underscore. */
  function Underscored(s: string): string {
    if s == "" then ""
    else if IsAlnum(s[0]) then [s[0]] + Underscored(s[1..])
    else if |s| >= 2 && !IsAlnum(s[1]) then Underscored(s[1..])
    else "_" + Underscored(s[1..])
  }

  function TerraformSafeName(value: string): string {
    var slug := Trim(Underscored(Lower(Trim(value, IsSpace))), IsUnderscore);
    if slug == "" then "resource"
    else if IsLower(slug[0]) || IsUpper(slug[0]) || slug[0] == '_' then slug
    else "r_" + slug
  }

  /** [a-zA-Z_][a-zA-Z0-9_-]* */
  predicate IsIdentifier(s: string) {
    && s != "" && (IsLower(s[0]) || IsUpper(s[0]) || s[0] == '_')
    && forall i :: 0 <= i < |s| ==> IsAlnum(s[i]) || s[i] == '_' || s[i] == '-'
  }

  predicate NoCapitals(s: string) {
    forall i :: 0 <= i < |s| ==> !IsUpper(s[i])
  }

  predicate SlugText(s: string) {
    (forall i :: 0 <= i < |s| ==> IsLower(s[i]) || IsNumeral(s[i]) || s[i] == '_') && NoPair(s, '_', '_')
  }

  /** Lower-case words joined by single underscores, starting with a letter. */
  predicate IsLabel(s: string) {
    s != "" && SlugText(s) && IsLower(s[0]) && s[|s| - 1] != '_'
  }

  lemma {:induction false} LowerLowers(s: string)
    ensures NoCapitals(Lower(s))
  {
    if s != "" {
      LowerLowers(s[1..]);
    }
  }

  lemma {:induction false} LowerKeeps(s: string)
    requires SlugText(s)
    ensures Lower(s) == s
  {
    if s != "" {
      assert forall i :: 0 <= i < |s| - 1 ==> s[1..][i] == s[i + 1];
      LowerKeeps(s[1..]);
      assert s == [s[0]] + s[1..];
    }
  }

  lemma {:induction false} UnderscoredIsSlug(s: string)
    requires NoCapitals(s)
    ensures SlugText(Underscored(s))
    ensures s != "" ==> Underscored(s) != "" && Underscored(s)[0] == if IsAlnum(s[0]) then s[0] else '_'
  {
    if s != "" {
      UnderscoredIsSlug(s[1..]);
    }
  }

  lemma {:induction false} UnderscoredKeeps(s: string)
    requires SlugText(s)
    ensures Underscored(s) == s
  {
    if s != "" {
      assert forall i :: 0 <= i < |s| - 1 ==> s[1..][i] == s[i + 1];
      UnderscoredKeeps(s[1..]);
      assert s == [s[0]] + s[1..];
    }
  }

  lemma TrimKeepsSlug(s: string)
    requires SlugText(s)
    ensures var t := Trim(s, IsUnderscore); SlugText(t) && (t != "" ==> t[0] != '_' && t[|t| - 1] != '_')
  {
    var at := TrimSlice(s, IsUnderscore);
    SliceNoPair(s, at, at + |Trim(s, IsUnderscore)|, '_', '_');
  }

  lemma PrefixedIsLabel(slug: string)
    requires slug != "" && SlugText(slug) && slug[0] != '_' && slug[|slug| - 1] != '_'
    ensures IsLabel("r_" + slug)
  {
    var s := "r_" + slug;
    assert forall i :: 0 <= i < |slug| ==> s[i + 2] == slug[i];
    forall i | 0 <= i < |s| - 1 ensures !(s[i] == '_' && s[i + 1] == '_') {
      if i >= 2 {
        assert s[i] == slug[i - 2] && s[i + 1] == slug[i - 1];
      }
    }
  }

  /** Every string becomes a label, and every label is a Terraform identifier. */
  lemma SafeNameIsLabel(value: string)
    ensures IsLabel(TerraformSafeName(value)) && IsIdentifier(TerraformSafeName(value))
  {
    var lowered := Lower(Trim(value, IsSpace));
    LowerLowers(Trim(value, IsSpace));
    UnderscoredIsSlug(lowered);
    TrimKeepsSlug(Underscored(lowered));
    var slug := Trim(Underscored(lowered), IsUnderscore);
    if slug != "" {
      PrefixedIsLabel(slug);
    }
    LabelIsIdentifier(TerraformSafeName(value));
  }

  lemma LabelIsIdentifier(s: string)
    requires IsLabel(s)
    ensures IsIdentifier(s)
  {
  }

  lemma SafeNameFixesExactlyLabels(s: string)
    ensures TerraformSafeName(s) == s <==> IsLabel(s)
  {
    if IsLabel(s) {
      TrimKept(s, IsSpace);
      LowerKeeps(s);
      UnderscoredKeeps(s);
      TrimKept(s, IsUnderscore);
    } else {
      SafeNameIsLabel(s);
    }
  }

  lemma SafeNameIdempotent(value: string)
    ensures TerraformSafeName(TerraformSafeName(value)) == TerraformSafeName(value)
  {
    SafeNameIsLabel(value);
    SafeNameFixesExactlyLabels(TerraformSafeName(value));
  }

  /** A numbered label is still a valid identifier. */
  lemma NumberedIdentifier(base: string, n: nat)
    requires IsIdentifier(base)
    ensures IsIdentifier(base + "_" + Decimal(n))
  {
  }
}
