/**
 What a sanitized name keeps of the text it was made from: its characters, in their order,
 and where it was broken into words. Only the breaks themselves are rewritten.
 */
module Letters {
  import opened Text
  import opened Naming

  /** A character that is kept, and whether anything was dropped just before it. */
  datatype Mark = Mark(c: char, gap: bool)

  // ---------- sanitize_identifier ----------

  /** The characters of a text that are not blank, dash, unsafe or part of a `$(`. */
  function Marks(s: string, gap: bool): seq<Mark> {
    if s == "" then []
    else if Unsafe(s[0]) || BlankOrDash(s[0]) then Marks(s[1..], true)
    else if |s| >= 2 && s[0] == '$' && s[1] == '(' then Marks(s[2..], true)
    else [Mark(s[0], gap)] + Marks(s[1..], false)
  }

  lemma ConsMarks(c: char, t: string, gap: bool)
    requires c == '$' && t != "" ==> t[0] != '('
    ensures Marks([c] + t, gap) ==
      if Unsafe(c) || BlankOrDash(c) then Marks(t, true) else [Mark(c, gap)] + Marks(t, false)
  {
    var s := [c] + t;
    assert s[0] == c && s[1..] == t;
  }

  lemma {:induction false} DefuseMarks(s: string, gap: bool)
    ensures Marks(Defuse(s), gap) == Marks(s, gap)
  {
    if s != "" {
      if Unsafe(s[0]) {
        DefuseMarks(s[1..], true);
        ConsMarks('-', Defuse(s[1..]), gap);
      } else if |s| >= 2 && s[0] == '$' && s[1] == '(' {
        DefuseMarks(s[2..], true);
        ConsMarks('-', Defuse(s[2..]), gap);
      } else {
        DefuseMarks(s[1..], BlankOrDash(s[0]));
        DefuseDefuses(s[1..]);
        ConsMarks(s[0], Defuse(s[1..]), gap);
      }
    }
  }

  lemma TailNoPair(s: string, a: char, b: char)
    requires s != "" && NoPair(s, a, b)
    ensures NoPair(s[1..], a, b) && (|s| >= 2 && s[0] == a ==> s[1] != b)
  {
    assert forall i :: 0 <= i < |s| - 1 ==> s[1..][i] == s[i + 1];
  }

  lemma {:induction false} SpacesMarks(s: string, gap: bool)
    requires NoPair(s, '$', '(')
    ensures Marks(SqueezeSpaces(s), gap) == Marks(s, gap)
    ensures s != "" ==> SqueezeSpaces(s) != "" && SqueezeSpaces(s)[0] == if IsSpace(s[0]) then ' ' else s[0]
  {
    if s != "" {
      TailNoPair(s, '$', '(');
      if |s| >= 2 && IsSpace(s[0]) && IsSpace(s[1]) {
        SpacesMarks(s[1..], gap);
      } else {
        SpacesMarks(s[1..], Unsafe(s[0]) || BlankOrDash(s[0]));
        ConsMarks(if IsSpace(s[0]) then ' ' else s[0], SqueezeSpaces(s[1..]), gap);
      }
    }
  }

  lemma {:induction false} DashesMarks(s: string, gap: bool)
    requires NoPair(s, '$', '(')
    ensures Marks(SqueezeDashes(s), gap) == Marks(s, gap)
    ensures s != "" ==> SqueezeDashes(s) != "" && SqueezeDashes(s)[0] == s[0]
  {
    if s != "" {
      TailNoPair(s, '$', '(');
      if |s| >= 2 && s[0] == '-' && s[1] == '-' {
        DashesMarks(s[1..], gap);
      } else {
        DashesMarks(s[1..], Unsafe(s[0]) || BlankOrDash(s[0]));
        ConsMarks(s[0], SqueezeDashes(s[1..]), gap);
      }
    }
  }

  lemma {:induction false} TrimLeftMarks(s: string, drop: char -> bool)
    requires forall c :: drop(c) ==> BlankOrDash(c)
    ensures Marks(TrimLeft(s, drop), true) == Marks(s, true)
  {
    if s != "" && drop(s[0]) {
      TrimLeftMarks(s[1..], drop);
    }
  }

  lemma {:induction false} MarksEnd(s: string, c: char, gap: bool)
    requires BlankOrDash(c)
    ensures Marks(s + [c], gap) == Marks(s, gap)
  {
    if s == "" {
      assert Marks([c][1..], true) == [];
    } else {
      assert (s + [c])[1..] == s[1..] + [c];
      if Unsafe(s[0]) || BlankOrDash(s[0]) {
        MarksEnd(s[1..], c, true);
      } else if |s| >= 2 && s[0] == '$' && s[1] == '(' {
        assert (s + [c])[2..] == s[2..] + [c];
        MarksEnd(s[2..], c, true);
      } else {
        MarksEnd(s[1..], c, false);
      }
    }
  }

  lemma {:induction false} TrimRightMarks(s: string, drop: char -> bool, gap: bool)
    requires forall c :: drop(c) ==> BlankOrDash(c)
    ensures Marks(TrimRight(s, drop), gap) == Marks(s, gap)
  {
    if s != "" && drop(s[|s| - 1]) {
      TrimRightMarks(s[..|s| - 1], drop, gap);
      MarksEnd(s[..|s| - 1], s[|s| - 1], gap);
      assert s == s[..|s| - 1] + [s[|s| - 1]];
    }
  }

  lemma TrimMarks(s: string, drop: char -> bool)
    requires forall c :: drop(c) ==> BlankOrDash(c)
    ensures Marks(Trim(s, drop), true) == Marks(s, true)
  {
    TrimLeftMarks(s, drop);
    TrimRightMarks(TrimLeft(s, drop), drop, true);
  }

  /** Unless nothing is left, a sanitized name has the kept characters of its text, in the same words. */
  lemma SanitizeKeepsWords(value: string)
    ensures !Void(value) ==> Marks(Sanitize(value), true) == Marks(value, true)
    ensures Void(value) ==> Sanitize(value) == "unnamed"
  {
    var defused := Defuse(value);
    var squeezed := SqueezeSpaces(defused);
    var cleaned := Trim(squeezed, IsSpace);
    ScrubbedEmptyIff(value);
    DefuseMarks(value, true);
    DefuseDefuses(value);
    SpacesMarks(defused, true);
    SqueezeSpacesSqueezes(defused);
    TrimMarks(squeezed, IsSpace);
    TrimKeepsPasses(squeezed, IsSpace);
    DashesMarks(cleaned, true);
    TrimMarks(SqueezeDashes(cleaned), DashOrSpace);
  }

  // ---------- terraform_safe_name ----------

  /** The letters and digits of a text. */
  function Alnums(s: string, gap: bool): seq<Mark> {
    if s == "" then []
    else if IsAlnum(s[0]) then [Mark(s[0], gap)] + Alnums(s[1..], false)
    else Alnums(s[1..], true)
  }

  lemma ConsAlnums(c: char, t: string, gap: bool)
    ensures Alnums([c] + t, gap) == if IsAlnum(c) then [Mark(c, gap)] + Alnums(t, false) else Alnums(t, true)
  {
    assert ([c] + t)[1..] == t;
  }

  lemma {:induction false} UnderscoredAlnums(s: string, gap: bool)
    ensures Alnums(Underscored(s), gap) == Alnums(s, gap)
  {
    if s != "" {
      if IsAlnum(s[0]) {
        UnderscoredAlnums(s[1..], false);
        ConsAlnums(s[0], Underscored(s[1..]), gap);
      } else if |s| >= 2 && !IsAlnum(s[1]) {
        UnderscoredAlnums(s[1..], gap);
      } else {
        UnderscoredAlnums(s[1..], true);
        ConsAlnums('_', Underscored(s[1..]), gap);
      }
    }
  }

  lemma {:induction false} AlnumsEnd(s: string, c: char, gap: bool)
    requires !IsAlnum(c)
    ensures Alnums(s + [c], gap) == Alnums(s, gap)
  {
    if s == "" {
      assert Alnums([c][1..], true) == [];
    } else {
      assert (s + [c])[1..] == s[1..] + [c];
      AlnumsEnd(s[1..], c, !IsAlnum(s[0]));
    }
  }

  lemma {:induction false} TrimLeftAlnums(s: string, drop: char -> bool)
    requires forall c :: drop(c) ==> !IsAlnum(c)
    ensures Alnums(TrimLeft(s, drop), true) == Alnums(s, true)
  {
    if s != "" && drop(s[0]) {
      TrimLeftAlnums(s[1..], drop);
    }
  }

  lemma {:induction false} TrimRightAlnums(s: string, drop: char -> bool)
    requires forall c :: drop(c) ==> !IsAlnum(c)
    ensures Alnums(TrimRight(s, drop), true) == Alnums(s, true)
  {
    if s != "" && drop(s[|s| - 1]) {
      TrimRightAlnums(s[..|s| - 1], drop);
      AlnumsEnd(s[..|s| - 1], s[|s| - 1], true);
      assert s == s[..|s| - 1] + [s[|s| - 1]];
    }
  }

  lemma TrimAlnums(s: string, drop: char -> bool)
    requires forall c :: drop(c) ==> !IsAlnum(c)
    ensures Alnums(Trim(s, drop), true) == Alnums(s, true)
  {
    TrimLeftAlnums(s, drop);
    TrimRightAlnums(TrimLeft(s, drop), drop);
  }

  /**
   A safe name has the letters and digits of the lower-cased text, in the same words, after a
   prefix if the first is a digit; it is "resource" if there are none.
   */
  lemma SafeNameKeepsWords(value: string)
    ensures var kept := Alnums(Lower(Trim(value, IsSpace)), true);
      var name := TerraformSafeName(value);
      && (kept == [] ==> name == "resource")
      && (kept != [] && IsLower(kept[0].c) ==> Alnums(name, true) == kept)
      && (kept != [] && !IsLower(kept[0].c) ==> exists slug :: name == "r_" + slug && Alnums(slug, true) == kept)
  {
    var lowered := Lower(Trim(value, IsSpace));
    LowerLowers(Trim(value, IsSpace));
    UnderscoredIsSlug(lowered);
    TrimKeepsSlug(Underscored(lowered));
    UnderscoredAlnums(lowered, true);
    TrimAlnums(Underscored(lowered), IsUnderscore);
    var slug := Trim(Underscored(lowered), IsUnderscore);
    if slug != "" {
      assert IsAlnum(slug[0]) && Alnums(slug, true)[0] == Mark(slug[0], true);
    }
  }
}
