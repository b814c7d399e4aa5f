/** Normalisation of a diagnosis label before it is stored: an empty or
    whitespace-only answer becomes the sentinel "Undisclosed", and every
    answer is put through Python's `str.title()`. Both string operations
    are modelled over ASCII, as Python defines them there. */
module Labels {

  /** Sentinel stored for a blank answer. */
  const Undisclosed: string := "Undisclosed"

  /** Python's `str.isspace()` on ASCII: space, tab, line feed, vertical
      tab, form feed, carriage return and the separators 0x1c-0x1f. */
  predicate IsSpace(c: char) {
    c == ' ' || 9 <= c as int <= 13 || 28 <= c as int <= 31
  }

  predicate IsUpper(c: char) { 'A' <= c <= 'Z' }

  predicate IsLower(c: char) { 'a' <= c <= 'z' }

  /** The cased characters of ASCII: `str.title()` changes only these. */
  predicate IsLetter(c: char) { IsUpper(c) || IsLower(c) }

  function ToUpper(c: char): char {
    if IsLower(c) then (c as int - 32) as char else c
  }

  function ToLower(c: char): char {
    if IsUpper(c) then (c as int + 32) as char else c
  }

  predicate AllSpace(s: string) {
    forall i :: 0 <= i < |s| ==> IsSpace(s[i])
  }

  // ---------------------------------------------------------------------
  // str.strip() and the blank test
  // ---------------------------------------------------------------------

  /** Leading whitespace removed. */
  function TrimStart(s: string): string {
    if s != [] && IsSpace(s[0]) then TrimStart(s[1..]) else s
  }

  /** Trailing whitespace removed. */
  function TrimEnd(s: string): string {
    if s != [] && IsSpace(s[|s| - 1]) then TrimEnd(s[..|s| - 1]) else s
  }

  /** Python's `s.strip()` with no argument. */
  function Strip(s: string): string {
    TrimEnd(TrimStart(s))
  }

  /** The guard of record_choice: `not choice or choice.strip() == ""`. */
  predicate IsBlank(choice: string) {
    choice == [] || Strip(choice) == []
  }

  /** `TrimStart(s)` is the suffix of `s` left after its leading whitespace:
      everything cut off is space, and what is left is empty or opens with
      a non-space. */
  lemma {:induction false} TrimStartSpec(s: string)
    ensures |TrimStart(s)| <= |s| && TrimStart(s) == s[|s| - |TrimStart(s)|..]
    ensures forall i :: 0 <= i < |s| - |TrimStart(s)| ==> IsSpace(s[i])
    ensures TrimStart(s) != [] ==> !IsSpace(TrimStart(s)[0])
    ensures TrimStart(s) == [] <==> AllSpace(s)
  {
    if s != [] && IsSpace(s[0]) {
      TrimStartSpec(s[1..]);
      forall i | 0 <= i < |s| - |TrimStart(s)| ensures IsSpace(s[i]) {
        if i > 0 { assert s[i] == s[1..][i - 1]; }
      }
    }
  }

  /** `TrimEnd(s)` is the prefix of `s` left before its trailing whitespace:
      everything cut off is space, and what is left is empty or closes with
      a non-space. */
  lemma {:induction false} TrimEndSpec(s: string)
    ensures |TrimEnd(s)| <= |s| && TrimEnd(s) == s[..|TrimEnd(s)|]
    ensures forall i :: |TrimEnd(s)| <= i < |s| ==> IsSpace(s[i])
    ensures TrimEnd(s) != [] ==> !IsSpace(TrimEnd(s)[|TrimEnd(s)| - 1])
    ensures TrimEnd(s) == [] <==> AllSpace(s)
  {
    if s != [] && IsSpace(s[|s| - 1]) {
      var init := s[..|s| - 1];
      TrimEndSpec(init);
      forall i | |TrimEnd(s)| <= i < |s| ensures IsSpace(s[i]) {
        if i < |s| - 1 { assert s[i] == init[i]; }
      }
      assert TrimEnd(s) == init[..|TrimEnd(s)|];
    }
  }

  /** `Strip(s)` is the piece of `s` between its leading and its trailing
      whitespace: it starts at `k`, everything outside it is space, and it
      neither opens nor closes with a space. */
  lemma StripSpec(s: string, k: nat)
    requires k == |s| - |TrimStart(s)|
    ensures k + |Strip(s)| <= |s| && Strip(s) == s[k..k + |Strip(s)|]
    ensures forall i :: 0 <= i < k ==> IsSpace(s[i])
    ensures forall i :: k + |Strip(s)| <= i < |s| ==> IsSpace(s[i])
    ensures Strip(s) != [] ==> !IsSpace(Strip(s)[0]) && !IsSpace(Strip(s)[|Strip(s)| - 1])
  {
    var t := TrimStart(s);
    TrimStartSpec(s);
    TrimEndSpec(t);
    forall i | k + |Strip(s)| <= i < |s| ensures IsSpace(s[i]) {
      assert s[i] == t[i - k];
    }
  }

  /** An answer is blank exactly when every character of it is whitespace
      (the empty answer included). */
  lemma BlankIffAllSpace(choice: string)
    ensures IsBlank(choice) <==> AllSpace(choice)
  {
    TrimStartSpec(choice);
    TrimEndSpec(TrimStart(choice));
  }

  // ---------------------------------------------------------------------
  // str.title()
  // ---------------------------------------------------------------------

  /** What `str.title()` makes of `c`: a letter that follows a letter is
      lowered, any other letter is raised, a non-letter is kept. */
  function TitleChar(c: char, afterLetter: bool): char {
    if afterLetter then ToLower(c) else ToUpper(c)
  }

  /** `str.title()` on the rest of a string, `afterLetter` telling whether
      the character before it was a letter. */
  function TitleFrom(s: string, afterLetter: bool): (r: string)
    ensures |r| == |s|
  {
    if s == [] then []
    else [TitleChar(s[0], afterLetter)] + TitleFrom(s[1..], IsLetter(s[0]))
  }

  /** Python's `s.title()` on ASCII. */
  function TitleCase(s: string): (r: string)
    ensures |r| == |s|
  {
    TitleFrom(s, false)
  }

  /** `t` is in title case: a letter in it is upper case exactly when it
      opens a word, that is, when it is first or follows a non-letter. */
  predicate IsTitled(t: string) {
    forall i :: 0 <= i < |t| && IsLetter(t[i]) ==>
      (IsUpper(t[i]) <==> (i == 0 || !IsLetter(t[i - 1])))
  }

  /** `s` and `t` have the same length and differ at most in the case of
      their letters. */
  predicate SameLetters(s: string, t: string) {
    |s| == |t| && forall i :: 0 <= i < |s| ==> ToLower(s[i]) == ToLower(t[i])
  }

  /** A label as it may be stored: not blank and in title case. */
  predicate IsStoredLabel(d: string) {
    !IsBlank(d) && IsTitled(d)
  }

  /** Character `i` of `TitleFrom(s, afterLetter)` depends only on `s[i]`
      and on whether the character before it is a letter. */
  lemma {:induction false} TitleFromAt(s: string, afterLetter: bool, i: nat)
    requires i < |s|
    ensures |TitleFrom(s, afterLetter)| == |s|
    ensures TitleFrom(s, afterLetter)[i] ==
            TitleChar(s[i], if i == 0 then afterLetter else IsLetter(s[i - 1]))
  {
    if i == 0 {
      if |s| > 1 { TitleFromAt(s[1..], IsLetter(s[0]), 0); }
    } else {
      TitleFromAt(s[1..], IsLetter(s[0]), i - 1);
      assert s[1..][i - 1] == s[i];
      if i > 1 { assert s[1..][i - 2] == s[i - 1]; }
    }
  }

  /** `str.title()` changes the case of letters only, and its result is in
      title case. */
  lemma TitleCaseSpec(s: string)
    ensures SameLetters(s, TitleCase(s))
    ensures IsTitled(TitleCase(s))
  {
    var t := TitleCase(s);
    forall i | 0 <= i < |s|
      ensures ToLower(s[i]) == ToLower(t[i])
      ensures IsLetter(s[i]) == IsLetter(t[i])
    {
      TitleFromAt(s, false, i);
    }
    forall i | 0 <= i < |t| && IsLetter(t[i])
      ensures IsUpper(t[i]) <==> (i == 0 || !IsLetter(t[i - 1]))
    {
      TitleFromAt(s, false, i);
    }
  }

  /** Letters are recognised by their lower-case form. */
  lemma LetterByLower(c: char)
    ensures IsLetter(c) <==> IsLower(ToLower(c))
    ensures ToUpper(ToLower(c)) == ToUpper(c)
    ensures IsUpper(c) ==> ToUpper(ToLower(c)) == c
    ensures IsLower(c) ==> ToLower(c) == c
  {
  }

  /** Title case is determined by the letters: the only title-cased string
      that differs from `s` in letter case alone is `TitleCase(s)`. */
  lemma TitleCaseUnique(s: string, t: string)
    requires SameLetters(s, t)
    requires IsTitled(t)
    ensures t == TitleCase(s)
  {
    var r := TitleCase(s);
    forall i | 0 <= i < |t| ensures t[i] == r[i] {
      TitleFromAt(s, false, i);
      LetterByLower(s[i]);
      LetterByLower(t[i]);
      var afterLetter := i > 0 && IsLetter(s[i - 1]);
      if i > 0 {
        LetterByLower(s[i - 1]);
        LetterByLower(t[i - 1]);
        assert ToLower(s[i - 1]) == ToLower(t[i - 1]);
      }
      assert r[i] == TitleChar(s[i], afterLetter);
      assert afterLetter == (i > 0 && IsLetter(t[i - 1]));
      if IsLetter(t[i]) {
        assert IsUpper(t[i]) == !afterLetter;
      } else {
        assert !IsLetter(s[i]);
      }
    }
  }

  /** Title-casing a title-cased label leaves it unchanged. */
  lemma TitleCaseIdempotent(s: string)
    ensures TitleCase(TitleCase(s)) == TitleCase(s)
  {
    var t := TitleCase(s);
    TitleCaseSpec(s);
    TitleCaseUnique(t, t);
  }

  /** Changing the case of letters never turns a non-blank string blank. */
  lemma SameLettersKeepsBlank(s: string, t: string)
    requires SameLetters(s, t)
    ensures IsBlank(s) <==> IsBlank(t)
  {
    BlankIffAllSpace(s);
    BlankIffAllSpace(t);
    forall i | 0 <= i < |s| ensures IsSpace(s[i]) <==> IsSpace(t[i]) {
      LetterByLower(s[i]);
      LetterByLower(t[i]);
    }
  }

  // ---------------------------------------------------------------------
  // The label record_choice stores
  // ---------------------------------------------------------------------

  /** The sentinel is already in stored form. */
  lemma UndisclosedIsStored()
    ensures TitleCase(Undisclosed) == Undisclosed
    ensures IsStoredLabel(Undisclosed)
  {
    assert IsUpper(Undisclosed[0]);
    assert forall i :: 1 <= i < |Undisclosed| ==> IsLower(Undisclosed[i]);
    TitleCaseUnique(Undisclosed, Undisclosed);
    NotBlankAt(Undisclosed, 0);
  }

  /** The diagnosis record_choice stores for the answer `choice`: a blank
      answer is replaced by the sentinel, then the label is title-cased. */
  function Normalize(choice: string): (r: string)
    ensures IsBlank(choice) ==> r == Undisclosed
    ensures !IsBlank(choice) ==> SameLetters(choice, r)
    ensures IsStoredLabel(r)
  {
    if IsBlank(choice) then
      UndisclosedIsStored();
      TitleCase(Undisclosed)
    else
      TitleCaseSpec(choice);
      SameLettersKeepsBlank(choice, TitleCase(choice));
      TitleCase(choice)
  }

  /** Normalising a stored label gives it back unchanged. */
  lemma NormalizeIdempotent(choice: string)
    ensures Normalize(Normalize(choice)) == Normalize(choice)
  {
    var r := Normalize(choice);
    TitleCaseUnique(r, r);
  }

  /** An empty or whitespace-only answer is stored as exactly the sentinel. */
  lemma NormalizeBlank(choice: string)
    requires AllSpace(choice)
    ensures Normalize(choice) == Undisclosed
  {
    BlankIffAllSpace(choice);
  }

  /** A title-cased `t` that differs from a non-blank answer only in the
      case of its letters is what the answer is stored as. */
  lemma NormalizeTo(choice: string, t: string)
    requires !IsBlank(choice)
    requires SameLetters(choice, t) && IsTitled(t)
    ensures Normalize(choice) == t
  {
    TitleCaseUnique(choice, t);
  }

  /** A non-blank answer is recognised by any character of it that is not
      whitespace. */
  lemma NotBlankAt(choice: string, i: nat)
    requires i < |choice| && !IsSpace(choice[i])
    ensures !IsBlank(choice)
  {
    BlankIffAllSpace(choice);
  }

  /** "tumor" is stored as "Tumor". */
  lemma NormalizeLowerTumor()
    ensures Normalize("tumor") == "Tumor"
  {
    NotBlankAt("tumor", 0);
    NormalizeTo("tumor", "Tumor");
  }

  /** "TUMOR" is stored as "Tumor". */
  lemma NormalizeUpperTumor()
    ensures Normalize("TUMOR") == "Tumor"
  {
    NotBlankAt("TUMOR", 0);
    NormalizeTo("TUMOR", "Tumor");
  }

  /** An answer typed with a leading space keeps it: the label is
      title-cased but not stripped. */
  lemma NormalizeKeepsLeadingSpace()
    ensures Normalize(" cyst") == " Cyst"
  {
    NotBlankAt(" cyst", 1);
    NormalizeTo(" cyst", " Cyst");
  }

  /** The "Normal" button's answer is stored as written. */
  lemma NormalizeNormal()
    ensures Normalize("Normal") == "Normal"
  {
    NotBlankAt("Normal", 0);
    NormalizeTo("Normal", "Normal");
  }

  /** The "Tumor" button's answer is stored as written. */
  lemma NormalizeTumor()
    ensures Normalize("Tumor") == "Tumor"
  {
    NotBlankAt("Tumor", 0);
    NormalizeTo("Tumor", "Tumor");
  }

  /** The two fixed answers are stored as they are written. */
  lemma NormalizeFixedAnswers()
    ensures Normalize("Normal") == "Normal"
    ensures Normalize("Tumor") == "Tumor"
  {
    NormalizeNormal();
    NormalizeTumor();
  }
}
