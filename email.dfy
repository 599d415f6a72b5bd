/**
 * Email normalisation, `email.toLowerCase().trim()`: the natural key of the
 * local user registry. Modelled over ASCII: lower-casing maps A-Z only and
 * trimming strips the ASCII white space characters.
 *
 * The functions carry no postconditions of their own; what they compute is
 * stated in the lemmas below them, which callers invoke where they need it.
 */
module Email {

  /** The ASCII characters String.prototype.trim strips. */
  predicate IsSpace(c: char) {
    c == ' ' || c == '\t' || c == '\n' || c == '\r' || c == '\U{000B}' || c == '\U{000C}'
  }

  predicate AllSpace(s: string) {
    forall i :: 0 <= i < |s| ==> IsSpace(s[i])
  }

  predicate IsUpper(c: char) {
    'A' <= c <= 'Z'
  }

  predicate NoUpper(s: string) {
    forall i :: 0 <= i < |s| ==> !IsUpper(s[i])
  }

  /** No white space at either end. */
  predicate Trimmed(s: string) {
    s == [] || (!IsSpace(s[0]) && !IsSpace(s[|s| - 1]))
  }

  function LowerChar(c: char): char {
    if IsUpper(c) then (c as int + 32) as char else c
  }

  /** String.prototype.toLowerCase on ASCII letters. */
  function ToLower(s: string): string {
    if s == [] then [] else [LowerChar(s[0])] + ToLower(s[1..])
  }

  /** String.prototype.trim, first half: drops the leading white space. */
  function TrimStart(s: string): string {
    if s != [] && IsSpace(s[0]) then TrimStart(s[1..]) else s
  }

  /** String.prototype.trim, second half: drops the trailing white space. */
  function TrimEnd(s: string): string {
    if s != [] && IsSpace(s[|s| - 1]) then TrimEnd(s[..|s| - 1]) else s
  }

  /** String.prototype.trim. */
  function Trim(s: string): string {
    TrimEnd(TrimStart(s))
  }

  /** `email.toLowerCase().trim()`: no upper-case letter and no white space at either end. */
  function Normalize(email: string): (r: string)
    ensures NoUpper(r) && Trimmed(r)
  {
    ToLowerPointwise(email);
    TrimSpec(ToLower(email));
    Trim(ToLower(email))
  }

  /** Lower-casing maps each character on its own and leaves no upper-case letter. */
  lemma {:induction false} ToLowerPointwise(s: string)
    ensures |ToLower(s)| == |s|
    ensures forall i :: 0 <= i < |s| ==> ToLower(s)[i] == LowerChar(s[i])
    ensures NoUpper(ToLower(s))
  {
    if s != [] {
      ToLowerPointwise(s[1..]);
    }
  }

  /** TrimStart removes exactly the leading white space: a suffix remains that starts with a non-space. */
  lemma {:induction false} TrimStartSpec(s: string)
    ensures |TrimStart(s)| <= |s| && TrimStart(s) == s[|s| - |TrimStart(s)|..]
    ensures AllSpace(s[..|s| - |TrimStart(s)|])
    ensures TrimStart(s) == [] || !IsSpace(TrimStart(s)[0])
  {
    if s != [] && IsSpace(s[0]) {
      var r := TrimStart(s[1..]);
      TrimStartSpec(s[1..]);
      assert s[..|s| - |r|] == [s[0]] + s[1..][..|s| - 1 - |r|];
    }
  }

  /** TrimEnd removes exactly the trailing white space: a prefix remains that ends with a non-space. */
  lemma {:induction false} TrimEndSpec(s: string)
    ensures |TrimEnd(s)| <= |s| && TrimEnd(s) == s[..|TrimEnd(s)|]
    ensures AllSpace(s[|TrimEnd(s)|..])
    ensures TrimEnd(s) == [] || !IsSpace(TrimEnd(s)[|TrimEnd(s)| - 1])
  {
    if s != [] && IsSpace(s[|s| - 1]) {
      var r := TrimEnd(s[..|s| - 1]);
      TrimEndSpec(s[..|s| - 1]);
      assert s[|r|..] == s[..|s| - 1][|r|..] + [s[|s| - 1]];
    }
  }

  /**
   * Trimming never lengthens the text, leaves white space on neither end, and
   * adds no upper-case letter.
   */
  lemma TrimSpec(s: string)
    ensures |Trim(s)| <= |s|
    ensures Trimmed(Trim(s))
    ensures NoUpper(s) ==> NoUpper(Trim(s))
  {
    var a := TrimStart(s);
    TrimStartSpec(s);
    TrimEndSpec(a);
    var t := TrimEnd(a);
    if t != [] {
      assert t[0] == a[0];
    }
    var off := |s| - |a|;
    assert forall k :: 0 <= k < |t| ==> t[k] == a[k] == s[off + k];
  }

  /** Two spellings of an address that differ only in letter case. */
  predicate CaseVariant(a: string, b: string) {
    |a| == |b| && forall i :: 0 <= i < |a| ==> LowerChar(a[i]) == LowerChar(b[i])
  }

  lemma {:induction false} TrimStartSpaces(a: string, x: string)
    requires AllSpace(a)
    ensures TrimStart(a + x) == TrimStart(x)
  {
    if a != [] {
      assert (a + x)[1..] == a[1..] + x;
      TrimStartSpaces(a[1..], x);
    } else {
      assert a + x == x;
    }
  }

  lemma {:induction false} TrimEndSpaces(x: string, b: string)
    requires AllSpace(b)
    ensures TrimEnd(x + b) == TrimEnd(x)
  {
    if b != [] {
      assert (x + b)[..|x + b| - 1] == x + b[..|b| - 1];
      TrimEndSpaces(x, b[..|b| - 1]);
    } else {
      assert x + b == x;
    }
  }

  lemma {:induction false} TrimStartThenEnd(e: string, b: string)
    requires AllSpace(b)
    ensures TrimEnd(TrimStart(e + b)) == TrimEnd(TrimStart(e))
  {
    if e == [] {
      assert e + b == b;
      TrimStartSpec(b);
      assert TrimStart(b) == [];
    } else if IsSpace(e[0]) {
      assert (e + b)[1..] == e[1..] + b;
      TrimStartThenEnd(e[1..], b);
    } else {
      TrimEndSpaces(e, b);
    }
  }

  /** Trimming ignores white space added at either end. */
  lemma TrimPadded(a: string, e: string, b: string)
    requires AllSpace(a) && AllSpace(b)
    ensures Trim(a + e + b) == Trim(e)
  {
    assert a + e + b == a + (e + b);
    TrimStartSpaces(a, e + b);
    TrimStartThenEnd(e, b);
  }

  lemma ToLowerAppend(a: string, b: string)
    ensures ToLower(a + b) == ToLower(a) + ToLower(b)
  {
    ToLowerPointwise(a + b);
    ToLowerPointwise(a);
    ToLowerPointwise(b);
    assert forall i :: 0 <= i < |a + b| ==> ToLower(a + b)[i] == (ToLower(a) + ToLower(b))[i];
  }

  lemma ToLowerUnchanged(s: string)
    requires AllSpace(s) || NoUpper(s)
    ensures ToLower(s) == s
  {
    ToLowerPointwise(s);
    assert forall i :: 0 <= i < |s| ==> ToLower(s)[i] == s[i];
  }

  lemma ToLowerCaseVariant(a: string, b: string)
    requires CaseVariant(a, b)
    ensures ToLower(a) == ToLower(b)
  {
    ToLowerPointwise(a);
    ToLowerPointwise(b);
    assert forall i :: 0 <= i < |a| ==> ToLower(a)[i] == ToLower(b)[i];
  }

  /**
   * Any case variant of an address, padded with white space on either side,
   * normalises to the same key as the address itself.
   */
  lemma NormalizeVariant(email: string, variant: string, before: string, after: string)
    requires CaseVariant(email, variant)
    requires AllSpace(before) && AllSpace(after)
    ensures Normalize(before + variant + after) == Normalize(email)
  {
    ToLowerAppend(before + variant, after);
    ToLowerAppend(before, variant);
    ToLowerUnchanged(before);
    ToLowerUnchanged(after);
    ToLowerCaseVariant(email, variant);
    TrimPadded(before, ToLower(variant), after);
  }

  /** Normalising an already normalised address changes nothing. */
  lemma NormalizeIdempotent(email: string)
    ensures Normalize(Normalize(email)) == Normalize(email)
  {
    var t := Normalize(email);
    ToLowerUnchanged(t);
    assert Trim(t) == t;
  }
}
