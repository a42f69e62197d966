/** The per-sentence cleaning shared by the three preprocessing scripts:
    `re.sub(<pattern>, '', sentence).lower().strip()`, where the pattern removes every
    character that is not an ASCII letter, (for two of the scripts) an ASCII digit, or whitespace. */
module TextClean {
  import opened Strings

  /** The characters the cleaning pattern keeps; `digits` says whether 0-9 are among them. */
  predicate Kept(c: char, digits: bool) {
    IsUpper(c) || IsLower(c) || (digits && IsDigit(c)) || IsSpace(c)
  }

  /** The characters a cleaned sentence may hold: lower-case letters, digits when kept, whitespace. */
  predicate CleanChar(c: char, digits: bool) {
    IsLower(c) || (digits && IsDigit(c)) || IsSpace(c)
  }

  /** A sentence as cleaning leaves it: only clean characters and no whitespace at either end. */
  predicate IsClean(s: string, digits: bool) {
    (forall i :: 0 <= i < |s| ==> CleanChar(s[i], digits)) && Stripped(s)
  }

  /** re.sub(r'[^A-Za-z0-9\s]', '', s) when `digits`, re.sub(r'[^A-Za-z\s]', '', s) otherwise. */
  function RemoveOthers(s: string, digits: bool): (r: string)
    ensures |r| <= |s|
    ensures forall i :: 0 <= i < |r| ==> Kept(r[i], digits)
  {
    if s == [] then []
    else (if Kept(s[0], digits) then [s[0]] else []) + RemoveOthers(s[1..], digits)
  }

  /** The substitution works character by character: it distributes over concatenation. */
  lemma {:induction false} RemoveOthersAppend(a: string, b: string, digits: bool)
    ensures RemoveOthers(a + b, digits) == RemoveOthers(a, digits) + RemoveOthers(b, digits)
  {
    if a == [] {
      assert a + b == b;
    } else {
      assert (a + b)[1..] == a[1..] + b;
      RemoveOthersAppend(a[1..], b, digits);
    }
  }

  /** The substitution removes nothing from a string made only of kept characters. */
  lemma {:induction false} RemoveOthersKeepsKept(s: string, digits: bool)
    requires forall i :: 0 <= i < |s| ==> Kept(s[i], digits)
    ensures RemoveOthers(s, digits) == s
  {
    if s != [] {
      RemoveOthersKeepsKept(s[1..], digits);
    }
  }

  /** One sentence through the substitution, str.lower() and str.strip(). */
  function CleanSentence(s: string, digits: bool): string {
    Strip(Lower(RemoveOthers(s, digits)))
  }

  /** A cleaned sentence holds only lower-case letters, the kept digits and inner whitespace. */
  lemma CleanSentenceIsClean(s: string, digits: bool)
    ensures IsClean(CleanSentence(s, digits), digits)
  {
    var t := Lower(RemoveOthers(s, digits));
    assert forall i :: 0 <= i < |t| ==> CleanChar(t[i], digits);
    StripSlice(t);
  }

  /** Cleaning leaves a clean sentence exactly as it is. */
  lemma CleanSentenceFixesClean(s: string, digits: bool)
    requires IsClean(s, digits)
    ensures CleanSentence(s, digits) == s
  {
    RemoveOthersKeepsKept(s, digits);
    assert Lower(s) == s;
    StripStripped(s);
  }

  /** Cleaning is idempotent. */
  lemma CleanSentenceIdempotent(s: string, digits: bool)
    ensures CleanSentence(CleanSentence(s, digits), digits) == CleanSentence(s, digits)
  {
    CleanSentenceIsClean(s, digits);
    CleanSentenceFixesClean(CleanSentence(s, digits), digits);
  }

  /** Cleaning every sentence of a list, in order. */
  function CleanAll(sentences: seq<string>, digits: bool): (steps: seq<string>)
    ensures |steps| == |sentences|
    ensures forall i :: 0 <= i < |steps| ==> steps[i] == CleanSentence(sentences[i], digits)
    ensures forall i :: 0 <= i < |steps| ==> IsClean(steps[i], digits)
  {
    EverySentenceClean(sentences, digits);
    seq(|sentences|, i requires 0 <= i < |sentences| => CleanSentence(sentences[i], digits))
  }

  lemma EverySentenceClean(sentences: seq<string>, digits: bool)
    ensures forall i :: 0 <= i < |sentences| ==> IsClean(CleanSentence(sentences[i], digits), digits)
  {
    forall i | 0 <= i < |sentences| {
      CleanSentenceIsClean(sentences[i], digits);
    }
  }
}
