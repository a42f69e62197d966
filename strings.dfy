/** Python string and path primitives the modelled code relies on:
    str.isspace/strip, str.split on one character, str.join, `in` on strings,
    str.split(sep, 1), str.endswith, str.replace and os.path.join. */
module Strings {
  import opened Wrappers

  /** Python's str.isspace(); the regular-expression class \s of a str pattern is the same set. */
  predicate IsSpace(c: char) {
    || ('\t' <= c <= '\r')
    || ('\U{1C}' <= c <= '\U{1F}')
    || c == ' ' || c == '\U{85}' || c == '\U{A0}' || c == '\U{1680}'
    || ('\U{2000}' <= c <= '\U{200A}')
    || c == '\U{2028}' || c == '\U{2029}' || c == '\U{202F}' || c == '\U{205F}' || c == '\U{3000}'
  }

  predicate IsUpper(c: char) { 'A' <= c <= 'Z' }

  predicate IsLower(c: char) { 'a' <= c <= 'z' }

  predicate IsDigit(c: char) { '0' <= c <= '9' }

  /** A string with no whitespace at either end, as str.strip() leaves it. */
  predicate Stripped(s: string) {
    s == [] || (!IsSpace(s[0]) && !IsSpace(s[|s| - 1]))
  }

  /** str.lstrip(): drops the leading whitespace. */
  function StripLeft(s: string): (r: string)
    ensures |r| <= |s|
  {
    if |s| > 0 && IsSpace(s[0]) then StripLeft(s[1..]) else s
  }

  /** What str.lstrip() keeps is a suffix of `s` that does not start with whitespace; all it drops is whitespace. */
  lemma {:induction false} StripLeftFacts(s: string)
    ensures var r := StripLeft(s);
      && r == s[|s| - |r|..]
      && (forall k :: 0 <= k < |s| - |r| ==> IsSpace(s[k]))
      && (r == [] || !IsSpace(r[0]))
  {
    if |s| > 0 && IsSpace(s[0]) {
      StripLeftFacts(s[1..]);
    }
  }

  /** str.rstrip(): drops the trailing whitespace. */
  function StripRight(s: string): (r: string)
    ensures |r| <= |s|
  {
    if |s| > 0 && IsSpace(s[|s| - 1]) then StripRight(s[..|s| - 1]) else s
  }

  /** What str.rstrip() keeps is a prefix of `s` that does not end with whitespace; all it drops is whitespace. */
  lemma {:induction false} StripRightFacts(s: string)
    ensures var r := StripRight(s);
      && r == s[..|r|]
      && (forall k :: |r| <= k < |s| ==> IsSpace(s[k]))
      && (r == [] || !IsSpace(r[|r| - 1]))
  {
    if |s| > 0 && IsSpace(s[|s| - 1]) {
      StripRightFacts(s[..|s| - 1]);
    }
  }

  /** str.strip(): drops the whitespace at both ends. */
  function Strip(s: string): (r: string)
    ensures |r| <= |s|
    ensures Stripped(r)
  {
    StripLeftFacts(s);
    StripRightFacts(StripLeft(s));
    StripRight(StripLeft(s))
  }

  /** What str.strip() keeps is a slice of `s`, starting after the leading whitespace. */
  lemma StripSlice(s: string)
    ensures var i, r := |s| - |StripLeft(s)|, Strip(s);
      i + |r| <= |s| && r == s[i..i + |r|]
  {
    var l := StripLeft(s);
    StripLeftFacts(s);
    StripRightFacts(l);
    var r := StripRight(l);
    var i := |s| - |l|;
    SliceOfSuffix(s, i, |r|);
  }

  /** A prefix of a suffix is a slice. */
  lemma SliceOfSuffix(s: string, i: nat, n: nat)
    requires i + n <= |s|
    ensures s[i..][..n] == s[i..i + n]
  {
  }

  /** Only whitespace lies outside the slice that str.strip() keeps. */
  lemma StripDropsOnlySpace(s: string)
    ensures var i, r := |s| - |StripLeft(s)|, Strip(s);
      && i + |r| <= |s|
      && (forall k :: 0 <= k < i ==> IsSpace(s[k]))
      && (forall k :: i + |r| <= k < |s| ==> IsSpace(s[k]))
  {
    var l := StripLeft(s);
    StripLeftFacts(s);
    StripRightFacts(l);
    var r := StripRight(l);
    var i := |s| - |l|;
    assert forall k :: i + |r| <= k < |s| ==> s[k] == l[k - i];
  }

  /** Stripping a string that is already stripped changes nothing. */
  lemma StripStripped(s: string)
    requires Stripped(s)
    ensures Strip(s) == s
  {
  }

  /** The position of the first occurrence of `pat` in `s`, as str.find reports it. */
  function FindFirst(s: string, pat: string): (r: Option<nat>)
    ensures r.Some? ==> r.value <= |s| && pat <= s[r.value..]
    ensures r.Some? ==> forall j :: 0 <= j < r.value ==> !(pat <= s[j..])
    ensures r.None? ==> forall j :: 0 <= j <= |s| ==> !(pat <= s[j..])
    decreases |s|
  {
    if pat <= s then Some(0)
    else if |s| == 0 then None
    else
      var rest := FindFirst(s[1..], pat);
      assert forall j :: 1 <= j <= |s| ==> s[j..] == s[1..][j - 1..];
      match rest
      case Some(i) => Some(i + 1)
      case None => None
  }

  /** Python's `pat in s`. */
  predicate Contains(s: string, pat: string) {
    FindFirst(s, pat).Some?
  }

  /** An occurrence at `k` with none before it is the first one. */
  lemma FindFirstAt(s: string, pat: string, k: nat)
    requires k <= |s| && pat <= s[k..]
    requires forall j :: 0 <= j < k ==> !(pat <= s[j..])
    ensures FindFirst(s, pat) == Some(k)
  {
  }

  /** A pattern that occurs in the middle of a string, at `k`, is contained in it. */
  lemma ContainsAt(s: string, pat: string, k: nat)
    requires k <= |s| && pat <= s[k..]
    ensures Contains(s, pat)
  {
  }

  /** A non-space character of `s` lies inside what str.strip() keeps. */
  lemma NonSpaceKept(s: string, k: nat)
    requires k < |s| && !IsSpace(s[k])
    ensures var i := |s| - |StripLeft(s)|; i <= k < i + |Strip(s)|
  {
    StripDropsOnlySpace(s);
  }

  /** An occurrence of `pat` lying inside the slice s[i..i + n] is an occurrence in that slice. */
  lemma OccurrenceInSlice(s: string, pat: string, i: nat, n: nat, j: nat)
    requires i <= j && j + |pat| <= i + n <= |s| && pat <= s[j..]
    ensures pat <= s[i..i + n][j - i..]
  {
    assert s[i..i + n][j - i..] == s[j..i + n];
    assert s[j..i + n][..|pat|] == s[j..][..|pat|];
  }

  /** An occurrence whose first and last characters are not spaces lies inside what str.strip() keeps. */
  lemma OccurrenceInsideStrip(s: string, pat: string, j: nat)
    requires |pat| > 0 && !IsSpace(pat[0]) && !IsSpace(pat[|pat| - 1])
    requires j <= |s| && pat <= s[j..]
    ensures var i := |s| - |StripLeft(s)|; i <= j && j + |pat| <= i + |Strip(s)|
  {
    var m := |pat|;
    assert s[j..][..m] == pat;
    assert s[j] == pat[0] && s[j + m - 1] == pat[m - 1];
    NonSpaceKept(s, j);
    NonSpaceKept(s, j + m - 1);
  }

  /** Stripping never removes an occurrence of a pattern that neither starts nor ends with a space. */
  lemma StripKeepsOccurrence(s: string, pat: string)
    requires |pat| > 0 && !IsSpace(pat[0]) && !IsSpace(pat[|pat| - 1])
    requires Contains(s, pat)
    ensures Contains(Strip(s), pat)
  {
    var j := FindFirst(s, pat).value;
    OccurrenceInsideStrip(s, pat, j);
    var r := Strip(s);
    var i := |s| - |StripLeft(s)|;
    StripSlice(s);
    OccurrenceInSlice(s, pat, i, |r|, j);
    ContainsAt(r, pat, j - i);
  }

  /** str.split(sep, 1) as a pair: the text before the first `sep` and the text after it. */
  function Partition(s: string, sep: string): (r: Option<(string, string)>)
    ensures r.Some? <==> Contains(s, sep)
    ensures r.Some? ==> s == r.value.0 + sep + r.value.1
    ensures r.Some? ==> FindFirst(s, sep) == Some(|r.value.0|)
  {
    match FindFirst(s, sep)
    case None => None
    case Some(i) =>
      assert s == s[..i] + sep + s[i + |sep|..] by {
        assert s[i..][..|sep|] == sep;
      }
      Some((s[..i], s[i + |sep|..]))
  }

  /** str.split(sep, 1) splits `a + sep + b` into `a` and `b` when `sep` does not occur earlier. */
  lemma PartitionAt(s: string, sep: string, a: string, b: string)
    requires s == a + sep + b
    requires forall j :: 0 <= j < |a| ==> !(sep <= s[j..])
    ensures Partition(s, sep) == Some((a, b))
  {
    assert s[|a|..] == sep + b;
    FindFirstAt(s, sep, |a|);
    var p := Partition(s, sep).value;
    assert p.0 == s[..|a|] == a;
    assert p.1 == s[|a| + |sep|..] == b;
  }

  /** str.split(sep) for a one-character separator. */
  function Split(s: string, sep: char): (parts: seq<string>)
    ensures |parts| >= 1
    ensures forall p :: p in parts ==> sep !in p
  {
    if s == [] then [""]
    else
      var rest := Split(s[1..], sep);
      if s[0] == sep then [""] + rest
      else [[s[0]] + rest[0]] + rest[1..]
  }

  /** Splitting at a separator splits the result: the pieces of `a`, then those of `b`. */
  lemma {:induction false} SplitAppend(a: string, b: string, sep: char)
    ensures Split(a + [sep] + b, sep) == Split(a, sep) + Split(b, sep)
  {
    if a == [] {
      assert a + [sep] + b == [sep] + b;
      assert ([sep] + b)[1..] == b;
    } else {
      assert (a + [sep] + b)[1..] == a[1..] + [sep] + b;
      SplitAppend(a[1..], b, sep);
    }
  }

  /** A string without the separator splits into itself alone. */
  lemma {:induction false} SplitNoSeparator(s: string, sep: char)
    requires sep !in s
    ensures Split(s, sep) == [s]
  {
    if s != [] {
      assert sep !in s[1..];
      SplitNoSeparator(s[1..], sep);
      assert [s[0]] + s[1..] == s;
    }
  }

  /** sep.join(parts). */
  function Join(parts: seq<string>, sep: string): (r: string)
    ensures |parts| == 0 ==> r == ""
    ensures |parts| == 1 ==> r == parts[0]
  {
    if |parts| == 0 then ""
    else if |parts| == 1 then parts[0]
    else parts[0] + sep + Join(parts[1..], sep)
  }

  /** Joining two non-empty lists of parts: the two joins meet at one more separator. */
  lemma {:induction false} JoinAppend(p: seq<string>, q: seq<string>, sep: string)
    requires |p| > 0 && |q| > 0
    ensures Join(p + q, sep) == Join(p, sep) + sep + Join(q, sep)
  {
    assert (p + q)[1..] == p[1..] + q;
    if |p| > 1 {
      JoinAppend(p[1..], q, sep);
    }
  }

  /** Splitting a join gives the parts back when no part holds the separator. */
  lemma {:induction false} SplitJoin(parts: seq<string>, sep: char)
    requires |parts| >= 1
    requires forall p :: p in parts ==> sep !in p
    ensures Split(Join(parts, [sep]), sep) == parts
  {
    if |parts| == 1 {
      SplitNoSeparator(parts[0], sep);
    } else {
      SplitJoin(parts[1..], sep);
      SplitNoSeparator(parts[0], sep);
      SplitAppend(parts[0], Join(parts[1..], [sep]), sep);
      assert parts == [parts[0]] + parts[1..];
    }
  }

  /** str.endswith(suffix). */
  predicate EndsWith(s: string, suffix: string) {
    |suffix| <= |s| && s[|s| - |suffix|..] == suffix
  }

  function LowerChar(c: char): char {
    if IsUpper(c) then (c as int + 32) as char else c
  }

  /** str.lower() restricted to the characters it can meet here (ASCII case mapping). */
  function Lower(s: string): (r: string)
    ensures |r| == |s|
    ensures forall i :: 0 <= i < |s| ==> r[i] == LowerChar(s[i])
  {
    seq(|s|, i requires 0 <= i < |s| => LowerChar(s[i]))
  }

  /** The index of the last occurrence of `c`, as str.rfind reports it. */
  function LastIndexOf(s: string, c: char): (r: Option<nat>)
    ensures r.Some? ==> r.value < |s| && s[r.value] == c && c !in s[r.value + 1..]
    ensures r.None? ==> c !in s
  {
    if s == [] then None
    else if s[|s| - 1] == c then Some(|s| - 1)
    else
      var r := LastIndexOf(s[..|s| - 1], c);
      assert s == s[..|s| - 1] + [s[|s| - 1]];
      r
  }

  /** A position holding `c` with no `c` after it is the last occurrence. */
  lemma {:induction false} LastIndexOfIs(s: string, c: char, i: nat)
    requires i < |s| && s[i] == c
    requires forall k :: i < k < |s| ==> s[k] != c
    ensures LastIndexOf(s, c) == Some(i)
  {
    if i < |s| - 1 {
      var t := s[..|s| - 1];
      assert forall k :: i < k < |t| ==> t[k] == s[k];
      LastIndexOfIs(t, c, i);
    }
  }

  /** str.replace(target, replacement): every occurrence, scanning left to right without overlap. */
  function Replace(s: string, target: string, replacement: string): string
    requires |target| > 0
    decreases |s|
  {
    if s == [] then []
    else if target <= s then replacement + Replace(s[|target|..], target, replacement)
    else [s[0]] + Replace(s[1..], target, replacement)
  }

  /** os.path.join(folder, name) on POSIX. */
  function PathJoin(folder: string, name: string): string {
    if |name| > 0 && name[0] == '/' then name
    else if folder == [] || folder[|folder| - 1] == '/' then folder + name
    else folder + "/" + name
  }
}
