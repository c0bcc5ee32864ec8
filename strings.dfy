/**
 * The Python `str` operations the modelled code relies on, on `seq<char>`.
 * Case mapping and whitespace are the ASCII ones.
 */
module Strings {
  import opened Wrappers

  /** Python truthiness of a value that is None or a string. */
  predicate Truthy(o: Option<string>) {
    o.Some? && o.value != ""
  }

  /** `sub` occurs in `s` starting at index `j`. */
  predicate OccursAt(s: string, sub: string, j: nat) {
    j + |sub| <= |s| && s[j..j + |sub|] == sub
  }

  /** str.find: the first index at which `sub` occurs. */
  function IndexOf(s: string, sub: string): (r: Option<nat>)
    ensures r.Some? ==> OccursAt(s, sub, r.value)
    ensures r.Some? ==> forall j: nat :: j < r.value ==> !OccursAt(s, sub, j)
    ensures r.None? ==> forall j: nat :: !OccursAt(s, sub, j)
    decreases |s|
  {
    if sub <= s then Some(0)
    else if |s| == 0 then None
    else
      OccursShift(s, sub);
      match IndexOf(s[1..], sub)
      case None => None
      case Some(i) => Some(i + 1)
  }

  /** Past the first character, `sub` occurs in `s` where it occurs in the rest, one place on. */
  lemma OccursShift(s: string, sub: string)
    requires |s| > 0
    ensures !(sub <= s) ==> !OccursAt(s, sub, 0)
    ensures forall j: nat :: 0 < j ==> (OccursAt(s, sub, j) <==> OccursAt(s[1..], sub, j - 1))
  {
    forall j: nat | 0 < j ensures OccursAt(s, sub, j) <==> OccursAt(s[1..], sub, j - 1) {
      if j + |sub| <= |s| {
        assert s[1..][j - 1..j - 1 + |sub|] == s[j..j + |sub|];
      }
    }
  }

  /** `sub in s` */
  predicate Contains(s: string, sub: string) {
    IndexOf(s, sub).Some?
  }

  lemma ContainsAt(s: string, sub: string, j: nat)
    requires OccursAt(s, sub, j)
    ensures Contains(s, sub)
  {
  }

  /** str.startswith */
  predicate StartsWith(s: string, p: string) {
    p <= s
  }

  /** str.endswith */
  predicate EndsWith(s: string, p: string) {
    |p| <= |s| && s[|s| - |p|..] == p
  }

  /** str.split(sep, 1), returning both halves when `sep` occurs. */
  function SplitOnce(s: string, sep: string): (r: Option<(string, string)>)
    requires sep != []
    ensures r.None? <==> !Contains(s, sep)
    ensures r.Some? ==> s == r.value.0 + sep + r.value.1 && !Contains(r.value.0, sep)
  {
    match IndexOf(s, sep)
    case None => None
    case Some(i) =>
      assert s == s[..i] + sep + s[i + |sep|..] by {
        assert s[i..i + |sep|] == sep;
      }
      assert forall j: nat :: OccursAt(s[..i], sep, j) ==> OccursAt(s, sep, j) by {
        forall j: nat | OccursAt(s[..i], sep, j) ensures OccursAt(s, sep, j) {
          assert s[..i][j..j + |sep|] == s[j..j + |sep|];
        }
      }
      Some((s[..i], s[i + |sep|..]))
  }

  /** The part before the first `sep`, or all of `s` (str.split(sep)[0]). */
  function Before(s: string, sep: string): string
    requires sep != []
  {
    match SplitOnce(s, sep)
    case None => s
    case Some((a, _)) => a
  }

  /** str.split(sep) for a non-empty separator. */
  function Split(s: string, sep: string): (r: seq<string>)
    requires sep != []
    ensures |r| >= 1
    decreases |s|
  {
    match SplitOnce(s, sep)
    case None => [s]
    case Some((a, b)) => [a] + Split(b, sep)
  }

  /** Splitting on a character gives one more part than it has occurrences. */
  lemma {:induction false} SplitCount(s: string, c: char)
    ensures |Split(s, [c])| == Count(s, c) + 1
    decreases |s|
  {
    match SplitOnce(s, [c])
    case None =>
      CharContains(s, c);
      CountAbsent(s, c);
    case Some((a, b)) =>
      SplitCount(b, c);
      CharContains(a, c);
      CountAbsent(a, c);
      CountConcat(a, [c] + b, c);
      CountConcat([c], b, c);
      assert a + [c] + b == a + ([c] + b);
  }

  /** Every part of a split is made of characters of the split string. */
  lemma {:induction false} SplitPartsChars(s: string, sep: string, d: char)
    requires sep != [] && d !in s
    ensures forall k :: 0 <= k < |Split(s, sep)| ==> d !in Split(s, sep)[k]
    decreases |s|
  {
    match SplitOnce(s, sep)
    case None =>
    case Some((a, b)) =>
      assert s == a + sep + b;
      assert d !in b && d !in a;
      SplitPartsChars(b, sep, d);
      assert Split(s, sep) == [a] + Split(b, sep);
  }

  /** Text before the first occurrence of a character and text after it are determined by the string. */
  lemma SplitAtFirst(a1: string, b1: string, a2: string, b2: string, c: char)
    requires c !in a1 && c !in a2 && a1 + [c] + b1 == a2 + [c] + b2
    ensures a1 == a2 && b1 == b2
  {
    SplitCons(a1, b1, c);
    SplitCons(a2, b2, c);
    assert Split(a1 + [c] + b1, [c])[0] == a1;
    var s := a1 + [c] + b1;
    assert b1 == s[|a1| + 1..];
    assert b2 == s[|a2| + 1..];
  }

  /** No part of a split on a character holds that character. */
  lemma {:induction false} SplitPartsFree(s: string, c: char)
    ensures forall k :: 0 <= k < |Split(s, [c])| ==> c !in Split(s, [c])[k]
    decreases |s|
  {
    match SplitOnce(s, [c])
    case None =>
      CharContains(s, c);
    case Some((a, b)) =>
      CharContains(a, c);
      SplitPartsFree(b, c);
      assert Split(s, [c]) == [a] + Split(b, [c]);
  }

  lemma SplitNone(a: string, c: char)
    requires c !in a
    ensures Split(a, [c]) == [a]
  {
    CharContains(a, c);
  }

  /** Splitting at a first occurrence of `c` peels off the part before it. */
  lemma SplitCons(a: string, b: string, c: char)
    requires c !in a
    ensures Split(a + [c] + b, [c]) == [a] + Split(b, [c])
  {
    var s := a + [c] + b;
    assert OccursAt(s, [c], |a|) by { assert s[|a|..|a| + 1] == [c]; }
    var i := IndexOf(s, [c]).value;
    assert i <= |a|;
    assert s[i..i + 1] == [c];
    assert s[i] == c;
    assert forall k :: 0 <= k < |a| ==> s[k] == a[k];
    assert i == |a|;
    assert s[..i] == a;
    assert s[i + 1..] == b;
  }

  /** Lines each ended by a newline, as a `+= line + "\n"` loop writes them. */
  function Terminated(lines: seq<string>): string {
    if |lines| == 0 then "" else lines[0] + "\n" + Terminated(lines[1..])
  }

  lemma {:induction false} TerminatedAppend(lines: seq<string>, x: string)
    ensures Terminated(lines + [x]) == Terminated(lines) + x + "\n"
  {
    if |lines| > 0 {
      assert (lines + [x])[1..] == lines[1..] + [x];
      TerminatedAppend(lines[1..], x);
    } else {
      assert lines + [x] == [x];
    }
  }

  /** Splitting newline-terminated lines on newlines gives the lines back, then an empty tail. */
  lemma {:induction false} SplitTerminated(lines: seq<string>)
    requires forall k :: 0 <= k < |lines| ==> '\n' !in lines[k]
    ensures Split(Terminated(lines), "\n") == lines + [""]
  {
    if |lines| == 0 {
      SplitNone("", '\n');
    } else {
      var rest := Terminated(lines[1..]);
      assert Terminated(lines) == lines[0] + ['\n'] + rest;
      SplitTerminated(lines[1..]);
      SplitCons(lines[0], rest, '\n');
      assert lines + [""] == [lines[0]] + (lines[1..] + [""]);
    }
  }

  lemma {:induction false} TerminatedConcat(a: seq<string>, b: seq<string>)
    ensures Terminated(a + b) == Terminated(a) + Terminated(b)
  {
    if |a| > 0 {
      assert (a + b)[1..] == a[1..] + b;
      TerminatedConcat(a[1..], b);
    } else {
      assert a + b == b;
    }
  }

  lemma TerminatedEmpty(lines: seq<string>)
    ensures Terminated(lines) == "" <==> lines == []
  {
  }

  /**
   * Replacing a marker that starts with a character found in neither
   * surrounding text puts the replacement in its one place.
   */
  lemma ReplaceOnce(x: string, marker: string, y: string, rep: string)
    requires |marker| > 0 && marker[0] !in x && marker[0] !in y
    ensures Replace(x + marker + y, marker, rep) == x + rep + y
  {
    var s := x + marker + y;
    assert OccursAt(s, marker, |x|) by { assert s[|x|..|x| + |marker|] == marker; }
    var i := IndexOf(s, marker).value;
    assert s[i..i + |marker|] == marker;
    assert s[i] == marker[0];
    assert forall k :: 0 <= k < |x| ==> s[k] == x[k];
    assert i == |x|;
    assert s[..i] == x;
    assert s[i + |marker|..] == y;
  }

  /** sep.join(parts) */
  function Join(parts: seq<string>, sep: string): string {
    if |parts| == 0 then ""
    else if |parts| == 1 then parts[0]
    else parts[0] + sep + Join(parts[1..], sep)
  }

  /** Splitting a join of parts free of the separator character gives the parts back. */
  lemma {:induction false} SplitJoin(parts: seq<string>, c: char)
    requires |parts| >= 1 && forall k :: 0 <= k < |parts| ==> c !in parts[k]
    ensures Split(Join(parts, [c]), [c]) == parts
  {
    if |parts| == 1 {
      SplitNone(parts[0], c);
    } else {
      SplitJoin(parts[1..], c);
      SplitCons(parts[0], Join(parts[1..], [c]), c);
    }
  }

  lemma {:induction false} JoinSplit(s: string, sep: string)
    requires sep != []
    ensures Join(Split(s, sep), sep) == s
    decreases |s|
  {
    match SplitOnce(s, sep)
    case None =>
    case Some((a, b)) =>
      JoinSplit(b, sep);
      assert Split(s, sep) == [a] + Split(b, sep);
      assert Split(s, sep)[1..] == Split(b, sep);
  }

  /** str.replace(pat, rep) for a non-empty `pat`: every occurrence, left to right. */
  function Replace(s: string, pat: string, rep: string): (r: string)
    requires pat != []
    decreases |s|
  {
    match SplitOnce(s, pat)
    case None => s
    case Some((a, b)) => a + rep + Replace(b, pat, rep)
  }

  lemma {:induction false} ReplaceIsJoinSplit(s: string, pat: string, rep: string)
    requires pat != []
    ensures Replace(s, pat, rep) == Join(Split(s, pat), rep)
    decreases |s|
  {
    match SplitOnce(s, pat)
    case None =>
    case Some((a, b)) =>
      ReplaceIsJoinSplit(b, pat, rep);
      assert Split(s, pat)[1..] == Split(b, pat);
  }

  lemma {:induction false} ReplaceAbsent(s: string, pat: string, rep: string)
    requires pat != [] && !Contains(s, pat)
    ensures Replace(s, pat, rep) == s
  {
  }

  /** Replacing a character by a text without it leaves none of it behind. */
  lemma {:induction false} ReplaceRemovesChar(s: string, c: char, rep: string)
    requires c !in rep
    ensures c !in Replace(s, [c], rep)
    decreases |s|
  {
    match SplitOnce(s, [c])
    case None =>
      CharContains(s, c);
    case Some((a, b)) =>
      ReplaceRemovesChar(b, c, rep);
      CharContains(a, c);
      assert Replace(s, [c], rep) == a + rep + Replace(b, [c], rep);
  }

  lemma CharContains(s: string, c: char)
    ensures Contains(s, [c]) <==> c in s
  {
    if c in s {
      var j :| 0 <= j < |s| && s[j] == c;
      assert OccursAt(s, [c], j) by { assert s[j..j + 1] == [c]; }
    }
    if Contains(s, [c]) {
      var j := IndexOf(s, [c]).value;
      assert s[j..j + 1] == [c];
      assert s[j] == c;
    }
  }

  /** A string lacking the first character of `sub` does not contain `sub`. */
  lemma MissingHead(s: string, sub: string)
    ensures |sub| > 0 && sub[0] !in s ==> !Contains(s, sub)
  {
    if |sub| > 0 && Contains(s, sub) {
      var j := IndexOf(s, sub).value;
      assert s[j..j + |sub|] == sub;
      assert s[j] == sub[0];
    }
  }

  /** Number of occurrences of a character. */
  function Count(s: string, c: char): nat {
    if |s| == 0 then 0 else (if s[0] == c then 1 else 0) + Count(s[1..], c)
  }

  lemma {:induction false} CountConcat(a: string, b: string, c: char)
    ensures Count(a + b, c) == Count(a, c) + Count(b, c)
  {
    if |a| == 0 {
      assert a + b == b;
    } else {
      CountConcat(a[1..], b, c);
      assert (a + b)[1..] == a[1..] + b;
    }
  }

  lemma CountAbsent(s: string, c: char)
    requires c !in s
    ensures Count(s, c) == 0
  {
  }

  lemma {:induction false} CountPresent(s: string, c: char)
    ensures Count(s, c) > 0 <==> c in s
  {
    if |s| > 0 {
      CountPresent(s[1..], c);
      assert s == [s[0]] + s[1..];
    }
  }

  // ASCII case mapping and whitespace

  predicate IsUpper(c: char) { 'A' <= c <= 'Z' }
  predicate IsLowerCh(c: char) { 'a' <= c <= 'z' }
  predicate IsLetter(c: char) { IsUpper(c) || IsLowerCh(c) }

  function ToUpper(c: char): char {
    if IsLowerCh(c) then (c as int - 32) as char else c
  }

  function ToLower(c: char): char {
    if IsUpper(c) then (c as int + 32) as char else c
  }

  /** str.lower */
  function Lower(s: string): (r: string)
    ensures |r| == |s| && forall i :: 0 <= i < |s| ==> r[i] == ToLower(s[i])
  {
    seq(|s|, i requires 0 <= i < |s| => ToLower(s[i]))
  }

  /** str.upper */
  function Upper(s: string): (r: string)
    ensures |r| == |s| && forall i :: 0 <= i < |s| ==> r[i] == ToUpper(s[i])
  {
    seq(|s|, i requires 0 <= i < |s| => ToUpper(s[i]))
  }

  /** str.isspace for one character (the ASCII members of Python's set). */
  predicate IsSpace(c: char) {
    c == ' ' || ('\t' <= c <= '\r') || ('\U{1c}' <= c <= '\U{1f}')
  }

  function TrimLeft(s: string): (r: string)
    ensures |r| > 0 ==> !IsSpace(r[0])
    ensures forall i :: 0 <= i < |s| - |r| ==> IsSpace(s[i])
    ensures |r| <= |s| && r == s[|s| - |r|..]
    decreases |s|
  {
    if |s| > 0 && IsSpace(s[0]) then TrimLeft(s[1..]) else s
  }

  function TrimRight(s: string): (r: string)
    ensures |r| <= |s| && r == s[..|r|]
    ensures |r| > 0 ==> !IsSpace(r[|r| - 1])
    ensures forall i :: |r| <= i < |s| ==> IsSpace(s[i])
    decreases |s|
  {
    if |s| > 0 && IsSpace(s[|s| - 1]) then TrimRight(s[..|s| - 1]) else s
  }

  lemma SliceChars(s: string, i: nat, j: nat)
    requires i <= j <= |s|
    ensures forall c :: c in s[i..j] ==> c in s
  {
    forall c | c in s[i..j] ensures c in s {
      var k :| i <= k < j && s[k] == c;
    }
  }

  /** str.strip() */
  function Strip(s: string): (r: string)
    ensures |r| > 0 ==> !IsSpace(r[0]) && !IsSpace(r[|r| - 1])
    ensures |r| <= |s|
    ensures forall c :: c in r ==> c in s
  {
    var l := TrimLeft(s);
    SliceChars(s, |s| - |l|, |s|);
    assert s[|s| - |l|..|s|] == l;
    var r := TrimRight(l);
    SliceChars(l, 0, |r|);
    assert l[0..|r|] == r;
    r
  }

  /** Stripping a string that has no surrounding whitespace changes nothing. */
  lemma StripIdempotent(x: string)
    ensures Strip(Strip(x)) == Strip(x)
  {
    var t := Strip(x);
    assert TrimLeft(t) == t;
    assert TrimRight(t) == t;
  }

  lemma LowerUpper(s: string)
    ensures Lower(Upper(s)) == Lower(s)
  {
  }

  /** The last whitespace-separated word of a string: str.split()[-1] for a stripped, non-empty string. */
  function LastWord(s: string): (r: string)
    ensures |r| <= |s| && r == s[|s| - |r|..]
    ensures forall i :: 0 <= i < |r| ==> !IsSpace(r[i])
    decreases |s|
  {
    if |s| == 0 || IsSpace(s[|s| - 1]) then ""
    else LastWord(s[..|s| - 1]) + [s[|s| - 1]]
  }

  /** The last word reaches back over every trailing non-space character. */
  lemma {:induction false} LastWordCovers(s: string, n: nat)
    requires n <= |s| && forall i :: |s| - n <= i < |s| ==> !IsSpace(s[i])
    ensures |LastWord(s)| >= n
    decreases |s|
  {
    if n > 0 {
      LastWordCovers(s[..|s| - 1], n - 1);
    }
  }

  /** os.path.basename: the part after the last '/'. */
  function Basename(s: string): (r: string)
    ensures '/' !in r
    ensures |r| <= |s| && r == s[|s| - |r|..]
    ensures |r| < |s| ==> s[|s| - |r| - 1] == '/'
    decreases |s|
  {
    if |s| == 0 || s[|s| - 1] == '/' then ""
    else Basename(s[..|s| - 1]) + [s[|s| - 1]]
  }

  /** The basename is what follows the last slash. */
  lemma {:induction false} BasenameAfterSlash(a: string, b: string)
    requires '/' !in b
    ensures Basename(a + "/" + b) == b
    decreases |b|
  {
    var s := a + "/" + b;
    if |b| == 0 {
      assert s[|s| - 1] == '/';
    } else {
      var b' := b[..|b| - 1];
      var last := b[|b| - 1];
      assert s == (a + "/" + b') + [last];
      assert last != '/' by { assert last in b; }
      assert s[..|s| - 1] == a + "/" + b';
      assert Basename(s) == Basename(a + "/" + b') + [last];
      BasenameAfterSlash(a, b');
      assert b == b' + [last];
    }
  }

  // Decimal integers: str(int) and int(str)

  predicate IsDigit(c: char) { '0' <= c <= '9' }

  function DigitChar(d: nat): char
    requires d < 10
  {
    ('0' as int + d) as char
  }

  function NatToString(n: nat): (r: string)
    ensures |r| >= 1 && forall i :: 0 <= i < |r| ==> IsDigit(r[i])
  {
    if n < 10 then [DigitChar(n)] else NatToString(n / 10) + [DigitChar(n % 10)]
  }

  /** str(n) */
  function IntToString(n: int): (r: string)
    ensures 'x' !in r && ';' !in r && ',' !in r
  {
    var r := if n < 0 then "-" + NatToString(-n) else NatToString(n);
    assert forall i :: 0 <= i < |r| ==> IsDigit(r[i]) || r[i] == '-';
    r
  }

  predicate AllDigits(s: string) {
    forall i :: 0 <= i < |s| ==> IsDigit(s[i])
  }

  function DigitsValue(s: string): nat
    requires AllDigits(s)
  {
    if |s| == 0 then 0 else 10 * DigitsValue(s[..|s| - 1]) + (s[|s| - 1] as int - '0' as int)
  }

  /** int(s) on an optionally signed run of ASCII digits; None where Python raises ValueError. */
  function ParseInt(s: string): Option<int> {
    if |s| > 0 && (s[0] == '-' || s[0] == '+') then
      if |s| > 1 && AllDigits(s[1..]) then
        var v: int := DigitsValue(s[1..]);
        Some(if s[0] == '-' then -v else v)
      else None
    else if |s| > 0 && AllDigits(s) then Some(DigitsValue(s))
    else None
  }

  lemma {:induction false} DigitsOfNat(n: nat)
    ensures AllDigits(NatToString(n)) && DigitsValue(NatToString(n)) == n
  {
    if n >= 10 {
      DigitsOfNat(n / 10);
      var s := NatToString(n);
      assert s[..|s| - 1] == NatToString(n / 10);
    }
  }

  /** int(str(n)) == n */
  lemma ParseIntToString(n: int)
    ensures ParseInt(IntToString(n)) == Some(n)
  {
    if n < 0 {
      DigitsOfNat(-n);
      assert ("-" + NatToString(-n))[1..] == NatToString(-n);
    } else {
      DigitsOfNat(n);
    }
  }

  lemma IntToStringInjective(a: int, b: int)
    requires IntToString(a) == IntToString(b)
    ensures a == b
  {
    ParseIntToString(a);
    ParseIntToString(b);
  }
}
