/**
 * String helpers standing in for the JavaScript string methods the screens
 * call: character classes of the regular expressions, `toUpperCase` and
 * `toLowerCase`, string comparison with `<`, `trim` and `split`.
 */
module Text {

  predicate IsLower(c: char) { 'a' <= c <= 'z' }
  predicate IsUpper(c: char) { 'A' <= c <= 'Z' }
  /** `\d` */
  predicate IsDigit(c: char) { '0' <= c <= '9' }
  predicate IsAlnum(c: char) { IsLower(c) || IsUpper(c) || IsDigit(c) }
  /** `[a-zA-Z0-9_]`, the class `\w` */
  predicate IsWordChar(c: char) { IsAlnum(c) || c == '_' }

  /** `.` in a regular expression without the `s` flag does not match these. */
  predicate IsLineTerminator(c: char)
  {
    c == '\n' || c == '\r' || c == '\U{2028}' || c == '\U{2029}'
  }

  /** `\s`, which is also what `trim` removes: white space and line terminators. */
  predicate IsSpace(c: char)
  {
    || c == ' ' || c == '\t' || c == '\U{000B}' || c == '\U{000C}'
    || c == '\U{00A0}' || c == '\U{FEFF}' || c == '\U{1680}'
    || ('\U{2000}' <= c <= '\U{200A}') || c == '\U{202F}' || c == '\U{205F}' || c == '\U{3000}'
    || IsLineTerminator(c)
  }

  function UpperChar(c: char): (r: char)
    ensures !IsLower(r)
    ensures !IsLower(c) ==> r == c
  {
    if IsLower(c) then c - 'a' + 'A' else c
  }

  function LowerChar(c: char): (r: char)
    ensures !IsUpper(r)
    ensures !IsUpper(c) ==> r == c
  {
    if IsUpper(c) then c - 'A' + 'a' else c
  }

  /** `s.toUpperCase()` on the letters a-z. */
  function ToUpper(s: string): (r: string)
    ensures |r| == |s|
    ensures forall i :: 0 <= i < |r| ==> !IsLower(r[i]) && LowerChar(r[i]) == LowerChar(s[i])
  {
    seq(|s|, i requires 0 <= i < |s| => UpperChar(s[i]))
  }

  /** `s.toLowerCase()` on the letters A-Z. */
  function ToLower(s: string): (r: string)
    ensures |r| == |s|
    ensures forall i :: 0 <= i < |r| ==> !IsUpper(r[i]) && UpperChar(r[i]) == UpperChar(s[i])
  {
    seq(|s|, i requires 0 <= i < |s| => LowerChar(s[i]))
  }

  /** Lower-casing an already lower-cased string changes nothing. */
  lemma ToLowerIdempotent(s: string)
    ensures ToLower(ToLower(s)) == ToLower(s)
  {
    var once := ToLower(s);
    assert forall i :: 0 <= i < |once| ==> LowerChar(once[i]) == once[i];
  }

  /** JavaScript's `a < b` on strings: lexicographic order of the characters. */
  predicate Before(a: string, b: string)
    decreases |a|
  {
    if |b| == 0 then false
    else if |a| == 0 then true
    else if a[0] != b[0] then a[0] < b[0]
    else Before(a[1..], b[1..])
  }

  /** No string is before itself. */
  lemma {:induction false} BeforeIrreflexive(a: string)
    ensures !Before(a, a)
    decreases |a|
  {
    if |a| > 0 {
      BeforeIrreflexive(a[1..]);
    }
  }

  /** Of two different strings exactly one is before the other. */
  lemma {:induction false} BeforeTrichotomy(a: string, b: string)
    ensures a != b ==> (Before(a, b) <==> !Before(b, a))
    ensures a == b ==> !Before(a, b)
    decreases |a|
  {
    if a == b {
      BeforeIrreflexive(a);
    } else if |a| > 0 && |b| > 0 && a[0] == b[0] {
      assert a == [a[0]] + a[1..] && b == [b[0]] + b[1..];
      BeforeTrichotomy(a[1..], b[1..]);
    }
  }

  /** `s.trimStart()` */
  function TrimStart(s: string): (r: string)
    ensures |r| <= |s| && r == s[|s| - |r|..]
    ensures forall i :: 0 <= i < |s| - |r| ==> IsSpace(s[i])
    ensures r == [] || !IsSpace(r[0])
    decreases |s|
  {
    if |s| > 0 && IsSpace(s[0]) then TrimStart(s[1..]) else s
  }

  /** `s.trimEnd()` */
  function TrimEnd(s: string): (r: string)
    ensures |r| <= |s| && r == s[..|r|]
    ensures forall i :: |r| <= i < |s| ==> IsSpace(s[i])
    ensures r == [] || !IsSpace(r[|r| - 1])
    decreases |s|
  {
    if |s| > 0 && IsSpace(s[|s| - 1]) then TrimEnd(s[..|s| - 1]) else s
  }

  /** `s.trim()`: empty exactly when `s` is all white space; otherwise white space at neither end. */
  function Trim(s: string): (r: string)
    ensures r == [] <==> forall i :: 0 <= i < |s| ==> IsSpace(s[i])
    ensures r != [] ==> !IsSpace(r[0]) && !IsSpace(r[|r| - 1])
    ensures |r| <= |s|
  {
    var front := TrimStart(s);
    var r := TrimEnd(front);
    assert front != [] ==> !IsSpace(front[0]) && 0 < |front|;
    assert r != [] ==> !IsSpace(r[0]) by {
      if r != [] {
        assert front != [] && r[0] == front[0];
      }
    }
    r
  }

  /** A text with no white space at either end is its own trim. */
  lemma TrimUntouched(s: string)
    requires s != [] && !IsSpace(s[0]) && !IsSpace(s[|s| - 1])
    ensures Trim(s) == s
  {
    assert TrimStart(s) == s;
    assert TrimEnd(s) == s;
  }

  /** The index of the first `c` in `s`, or `|s|`. */
  function IndexOf(s: string, c: char): (i: nat)
    ensures i <= |s|
    ensures i < |s| ==> s[i] == c
    ensures forall j :: 0 <= j < i ==> s[j] != c
    decreases |s|
  {
    if |s| == 0 then 0 else if s[0] == c then 0 else 1 + IndexOf(s[1..], c)
  }

  /** `s.split(sep)` for a one-character separator. */
  function Split(s: string, sep: char): (r: seq<string>)
    ensures |r| >= 1
    ensures forall k :: 0 <= k < |r| ==> sep !in r[k]
    decreases |s|
  {
    var i := IndexOf(s, sep);
    if i == |s| then [s] else [s[..i]] + Split(s[i + 1..], sep)
  }

  /** `parts.join(sep)` for a one-character separator. */
  function Join(parts: seq<string>, sep: char): string
  {
    if |parts| <= 1 then (if |parts| == 0 then "" else parts[0])
    else parts[0] + [sep] + Join(parts[1..], sep)
  }

  /** Splitting and joining again with the same separator gives back the string. */
  lemma {:induction false} SplitJoin(s: string, sep: char)
    ensures Join(Split(s, sep), sep) == s
    decreases |s|
  {
    var i := IndexOf(s, sep);
    if i < |s| {
      SplitJoin(s[i + 1..], sep);
      assert s == s[..i] + [sep] + s[i + 1..];
    }
  }

  /** The first character of a word as a string (`w.charAt(0)`), empty for an empty word. */
  function Initial(w: string): (r: string)
    ensures |r| <= 1
    ensures |r| == 1 <==> |w| > 0
  {
    if |w| == 0 then "" else [w[0]]
  }

  /**
   * `s.split(' ').slice(0, 2).map(w => w.charAt(0)).join('').toUpperCase()`:
   * at most two characters, none of them a lower-case letter; when `s` does
   * not start with a space the first is `s[0]` upper-cased.
   */
  function FirstLetters(s: string): (r: string)
    ensures |r| <= 2
    ensures forall i :: 0 <= i < |r| ==> !IsLower(r[i])
    ensures |s| > 0 && s[0] != ' ' ==> |r| >= 1 && r[0] == UpperChar(s[0])
  {
    var words := Split(s, ' ');
    var letters := Initial(words[0]) + (if |words| > 1 then Initial(words[1]) else "");
    assert |s| > 0 && s[0] != ' ' ==> IndexOf(s, ' ') > 0 && words[0] == s[..IndexOf(s, ' ')];
    ToUpper(letters)
  }

  /** The first `c` of `x + [c] + y` sits right after `x` when `x` has none. */
  lemma IndexOfAfter(x: string, c: char, y: string)
    requires c !in x
    ensures IndexOf(x + [c] + y, c) == |x|
  {
    var s := x + [c] + y;
    assert s[|x|] == c;
    assert forall j :: 0 <= j < |x| ==> s[j] == x[j];
  }

  /** `IndexOf` finds nothing in a text without `c`. */
  lemma IndexOfAbsent(x: string, c: char)
    requires c !in x
    ensures IndexOf(x, c) == |x|
  {
  }

  /** Splitting a word free of `sep`, followed by nothing or by `sep`, gives that word first. */
  lemma SplitFirstWord(w: string, sep: char, rest: string)
    requires sep !in w && (rest == [] || rest[0] == sep)
    ensures Split(w + rest, sep)[0] == w
    ensures rest != [] ==> |Split(w + rest, sep)| >= 2 && Split(w + rest, sep)[1..] == Split(rest[1..], sep)
  {
    var s := w + rest;
    if rest == [] {
      assert s == w;
      IndexOfAbsent(w, sep);
    } else {
      assert s == w + [sep] + rest[1..];
      IndexOfAfter(w, sep, rest[1..]);
      assert s[..|w|] == w && s[|w| + 1..] == rest[1..];
    }
  }

  /** A single word (no space) gives its first letter, upper-cased. */
  lemma FirstLettersOneWord(a: string)
    requires a != [] && ' ' !in a
    ensures FirstLetters(a) == [UpperChar(a[0])]
  {
    IndexOfAbsent(a, ' ');
    assert Split(a, ' ') == [a];
  }

  /** The initials are the first letters of the first two parts of the split, upper-cased. */
  lemma FirstLettersOfWords(s: string, a: string, b: string)
    requires |Split(s, ' ')| >= 2 && Split(s, ' ')[0] == a && Split(s, ' ')[1] == b
    ensures a != [] && b != [] ==> FirstLetters(s) == [UpperChar(a[0]), UpperChar(b[0])]
    ensures a == [] && b != [] ==> FirstLetters(s) == [UpperChar(b[0])]
  {
    if a != [] && b != [] {
      assert Initial(a) + Initial(b) == [a[0], b[0]];
    } else if a == [] && b != [] {
      assert Initial(a) + Initial(b) == [b[0]];
    }
  }

  /** The split of two space-free words joined by a space and followed by nothing or by a space starts with the two words. */
  lemma SplitTwoWords(a: string, b: string, rest: string)
    requires ' ' !in a && ' ' !in b
    requires rest == [] || rest[0] == ' '
    ensures |Split(a + " " + b + rest, ' ')| >= 2
    ensures Split(a + " " + b + rest, ' ')[0] == a && Split(a + " " + b + rest, ' ')[1] == b
  {
    var tail := [' '] + (b + rest);
    var s := a + " " + b + rest;
    assert s == a + tail;
    SplitFirstWord(a, ' ', tail);
    var second := Split(b + rest, ' ');
    SplitFirstWord(b, ' ', rest);
    assert tail[1..] == b + rest;
    assert Split(s, ' ')[1..] == second;
  }

  /**
   * Two words separated by one space, followed by nothing or by more
   * space-separated text, give the first letters of the two words,
   * upper-cased; the rest is ignored.
   */
  lemma FirstLettersTwoWords(a: string, b: string, rest: string)
    requires a != [] && b != [] && ' ' !in a && ' ' !in b
    requires rest == [] || rest[0] == ' '
    ensures FirstLetters(a + " " + b + rest) == [UpperChar(a[0]), UpperChar(b[0])]
  {
    SplitTwoWords(a, b, rest);
    FirstLettersOfWords(a + " " + b + rest, a, b);
  }
}
