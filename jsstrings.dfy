/** The few JavaScript string built-ins the core relies on, written out:
    `trim`, `split` on one separator character, `toLowerCase` and `includes`. */
module JsStrings {

  /** The code points `String.prototype.trim` strips: the WhiteSpace and
      LineTerminator productions of ECMAScript. */
  predicate IsJsWhitespace(c: char) {
    || c == ' ' || c == '\t' || c == '\n' || c == '\r'
    || c == '\U{000B}' || c == '\U{000C}' || c == '\U{00A0}' || c == '\U{1680}'
    || ('\U{2000}' <= c <= '\U{200A}')
    || c == '\U{2028}' || c == '\U{2029}' || c == '\U{202F}' || c == '\U{205F}'
    || c == '\U{3000}' || c == '\U{FEFF}'
  }

  /** Neither end of `s` is whitespace. */
  predicate IsTrimmed(s: string) {
    s == [] || (!IsJsWhitespace(s[0]) && !IsJsWhitespace(s[|s| - 1]))
  }

  /** `trimStart`: drops the leading whitespace, keeps the rest as it is. */
  function TrimStart(s: string): (r: string)
    ensures |r| <= |s| && r == s[|s| - |r|..]
    ensures forall k :: 0 <= k < |s| - |r| ==> IsJsWhitespace(s[k])
    ensures r == [] || !IsJsWhitespace(r[0])
  {
    if s != [] && IsJsWhitespace(s[0]) then TrimStart(s[1..]) else s
  }

  /** `trimEnd`: drops the trailing whitespace, keeps the rest as it is. */
  function TrimEnd(s: string): (r: string)
    ensures |r| <= |s| && r == s[..|r|]
    ensures forall k :: |r| <= k < |s| ==> IsJsWhitespace(s[k])
    ensures r == [] || !IsJsWhitespace(r[|r| - 1])
  {
    if s != [] && IsJsWhitespace(s[|s| - 1]) then TrimEnd(s[..|s| - 1]) else s
  }

  /** `trim`: the longest infix of `s` with no whitespace at either end. */
  function Trim(s: string): (r: string)
    ensures IsTrimmed(r)
    ensures |r| <= |s|
  {
    TrimEnd(TrimStart(s))
  }

  /** A string that starts with a non-whitespace character is its own `trimStart`. */
  lemma TrimStartKeeps(s: string)
    requires s != [] && !IsJsWhitespace(s[0])
    ensures TrimStart(s) == s
  {
  }

  /** A string that is already trimmed is its own trim. */
  lemma {:induction false} TrimOfTrimmed(s: string)
    requires IsTrimmed(s)
    ensures Trim(s) == s
  {
    if s != [] {
      assert TrimStart(s) == s;
      assert TrimEnd(s) == s;
    }
  }

  /** `trim` yields the empty string exactly when `s` is all whitespace. */
  lemma {:induction false} TrimEmptyIff(s: string)
    ensures Trim(s) == [] <==> forall k :: 0 <= k < |s| ==> IsJsWhitespace(s[k])
  {
    var t := TrimStart(s);
    if t != [] {
      assert !IsJsWhitespace(t[0]) && t[0] == s[|s| - |t|];
    }
  }

  lemma {:induction false} TrimStartAppend(s: string, c: char)
    requires IsJsWhitespace(c)
    ensures TrimStart(s + [c]) == if TrimStart(s) == [] then [] else TrimStart(s) + [c]
    decreases |s|
  {
    if s == [] {
      assert TrimStart([c]) == TrimStart([]);
    } else if IsJsWhitespace(s[0]) {
      assert (s + [c])[1..] == s[1..] + [c];
      TrimStartAppend(s[1..], c);
    }
  }

  /** Whitespace appended to a string does not change its trim. */
  lemma {:induction false} TrimAppendWhitespace(s: string, c: char)
    requires IsJsWhitespace(c)
    ensures Trim(s + [c]) == Trim(s)
  {
    TrimStartAppend(s, c);
    var t := TrimStart(s);
    if t != [] {
      assert (t + [c])[..|t|] == t;
      assert TrimEnd(t + [c]) == TrimEnd(t);
    }
  }

  /** Whitespace prepended to a string does not change its trim. */
  lemma {:induction false} TrimPrependWhitespace(c: char, s: string)
    requires IsJsWhitespace(c)
    ensures Trim([c] + s) == Trim(s)
  {
    TrimStartPrepend(c, s);
  }

  lemma TrimStartPrepend(c: char, s: string)
    requires IsJsWhitespace(c)
    ensures TrimStart([c] + s) == TrimStart(s)
  {
    var t := [c] + s;
    assert t != [] && t[0] == c && t[1..] == s;
  }

  /** The position of the first `c` in `s`. */
  function IndexOf(s: string, c: char): (i: nat)
    requires c in s
    ensures i < |s| && s[i] == c && c !in s[..i]
  {
    if s[0] == c then 0 else assert s == [s[0]] + s[1..]; 1 + IndexOf(s[1..], c)
  }

  lemma {:induction false} IndexOfPrefix(a: string, t: string, c: char)
    requires c in a
    ensures c in a + t && IndexOf(a + t, c) == IndexOf(a, c)
  {
    if a[0] != c {
      assert (a + t)[1..] == a[1..] + t;
      assert c in a[1..] by { assert a == [a[0]] + a[1..]; }
      IndexOfPrefix(a[1..], t, c);
    }
  }

  /** The first `c` is at `n` when `s[n]` is `c` and no earlier character is. */
  lemma IndexOfAt(s: string, c: char, n: nat)
    requires n < |s| && s[n] == c && c !in s[..n]
    ensures IndexOf(s, c) == n
  {
  }

  /** `s.split(sep)` for a one-character separator: the maximal runs between
      separators, in order, empty runs included; `"".split(sep)` is `[""]`. */
  function Split(s: string, sep: char): (parts: seq<string>)
    ensures |parts| >= 1
    ensures forall k :: 0 <= k < |parts| ==> sep !in parts[k]
    ensures Join(parts, sep) == s
    decreases |s|
  {
    if sep !in s then [s]
    else
      var i := IndexOf(s, sep);
      var rest := Split(s[i + 1..], sep);
      assert s == s[..i] + [sep] + s[i + 1..];
      [s[..i]] + rest
  }

  /** `parts.join(sep)`. */
  function Join(parts: seq<string>, sep: char): string
    requires |parts| >= 1
  {
    if |parts| == 1 then parts[0] else parts[0] + [sep] + Join(parts[1..], sep)
  }

  /** Splitting at the first separator, at `i`, gives the run before it and
      the split of the rest. */
  lemma SplitAt(s: string, sep: char, i: nat)
    requires i < |s| && s[i] == sep && sep !in s[..i]
    ensures Split(s, sep) == [s[..i]] + Split(s[i + 1..], sep)
  {
    assert sep in s;
    IndexOfAt(s, sep, i);
  }

  /** With no separator in `a`, the first separator is the one between the sides. */
  lemma SplitConcatBase(a: string, b: string, sep: char)
    requires sep !in a
    ensures Split(a + [sep] + b, sep) == Split(a, sep) + Split(b, sep)
  {
    var s := a + [sep] + b;
    assert s[..|a|] == a;
    assert s[|a| + 1..] == b;
    SplitAt(s, sep, |a|);
  }

  /** With a separator in `a`, both splits start with the run before it. */
  lemma SplitConcatStep(a: string, b: string, sep: char, i: nat)
    requires i < |a| && a[i] == sep && sep !in a[..i]
    ensures Split(a + [sep] + b, sep) == [a[..i]] + Split(a[i + 1..] + [sep] + b, sep)
    ensures Split(a, sep) == [a[..i]] + Split(a[i + 1..], sep)
  {
    var s := a + [sep] + b;
    assert s[..i] == a[..i];
    assert s[i + 1..] == a[i + 1..] + [sep] + b;
    SplitAt(s, sep, i);
    SplitAt(a, sep, i);
  }

  lemma PartsAssociate(whole: seq<string>, left: seq<string>, first: string,
                       rest: seq<string>, middle: seq<string>, right: seq<string>)
    requires whole == [first] + rest && rest == middle + right && left == [first] + middle
    ensures whole == left + right
  {
  }

  /** Splitting at a separator that is present splits the two sides apart. */
  lemma {:induction false} SplitConcat(a: string, b: string, sep: char)
    ensures Split(a + [sep] + b, sep) == Split(a, sep) + Split(b, sep)
    decreases |a|
  {
    if sep !in a {
      SplitConcatBase(a, b, sep);
    } else {
      var i := IndexOf(a, sep);
      SplitConcatStep(a, b, sep, i);
      SplitConcat(a[i + 1..], b, sep);
      PartsAssociate(Split(a + [sep] + b, sep), Split(a, sep), a[..i],
                     Split(a[i + 1..] + [sep] + b, sep), Split(a[i + 1..], sep), Split(b, sep));
    }
  }

  /** `toLowerCase` on Basic Latin and Latin-1 letters. */
  function LowerChar(c: char): char {
    if 'A' <= c <= 'Z' || ('\U{00C0}' <= c <= '\U{00DE}' && c != '\U{00D7}') then
      (c as int + 32) as char
    else c
  }

  function ToLower(s: string): (r: string)
    ensures |r| == |s|
    ensures forall k :: 0 <= k < |s| ==> r[k] == LowerChar(s[k])
  {
    seq(|s|, k requires 0 <= k < |s| => LowerChar(s[k]))
  }
}
