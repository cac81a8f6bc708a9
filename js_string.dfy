/**
 * The JavaScript string operations the core relies on: `trim`, `toLowerCase`,
 * `split(' ')` / `join(' ')` and the UTF-16 `length`.
 * Dafny characters are Unicode scalar values, so a Dafny string is a
 * well-formed JavaScript string (no lone surrogates).
 */
module JsString {

  /** WhiteSpace and LineTerminator code points of ECMA-262 (section 12.2 and 12.3), which `trim` removes. */
  predicate IsWhiteSpace(c: char) {
    || ('\U{9}' <= c <= '\U{D}')          // tab, line feed, vertical tab, form feed, carriage return
    || c == ' ' || c == '\U{A0}' || c == '\U{1680}'
    || ('\U{2000}' <= c <= '\U{200A}')
    || c == '\U{2028}' || c == '\U{2029}' || c == '\U{202F}' || c == '\U{205F}'
    || c == '\U{3000}' || c == '\U{FEFF}'
  }

  /** No white space at either end. */
  predicate IsTrimmed(s: string) {
    s == [] || (!IsWhiteSpace(s[0]) && !IsWhiteSpace(s[|s| - 1]))
  }

  function TrimStart(s: string): (r: string)
    ensures r == [] || !IsWhiteSpace(r[0])
    ensures |r| <= |s| && r == s[|s| - |r|..]
    ensures forall i :: 0 <= i < |s| - |r| ==> IsWhiteSpace(s[i])
  {
    if s != [] && IsWhiteSpace(s[0]) then TrimStart(s[1..]) else s
  }

  function TrimEnd(s: string): (r: string)
    ensures r == [] || !IsWhiteSpace(r[|r| - 1])
    ensures |r| <= |s| && r == s[..|r|]
    ensures forall i :: |r| <= i < |s| ==> IsWhiteSpace(s[i])
  {
    if s != [] && IsWhiteSpace(s[|s| - 1]) then TrimEnd(s[..|s| - 1]) else s
  }

  /** `String.prototype.trim`: the longest infix with no white space at either end. */
  function Trim(s: string): (r: string)
    ensures IsTrimmed(r)
  {
    TrimEnd(TrimStart(s))
  }

  /** What `trim` removes is white space, and what it keeps is an infix of the input. */
  lemma TrimIsInfix(s: string)
    ensures exists i, j ::
              && 0 <= i <= j <= |s| && Trim(s) == s[i..j]
              && (forall k :: 0 <= k < i ==> IsWhiteSpace(s[k]))
              && (forall k :: j <= k < |s| ==> IsWhiteSpace(s[k]))
  {
    var t := TrimStart(s);
    var e := TrimEnd(t);
    var i := |s| - |t|;
    var j := i + |e|;
    assert t == s[i..];
    assert e == t[..|e|] == s[i..j];
    forall k | j <= k < |s|
      ensures IsWhiteSpace(s[k])
    {
      assert s[k] == t[k - i];
    }
  }

  /** A string already free of surrounding white space is left alone. */
  lemma TrimOfTrimmed(s: string)
    requires IsTrimmed(s)
    ensures Trim(s) == s
  {
    assert TrimStart(s) == s;
  }

  lemma TrimIdempotent(s: string)
    ensures Trim(Trim(s)) == Trim(s)
  {
    TrimOfTrimmed(Trim(s));
  }

  /** A string of white space only trims to the empty string, and only such strings do. */
  lemma TrimEmptyIff(s: string)
    ensures Trim(s) == [] <==> forall k :: 0 <= k < |s| ==> IsWhiteSpace(s[k])
  {
    if forall k :: 0 <= k < |s| ==> IsWhiteSpace(s[k]) {
      TrimStartAllWhite(s);
    }
  }

  lemma {:induction false} TrimStartAllWhite(s: string)
    requires forall k :: 0 <= k < |s| ==> IsWhiteSpace(s[k])
    ensures TrimStart(s) == []
  {
    if s != [] {
      TrimStartAllWhite(s[1..]);
    }
  }

  /** Leading white space is all that `TrimStart` removes. */
  lemma {:induction false} TrimStartSkips(pre: string, s: string)
    requires forall k :: 0 <= k < |pre| ==> IsWhiteSpace(pre[k])
    requires s == [] || !IsWhiteSpace(s[0])
    ensures TrimStart(pre + s) == s
  {
    if pre != [] {
      assert (pre + s)[1..] == pre[1..] + s;
      TrimStartSkips(pre[1..], s);
    } else {
      assert pre + s == s;
    }
  }

  /** Trailing white space is all that `TrimEnd` removes. */
  lemma {:induction false} TrimEndSkips(s: string, post: string)
    requires forall k :: 0 <= k < |post| ==> IsWhiteSpace(post[k])
    requires s == [] || !IsWhiteSpace(s[|s| - 1])
    ensures TrimEnd(s + post) == s
  {
    if post != [] {
      assert (s + post)[..|s + post| - 1] == s + post[..|post| - 1];
      TrimEndSkips(s, post[..|post| - 1]);
    } else {
      assert s + post == s;
    }
  }

  /** White space added around a trimmed string is exactly what `trim` takes away. */
  lemma TrimSurrounded(pre: string, s: string, post: string)
    requires forall k :: 0 <= k < |pre| ==> IsWhiteSpace(pre[k])
    requires forall k :: 0 <= k < |post| ==> IsWhiteSpace(post[k])
    requires IsTrimmed(s)
    ensures Trim(pre + s + post) == s
  {
    if s == [] {
      assert pre + s + post == pre + post;
      TrimEmptyIff(pre + post);
    } else {
      assert pre + s + post == pre + (s + post);
      TrimStartSkips(pre, s + post);
      TrimEndSkips(s, post);
    }
  }

  /** `toLowerCase` on the Basic Latin range: A-Z become a-z, every other character is kept. */
  function LowerChar(c: char): (r: char)
    ensures 'A' <= c <= 'Z' ==> r as int == c as int + 32
    ensures !('A' <= c <= 'Z') ==> r == c
  {
    if 'A' <= c <= 'Z' then (c as int + 32) as char else c
  }

  function ToLower(s: string): (r: string)
    ensures |r| == |s|
    ensures forall i :: 0 <= i < |s| ==> r[i] == LowerChar(s[i])
  {
    if s == [] then [] else [LowerChar(s[0])] + ToLower(s[1..])
  }

  predicate IsLower(s: string) {
    forall i :: 0 <= i < |s| ==> !('A' <= s[i] <= 'Z')
  }

  lemma ToLowerIsLower(s: string)
    ensures IsLower(ToLower(s))
  {
  }

  lemma ToLowerOfLower(s: string)
    requires IsLower(s)
    ensures ToLower(s) == s
  {
  }

  /** Lower-casing never creates or removes white space, so it keeps a trimmed string trimmed. */
  lemma ToLowerKeepsTrimmed(s: string)
    requires IsTrimmed(s)
    ensures IsTrimmed(ToLower(s))
  {
  }

  /** `s.split(sep)` with a one-character separator. */
  function Split(s: string, sep: char): (parts: seq<string>)
    ensures |parts| >= 1
    ensures forall i, k :: 0 <= i < |parts| && 0 <= k < |parts[i]| ==> parts[i][k] != sep
  {
    if s == [] then [[]]
    else if s[0] == sep then [[]] + Split(s[1..], sep)
    else
      var rest := Split(s[1..], sep);
      [[s[0]] + rest[0]] + rest[1..]
  }

  /** `parts.join(sep)`. */
  function Join(parts: seq<string>, sep: char): string {
    if parts == [] then []
    else if |parts| == 1 then parts[0]
    else parts[0] + [sep] + Join(parts[1..], sep)
  }

  /** Splitting and joining again on the same separator gives back the string. */
  lemma {:induction false} JoinSplit(s: string, sep: char)
    ensures Join(Split(s, sep), sep) == s
  {
    if s == [] {
    } else if s[0] == sep {
      JoinSplit(s[1..], sep);
      assert Split(s, sep) == [[]] + Split(s[1..], sep);
      assert s == [sep] + s[1..];
    } else {
      var rest := Split(s[1..], sep);
      JoinSplit(s[1..], sep);
      if |rest| == 1 {
        assert Join(rest, sep) == rest[0];
      } else {
        assert Join(rest, sep) == rest[0] + [sep] + Join(rest[1..], sep);
        assert Join(Split(s, sep), sep) == [s[0]] + rest[0] + [sep] + Join(rest[1..], sep);
      }
      assert s == [s[0]] + s[1..];
    }
  }

  /**
   * The first part of a split is the text before the first separator (the
   * whole string when there is none), and the other parts joined again are
   * the text after it.
   */
  lemma SplitFirstPart(s: string, sep: char)
    ensures var first := Split(s, sep)[0];
      && |first| <= |s| && first == s[..|first|]
      && (|first| == |s| || s[|first|] == sep)
      && Join(Split(s, sep)[1..], sep) == (if |first| == |s| then [] else s[|first| + 1..])
  {
    var parts := Split(s, sep);
    JoinSplit(s, sep);
    if |parts| == 1 {
      assert Join(parts, sep) == parts[0];
      assert parts[1..] == [];
    } else {
      assert Join(parts, sep) == parts[0] + [sep] + Join(parts[1..], sep);
    }
  }

  /** A string without the separator splits into itself alone. */
  lemma {:induction false} SplitWithoutSep(s: string, sep: char)
    requires forall i :: 0 <= i < |s| ==> s[i] != sep
    ensures Split(s, sep) == [s]
  {
    if s != [] {
      SplitWithoutSep(s[1..], sep);
      assert [s[0]] + s[1..] == s;
    }
  }

  /** Splitting cuts at the first separator: what precedes it is the first part. */
  lemma {:induction false} SplitAtFirst(a: string, b: string, sep: char)
    requires forall i :: 0 <= i < |a| ==> a[i] != sep
    ensures Split(a + [sep] + b, sep) == [a] + Split(b, sep)
  {
    var s := a + [sep] + b;
    if a == [] {
      assert s[1..] == b;
    } else {
      SplitAtFirst(a[1..], b, sep);
      assert s[1..] == a[1..] + [sep] + b;
      assert [a[0]] + a[1..] == a;
    }
  }

  /** `s.length`: UTF-16 code units, two for a character outside the Basic Multilingual Plane. */
  function Utf16Length(s: string): (n: nat)
    ensures |s| <= n <= 2 * |s|
  {
    if s == [] then 0 else (if s[0] as int > 0xFFFF then 2 else 1) + Utf16Length(s[1..])
  }
}
