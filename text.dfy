/** String helpers shared by the model: Rust's `trim`, `split`, `contains` and `ends_with`. */
module Text {

  import opened Wrappers

  /** Rust's `char::is_whitespace`: the Unicode White_Space property. */
  predicate IsWhitespace(c: char) {
    c == ' ' || ('\t' <= c <= '\r') || c == '\U{85}' || c == '\U{A0}' || c == '\U{1680}'
    || ('\U{2000}' <= c <= '\U{200A}') || c == '\U{2028}' || c == '\U{2029}' || c == '\U{202F}'
    || c == '\U{205F}' || c == '\U{3000}'
  }

  /** Every character is white space (vacuously true of the empty string). */
  predicate IsBlank(s: string) {
    forall i :: 0 <= i < |s| ==> IsWhitespace(s[i])
  }

  function TrimStart(s: string): string {
    if s != [] && IsWhitespace(s[0]) then TrimStart(s[1..]) else s
  }

  function TrimEnd(s: string): string {
    if s != [] && IsWhitespace(s[|s| - 1]) then TrimEnd(s[..|s| - 1]) else s
  }

  /** `str::trim`: drop leading and trailing white space. */
  function Trim(s: string): string {
    TrimEnd(TrimStart(s))
  }

  lemma {:induction false} TrimStartEmpty(s: string)
    ensures TrimStart(s) == [] <==> IsBlank(s)
  {
    if s != [] && IsWhitespace(s[0]) {
      TrimStartEmpty(s[1..]);
      assert IsBlank(s[1..]) ==> IsBlank(s) by {
        if IsBlank(s[1..]) {
          forall i | 0 <= i < |s| ensures IsWhitespace(s[i]) {
            if i > 0 { assert s[i] == s[1..][i - 1]; }
          }
        }
      }
      assert IsBlank(s) ==> IsBlank(s[1..]) by {
        if IsBlank(s) {
          forall i | 0 <= i < |s| - 1 ensures IsWhitespace(s[1..][i]) {
            assert s[1..][i] == s[i + 1];
          }
        }
      }
    }
  }

  /** TrimEnd never turns a string that starts with a non-space into the empty string. */
  lemma {:induction false} TrimEndKeepsHead(s: string)
    requires s != [] && !IsWhitespace(s[0])
    ensures TrimEnd(s) != []
  {
    if IsWhitespace(s[|s| - 1]) {
      TrimEndKeepsHead(s[..|s| - 1]);
    }
  }

  /** `s.trim().is_empty()` holds exactly when `s` is made only of white space. */
  lemma TrimEmptyIffBlank(s: string)
    ensures Trim(s) == [] <==> IsBlank(s)
  {
    TrimStartEmpty(s);
    var t := TrimStart(s);
    if t != [] {
      TrimStartShape(s);
      TrimEndKeepsHead(t);
    }
  }

  /** `s.trim().is_empty()`: true exactly when `s` is all white space. */
  method TrimIsEmpty(s: string) returns (empty: bool)
    ensures empty <==> IsBlank(s)
  {
    empty := Trim(s) == [];
    TrimEmptyIffBlank(s);
  }


  lemma {:induction false} TrimStartShape(s: string)
    ensures TrimStart(s) != [] ==> !IsWhitespace(TrimStart(s)[0])
  {
    if s != [] && IsWhitespace(s[0]) {
      TrimStartShape(s[1..]);
    }
  }

  /** `haystack.contains(needle)`: `needle` occurs at some position of `haystack`. */
  predicate Contains(haystack: string, needle: string) {
    exists i :: 0 <= i <= |haystack| - |needle| && OccursAt(haystack, needle, i)
  }

  /** `needle` occurs in `haystack` starting at index `i`. */
  predicate OccursAt(haystack: string, needle: string, i: int)
    requires 0 <= i <= |haystack| - |needle|
  {
    haystack[i..i + |needle|] == needle
  }

  /** `s.ends_with(suffix)`. */
  predicate EndsWith(s: string, suffix: string) {
    |suffix| <= |s| && s[|s| - |suffix|..] == suffix
  }

  /** The number of occurrences of the character `c` in `s`. */
  function CountChar(s: string, c: char): (n: nat)
    ensures n <= |s|
  {
    if s == [] then 0 else CountChar(s[..|s| - 1], c) + (if s[|s| - 1] == c then 1 else 0)
  }

  lemma CountCharAppend(a: string, b: string, c: char)
    ensures CountChar(a + b, c) == CountChar(a, c) + CountChar(b, c)
    decreases |b|
  {
    if b == [] {
      assert a + b == a;
    } else {
      assert (a + b)[..|a + b| - 1] == a + b[..|b| - 1];
      CountCharAppend(a, b[..|b| - 1], c);
    }
  }

  /** A string without `c` has no occurrence of it to count. */
  lemma {:induction false} NoCharCount(s: string, c: char)
    requires c !in s
    ensures CountChar(s, c) == 0
  {
    if s != [] {
      NoCharCount(s[..|s| - 1], c);
    }
  }

  /** A single `c` between two stretches without it is counted once. */
  lemma CountOne(a: string, b: string, c: char)
    requires c !in a && c !in b
    ensures CountChar(a + [c] + b, c) == 1
  {
    NoCharCount(a, c);
    NoCharCount(b, c);
    CountCharAppend(a, [c], c);
    CountCharAppend(a + [c], b, c);
    assert [c][..0] == [];
  }

  /** A string holding `c` has a positive count of it. */
  lemma {:induction false} CountPositive(s: string, c: char)
    requires c in s
    ensures CountChar(s, c) > 0
  {
    if s[|s| - 1] != c {
      assert c in s[..|s| - 1];
      CountPositive(s[..|s| - 1], c);
    }
  }

  /** `s.split(sep)`: the pieces between separators; `n` separators give `n + 1` pieces. */
  function Split(s: string, sep: char): (pieces: seq<string>)
    ensures |pieces| == CountChar(s, sep) + 1
  {
    if s == [] then [[]]
    else
      var init := Split(s[..|s| - 1], sep);
      var last := s[|s| - 1];
      if last == sep then init + [[]]
      else init[..|init| - 1] + [init[|init| - 1] + [last]]
  }

  /** No piece holds the separator. */
  lemma {:induction false} SplitPiecesFree(s: string, sep: char)
    ensures forall k :: 0 <= k < |Split(s, sep)| ==> sep !in Split(s, sep)[k]
  {
    if s != [] {
      SplitPiecesFree(s[..|s| - 1], sep);
      var init := Split(s[..|s| - 1], sep);
      var last := s[|s| - 1];
      if last != sep {
        assert sep !in init[|init| - 1] + [last];
      }
    }
  }

  /** One character as `{:?}` renders it inside a string literal. Escapes other than these six
      (Unicode `\u{..}` escapes of non-printable characters) are not modelled. */
  function EscapeDebugChar(c: char): string {
    if c == '\0' then "\\0"
    else if c == '\t' then "\\t"
    else if c == '\r' then "\\r"
    else if c == '\n' then "\\n"
    else if c == '\\' then "\\\\"
    else if c == '"' then "\\\""
    else [c]
  }

  function EscapeDebug(s: string): string {
    if s == [] then [] else EscapeDebugChar(s[0]) + EscapeDebug(s[1..])
  }

  /** `format!("{:?}", s)` for a string `s`: the escaped text between double quotes. */
  function DebugString(s: string): string {
    "\"" + EscapeDebug(s) + "\""
  }

  /** The character that a backslash followed by `c` stands for, if any. */
  function Unescaped(c: char): Option<char> {
    if c == '0' then Some('\0')
    else if c == 't' then Some('\t')
    else if c == 'r' then Some('\r')
    else if c == 'n' then Some('\n')
    else if c == '\\' then Some('\\')
    else if c == '"' then Some('"')
    else None
  }

  /** Reads back the inside of a Debug-rendered string literal. */
  function UnescapeDebug(t: string): Option<string>
    decreases |t|
  {
    if t == [] then Some([])
    else if t[0] == '"' then None
    else if t[0] == '\\' then
      if |t| < 2 || Unescaped(t[1]).None? then None
      else match UnescapeDebug(t[2..])
        case None => None
        case Some(rest) => Some([Unescaped(t[1]).value] + rest)
    else match UnescapeDebug(t[1..])
      case None => None
      case Some(rest) => Some([t[0]] + rest)
  }

  /** Reads back a whole Debug-rendered string, quotes included. */
  function ParseDebugString(m: string): Option<string> {
    if |m| >= 2 && m[0] == '"' && m[|m| - 1] == '"' then UnescapeDebug(m[1..|m| - 1]) else None
  }

  /** Reading back one escaped character followed by more text. */
  lemma UnescapeOne(c: char, rest: string, r: string)
    requires UnescapeDebug(rest) == Some(r)
    ensures UnescapeDebug(EscapeDebugChar(c) + rest) == Some([c] + r)
  {
    var t := EscapeDebugChar(c) + rest;
    if c in "\0\t\r\n\\\"" {
      assert |EscapeDebugChar(c)| == 2 && t[0] == '\\';
      assert Unescaped(t[1]) == Some(c);
      assert t[2..] == rest;
    } else {
      assert EscapeDebugChar(c) == [c];
      assert t[1..] == rest;
    }
  }

  lemma {:induction false} UnescapeEscapeDebug(s: string)
    ensures UnescapeDebug(EscapeDebug(s)) == Some(s)
  {
    if s != [] {
      UnescapeEscapeDebug(s[1..]);
      UnescapeOne(s[0], EscapeDebug(s[1..]), s[1..]);
      assert EscapeDebug(s) == EscapeDebugChar(s[0]) + EscapeDebug(s[1..]);
      assert [s[0]] + s[1..] == s;
    }
  }

  /** The Debug rendering of a string loses nothing: the string can be read back from it. */
  lemma DebugStringRoundTrip(s: string)
    ensures ParseDebugString(DebugString(s)) == Some(s)
  {
    var m := DebugString(s);
    assert m[1..|m| - 1] == EscapeDebug(s);
    UnescapeEscapeDebug(s);
  }
}
