/** The .NET string and path primitives the pipeline relies on:
    string.IsNullOrWhiteSpace, ASCII case folding, substring search,
    Truncate, Trim('.') and Path.GetExtension / FileInfo.Extension. */
module Text {
  import opened Common

  /** Char.IsWhiteSpace: U+0009..U+000D, the space separators, U+0085,
      and the line and paragraph separators. */
  predicate IsWhiteSpace(c: char) {
    c == ' ' || ('\t' <= c <= '\r') || c == '\U{0085}' || c == '\U{00A0}' || c == '\U{1680}'
    || ('\U{2000}' <= c <= '\U{200A}') || c == '\U{2028}' || c == '\U{2029}'
    || c == '\U{202F}' || c == '\U{205F}' || c == '\U{3000}'
  }

  function AllWhiteSpace(s: string): (r: bool)
    ensures r <==> forall i :: 0 <= i < |s| ==> IsWhiteSpace(s[i])
  {
    if s == [] then true
    else IsWhiteSpace(s[0]) && AllWhiteSpace(s[1..])
  }

  /** string.IsNullOrWhiteSpace, with None standing for null. */
  function IsNullOrWhiteSpace(s: Option<string>): (r: bool)
    ensures r <==> s.None? || forall i :: 0 <= i < |s.value| ==> IsWhiteSpace(s.value[i])
    ensures s == Some("") ==> r
  {
    s.None? || AllWhiteSpace(s.value)
  }

  /** Upper-case ASCII letters fold to lower case; every other character is kept. */
  function ToLowerChar(c: char): char {
    if 'A' <= c <= 'Z' then (c as int + 32) as char else c
  }

  function ToLower(s: string): (r: string)
    ensures |r| == |s|
    ensures forall i :: 0 <= i < |s| ==> r[i] == ToLowerChar(s[i])
  {
    seq(|s|, i requires 0 <= i < |s| => ToLowerChar(s[i]))
  }

  predicate IsPrefix(p: string, s: string) {
    |p| <= |s| && s[..|p|] == p
  }

  /** sub occurs in s starting at index i. */
  predicate OccursAt(s: string, sub: string, i: int) {
    0 <= i <= |s| - |sub| && s[i..i + |sub|] == sub
  }

  /** Ordinal substring search, trying each start position from the left. */
  function ContainsOrdinal(s: string, sub: string): bool
    decreases |s|
  {
    IsPrefix(sub, s) || (s != [] && ContainsOrdinal(s[1..], sub))
  }

  /** The search succeeds exactly when sub occurs at some index of s. */
  lemma {:induction false} ContainsOrdinalAt(s: string, sub: string)
    ensures ContainsOrdinal(s, sub) <==> exists i :: OccursAt(s, sub, i)
    decreases |s|
  {
    if IsPrefix(sub, s) {
      assert OccursAt(s, sub, 0);
    }
    if s != [] {
      ContainsOrdinalAt(s[1..], sub);
      if ContainsOrdinal(s[1..], sub) {
        var i :| OccursAt(s[1..], sub, i);
        assert s[1..][i..i + |sub|] == s[i + 1..i + 1 + |sub|];
        assert OccursAt(s, sub, i + 1);
      }
      if i :| OccursAt(s, sub, i) {
        if i > 0 {
          assert s[1..][i - 1..i - 1 + |sub|] == s[i..i + |sub|];
          assert OccursAt(s[1..], sub, i - 1);
        } else {
          assert IsPrefix(sub, s);
        }
      }
    } else if i :| OccursAt(s, sub, i) {
      assert IsPrefix(sub, s);
    }
  }

  /** ContainsInsensitive (an ordinal-ignore-case search): ordinal search after
      folding both sides to lower case. */
  function ContainsInsensitive(s: string, sub: string): (r: bool)
    ensures r <==> exists i :: OccursAt(ToLower(s), ToLower(sub), i)
  {
    ContainsOrdinalAt(ToLower(s), ToLower(sub));
    ContainsOrdinal(ToLower(s), ToLower(sub))
  }

  /** Truncate(limit): the first limit characters, or the whole string when shorter. */
  function Truncate(s: string, limit: nat): (r: string)
    ensures |r| == if |s| <= limit then |s| else limit
    ensures r <= s
  {
    if |s| <= limit then s else s[..limit]
  }

  function TrimStart(s: string, c: char): string {
    if s != [] && s[0] == c then TrimStart(s[1..], c) else s
  }

  function TrimEnd(s: string, c: char): string {
    if s != [] && s[|s| - 1] == c then TrimEnd(s[..|s| - 1], c) else s
  }

  /** String.Trim(c): removes every leading and trailing c. */
  function Trim(s: string, c: char): string {
    TrimEnd(TrimStart(s, c), c)
  }

  /** Trim(c) leaves a string alone that neither starts nor ends with c. */
  lemma TrimUntouched(s: string, c: char)
    requires s != [] && s[0] != c && s[|s| - 1] != c
    ensures Trim(s, c) == s
  {
  }

  /** Index of the last c in s, or -1 when there is none. */
  function LastIndexOf(s: string, c: char): (r: int)
    ensures -1 <= r < |s|
  {
    if s == [] then -1
    else if s[|s| - 1] == c then |s| - 1
    else LastIndexOf(s[..|s| - 1], c)
  }

  /** LastIndexOf finds the last occurrence of c, and -1 only when c is absent. */
  lemma {:induction false} LastIndexOfIsLast(s: string, c: char)
    ensures var r := LastIndexOf(s, c);
      -1 <= r < |s| && (r >= 0 ==> s[r] == c) && (forall j :: r < j < |s| ==> s[j] != c)
  {
    if s != [] && s[|s| - 1] != c {
      LastIndexOfIsLast(s[..|s| - 1], c);
    }
  }

  /** Path.GetExtension on a file name: the text from the last '.' on, dot
      included; empty when there is no '.' or the '.' is the last character.
      The extension always ends the name. FileInfo.Extension is taken to be
      the same; it differs only for a name ending in '.', where it gives "."
      instead of "", and such names do not survive on Windows. */
  function GetExtension(name: string): (r: string)
    ensures |r| <= |name| && r == name[|name| - |r|..]
  {
    var i := LastIndexOf(name, '.');
    if i < 0 || i == |name| - 1 then "" else name[i..]
  }

  /** The extension is empty exactly when the name has no '.' or ends with
      one; otherwise it is a dot followed by at least one character and no
      further dot. */
  lemma GetExtensionShape(name: string)
    ensures var r := GetExtension(name);
      (r == [] <==> '.' !in name || name[|name| - 1] == '.') &&
      (r != [] ==> r[0] == '.' && |r| >= 2 && '.' !in r[1..])
  {
    LastIndexOfIsLast(name, '.');
    var i := LastIndexOf(name, '.');
    if !(i < 0 || i == |name| - 1) {
      assert name[i..][1..] == name[i + 1..];
    }
  }

  /** Trim('.') of an extension drops its leading dot and nothing else, so
      what is left holds no dot at all. */
  lemma TrimExtension(name: string)
    ensures var e := GetExtension(name);
      Trim(e, '.') == (if e == [] then [] else e[1..]) && '.' !in Trim(e, '.')
  {
    var e := GetExtension(name);
    GetExtensionShape(name);
    if e != [] {
      var rest := e[1..];
      assert rest[0] in rest && rest[|rest| - 1] in rest;
      assert TrimStart(e, '.') == TrimStart(rest, '.');
      TrimUntouched(rest, '.');
    }
  }

  lemma LastDotOfBuiltName(base: string, ext: string)
    requires '.' !in ext
    ensures LastIndexOf(base + "." + ext, '.') == |base|
  {
    var name := base + "." + ext;
    LastIndexOfIsLast(name, '.');
    var i := LastIndexOf(name, '.');
    assert name[|base|] == '.';
  }

  /** A name built as base + "." + ext, with ext non-empty and free of dots,
      has extension "." + ext, and Trim('.') of that extension gives ext back. */
  lemma ExtensionOfBuiltName(base: string, ext: string)
    requires ext != [] && '.' !in ext
    ensures GetExtension(base + "." + ext) == "." + ext
    ensures Trim(GetExtension(base + "." + ext), '.') == ext
  {
    var name := base + "." + ext;
    LastDotOfBuiltName(base, ext);
    assert name[|base|..] == "." + ext;
    var dotExt := "." + ext;
    assert ext[0] in ext && ext[|ext| - 1] in ext;
    assert TrimStart(dotExt, '.') == ext by {
      assert dotExt[1..] == ext;
    }
  }
}
