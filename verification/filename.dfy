/** The filename sanitizer that every saved artifact goes through
    (`sanitize_filename` in the current server's helpers). */
module Filename {
  import opened Strings

  /** The longest name the sanitizer returns. */
  const MaxLength: nat := 200

  /** The prefix put in front of an empty or dot-leading name. */
  const SafePrefix: string := "file_"

  /** Letters and digits; an ASCII stand-in for Python's Unicode `str.isalnum`. */
  predicate IsAlnum(c: char) {
    ('a' <= c <= 'z') || ('A' <= c <= 'Z') || ('0' <= c <= '9')
  }

  /** The characters a sanitized name may contain: alphanumerics and `. - _ space`. */
  predicate Allowed(c: char) {
    IsAlnum(c) || c == '.' || c == '-' || c == '_' || c == ' '
  }

  /** What one character of the input becomes. */
  function SafeChar(c: char): char {
    if Allowed(c) then c else '_'
  }

  /** True when the input would need the `file_` prefix: it is empty or starts with a dot. */
  predicate NeedsPrefix(name: string) {
    |name| == 0 || name[0] == '.'
  }

  /** How far the input's characters are shifted in the output. */
  function Shift(name: string): nat {
    if NeedsPrefix(name) then |SafePrefix| else 0
  }

  /** A name the sanitizer leaves alone. */
  predicate IsSafeName(name: string) {
    && 0 < |name| <= MaxLength
    && name[0] != '.'
    && forall i :: 0 <= i < |name| ==> Allowed(name[i])
  }

  function ReplaceUnsafe(name: string): string {
    seq(|name|, i requires 0 <= i < |name| => SafeChar(name[i]))
  }

  /** Replace every disallowed character by `_`, prefix `file_` when the result is
      empty or starts with a dot, then keep at most 200 characters. */
  function Sanitize(name: string): (r: string)
    ensures IsSafeName(r)
    ensures '/' !in r && '\\' !in r
    ensures |r| == if |name| + Shift(name) <= MaxLength then |name| + Shift(name) else MaxLength
    ensures NeedsPrefix(name) ==> StartsWith(r, SafePrefix)
    ensures forall i :: 0 <= i < |name| && Shift(name) + i < |r| ==> r[Shift(name) + i] == SafeChar(name[i])
  {
    var safe := ReplaceUnsafe(name);
    var named := if |safe| == 0 || safe[0] == '.' then SafePrefix + safe else safe;
    assert NeedsPrefix(name) ==> named[..|SafePrefix|] == SafePrefix;
    if |named| > MaxLength then named[..MaxLength] else named
  }

  /** The sanitizer returns its input unchanged exactly when the input is already safe. */
  lemma SanitizeFixpoint(name: string)
    ensures Sanitize(name) == name <==> IsSafeName(name)
  {
    if IsSafeName(name) {
      assert ReplaceUnsafe(name) == name;
    }
  }

  /** Sanitizing twice is the same as sanitizing once. */
  lemma SanitizeIdempotent(name: string)
    ensures Sanitize(Sanitize(name)) == Sanitize(name)
  {
    SanitizeFixpoint(Sanitize(name));
  }

  /** A path-traversal name: the separators become `_` and the leading dot gets
      the prefix. */
  lemma SanitizeTraversalExample()
    ensures Sanitize("../etc/passwd") == "file_.._etc_passwd"
  {
    assert ReplaceUnsafe("../etc/passwd") == ".._etc_passwd";
    assert SafePrefix + ".._etc_passwd" == "file_.._etc_passwd";
  }

  lemma SanitizeEmptyExample()
    ensures Sanitize("") == "file_"
  {
    assert ReplaceUnsafe("") == "";
  }

  lemma SanitizeSafeExample()
    ensures Sanitize("report 2024.pdf") == "report 2024.pdf"
  {
    assert IsSafeName("report 2024.pdf");
    SanitizeFixpoint("report 2024.pdf");
  }
}
