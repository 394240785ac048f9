/**
 * Character classes and ASCII case handling used by the handler: the classes
 * of the fixed authorization-header pattern, `strings.EqualFold` against the
 * ASCII words "Bearer" and "https", and `strings.ToUpper` for error codes.
 */
module Ascii {

  /** The class `[a-zA-Z0-9]`. */
  predicate IsAlnum(c: char) {
    'a' <= c <= 'z' || 'A' <= c <= 'Z' || '0' <= c <= '9'
  }

  /** RE2's Perl class `\s`: tab, newline, form feed, carriage return, space. */
  predicate IsSpace(c: char) {
    c == '\t' || c == '\n' || c == '\U{000C}' || c == '\r' || c == ' '
  }

  function ToLower(c: char): char {
    if 'A' <= c <= 'Z' then (c as int + 32) as char else c
  }

  function ToUpper(c: char): char {
    if 'a' <= c <= 'z' then (c as int - 32) as char else c
  }

  /**
   * Case-insensitive equality under ASCII folding. For the words the handler
   * compares against ("Bearer", "https") Unicode simple folding adds no
   * partner of any letter they contain except the long s of "https", and the
   * URL parser only ever yields ASCII schemes, so this is `strings.EqualFold`
   * on every call the handler makes.
   */
  function EqualFold(a: string, b: string): (r: bool)
    ensures r <==> |a| == |b| && forall i :: 0 <= i < |a| ==> ToLower(a[i]) == ToLower(b[i])
  {
    if |a| != |b| then false
    else if a == [] then true
    else ToLower(a[0]) == ToLower(b[0]) && EqualFold(a[1..], b[1..])
  }

  /** `strings.ToUpper` restricted to ASCII letters. */
  function UpperCase(s: string): (r: string)
    ensures |r| == |s| && forall i :: 0 <= i < |s| ==> r[i] == ToUpper(s[i])
  {
    seq(|s|, i requires 0 <= i < |s| => ToUpper(s[i]))
  }

  /** `strings.ReplaceAll` with a one-character pattern and replacement. */
  function ReplaceChar(s: string, from: char, to: char): (r: string)
    ensures |r| == |s|
    ensures forall i :: 0 <= i < |s| ==> r[i] == if s[i] == from then to else s[i]
  {
    seq(|s|, i requires 0 <= i < |s| => if s[i] == from then to else s[i])
  }
}
