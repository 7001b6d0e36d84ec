// Write-path specifications: an exact file, a directory `dir/`, a subtree
// `dir/**`, or a glob. A specification owns a language of paths.
module Paths {
  /** Python's `str.isspace` for the characters that `strip` removes. */
  predicate IsSpace(c: char) {
    var n := c as int;
    || 9 <= n <= 13 || 28 <= n <= 32 || n == 0x85 || n == 0xa0 || n == 0x1680
    || 0x2000 <= n <= 0x200a || n == 0x2028 || n == 0x2029 || n == 0x202f || n == 0x205f || n == 0x3000
  }

  function TrimLeft(s: string, drop: char -> bool): string {
    if s != "" && drop(s[0]) then TrimLeft(s[1..], drop) else s
  }

  function TrimRight(s: string, drop: char -> bool): string {
    if s != "" && drop(s[|s| - 1]) then TrimRight(s[..|s| - 1], drop) else s
  }

  function Strip(s: string): string {
    TrimRight(TrimLeft(s, IsSpace), IsSpace)
  }

  predicate DotOrSlash(c: char) {
    c == '.' || c == '/'
  }

  predicate IsSlash(c: char) {
    c == '/'
  }

  predicate SlashOrStar(c: char) {
    c == '/' || c == '*'
  }

  function Normalize(s: string): string {
    TrimLeft(Strip(s), DotOrSlash)
  }

  predicate EndsWith(s: string, suffix: string) {
    |suffix| <= |s| && s[|s| - |suffix|..] == suffix
  }

  predicate HasWildcard(spec: string) {
    '*' in spec || '?' in spec || '[' in spec
  }

  /** `fnmatch` on the alphabet of safe tokens, whose only wildcard is `*`. */
  predicate Glob(path: string, pattern: string)
    decreases |path| + |pattern|
  {
    if pattern == "" then path == ""
    else if pattern[0] == '*' then
      Glob(path, pattern[1..]) || (path != "" && Glob(path[1..], pattern))
    else path != "" && path[0] == pattern[0] && Glob(path[1..], pattern[1..])
  }

  predicate PathMatches(rawPath: string, rawSpec: string) {
    var path, spec := Normalize(rawPath), Normalize(rawSpec);
    if EndsWith(spec, "/**") then
      var prefix := TrimRight(spec[..|spec| - 3], IsSlash);
      path == prefix || prefix + "/" <= path
    else if EndsWith(spec, "/") then spec <= path
    else if HasWildcard(spec) then Glob(path, spec)
    else path == spec
  }

  /** The concrete paths on which an overlap is looked for. */
  function Candidates(left: string, right: string): set<string> {
    var l, r := TrimRight(left, SlashOrStar), TrimRight(right, SlashOrStar);
    {l, r} + (if l != "" then {l + "/probe"} else {}) + (if r != "" then {r + "/probe"} else {})
  }

  predicate PathSpecsOverlap(rawLeft: string, rawRight: string) {
    var left, right := Normalize(rawLeft), Normalize(rawRight);
    exists c :: c in Candidates(left, right) && PathMatches(c, left) && PathMatches(c, right)
  }

  /** The character set of an accepted manifest or file token. */
  predicate SafeChar(c: char) {
    'A' <= c <= 'Z' || 'a' <= c <= 'z' || '0' <= c <= '9' || c in "_./*#:+-"
  }

  predicate SafeToken(s: string) {
    s != "" && forall i :: 0 <= i < |s| ==> SafeChar(s[i])
  }
}
