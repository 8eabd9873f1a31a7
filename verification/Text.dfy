// The string functions of Go's standard library that the modelled code uses.

module Text {
  datatype Option<+T> = None | Some(value: T)

  datatype Result<+T, +E> = Success(value: T) | Failure(error: E)

  /** unicode.IsSpace. */
  predicate IsSpace(c: char) {
    || '\t' <= c <= '\r' || c == ' ' || c == '\U{0085}' || c == '\U{00A0}' || c == '\U{1680}'
    || '\U{2000}' <= c <= '\U{200A}' || c == '\U{2028}' || c == '\U{2029}' || c == '\U{202F}'
    || c == '\U{205F}' || c == '\U{3000}'
  }

  predicate HasPrefix(s: string, prefix: string) { prefix <= s }

  predicate HasSuffix(s: string, suffix: string) {
    |suffix| <= |s| && s[|s| - |suffix|..] == suffix
  }

  function TrimPrefix(s: string, prefix: string): string {
    if HasPrefix(s, prefix) then s[|prefix|..] else s
  }

  function TrimSuffix(s: string, suffix: string): string {
    if HasSuffix(s, suffix) then s[..|s| - |suffix|] else s
  }

  predicate Contains(s: string, part: string) {
    exists i | 0 <= i <= |s| :: part <= s[i..]
  }

  function TrimLeftOf(s: string, cut: char -> bool): string {
    if s != [] && cut(s[0]) then TrimLeftOf(s[1..], cut) else s
  }

  function TrimRightOf(s: string, cut: char -> bool): string {
    if s != [] && cut(s[|s| - 1]) then TrimRightOf(s[..|s| - 1], cut) else s
  }

  function TrimOf(s: string, cut: char -> bool): string { TrimRightOf(TrimLeftOf(s, cut), cut) }

  function TrimSpace(s: string): string { TrimOf(s, IsSpace) }

  predicate Bare(s: string, cut: char -> bool) {
    s == [] || (!cut(s[0]) && !cut(s[|s| - 1]))
  }

  lemma {:induction false} TrimLeftIsSuffix(s: string, cut: char -> bool)
    ensures var t := TrimLeftOf(s, cut);
            && |t| <= |s| && t == s[|s| - |t|..] && (t != [] ==> !cut(t[0]))
            && (forall i :: 0 <= i < |s| - |t| ==> cut(s[i]))
  {
    if s != [] && cut(s[0]) {
      TrimLeftIsSuffix(s[1..], cut);
      var t := TrimLeftOf(s[1..], cut);
      forall i | 0 <= i < |s| - |t| ensures cut(s[i]) {
        assert i > 0 ==> s[i] == s[1..][i - 1];
      }
    } else {
      assert s == s[0..];
    }
  }

  lemma {:induction false} TrimRightIsPrefix(s: string, cut: char -> bool)
    ensures var t := TrimRightOf(s, cut);
            && |t| <= |s| && t == s[..|t|] && (t != [] ==> !cut(t[|t| - 1]))
            && (forall i :: |t| <= i < |s| ==> cut(s[i]))
  {
    if s != [] && cut(s[|s| - 1]) {
      var rest := s[..|s| - 1];
      TrimRightIsPrefix(rest, cut);
      var t := TrimRightOf(rest, cut);
      forall i | |t| <= i < |s| ensures cut(s[i]) {
        assert i < |s| - 1 ==> s[i] == rest[i];
      }
    } else {
      assert s == s[..|s|];
    }
  }

  /** Trimming cuts the longest run off each end and nothing else. */
  lemma TrimCutsEnds(s: string, cut: char -> bool) returns (lead: string, tail: string)
    ensures s == lead + TrimOf(s, cut) + tail
    ensures Bare(TrimOf(s, cut), cut)
    ensures forall c :: c in lead || c in tail ==> cut(c)
  {
    var left := TrimLeftOf(s, cut);
    TrimLeftIsSuffix(s, cut);
    TrimRightIsPrefix(left, cut);
    lead := s[..|s| - |left|];
    tail := left[|TrimOf(s, cut)|..];
  }

  lemma TrimBare(s: string, cut: char -> bool)
    requires Bare(s, cut)
    ensures TrimOf(s, cut) == s
  {}
}
