/**
 Case-insensitive comparison of the issuer kind, as Go's `strings.EqualFold`
 performs it under Unicode simple case folding.

 The kind is only ever compared with the ASCII constant
 `ClusterDigicertIssuer`. The only characters whose simple-fold orbit contains
 an ASCII letter are the ASCII letters themselves, KELVIN SIGN (U+212A, with
 `k` and `K`) and LATIN SMALL LETTER LONG S (U+017F, with `s` and `S`), so
 folding those three groups to one representative decides `EqualFold` exactly
 whenever one side is ASCII.
 */
module Fold {

  /** The representative of `c`'s fold class among the classes that meet ASCII. */
  function FoldKey(c: char): char
  {
    if 'A' <= c <= 'Z' then (c as int + ('a' as int - 'A' as int)) as char
    else if c == '\U{212A}' then 'k'
    else if c == '\U{017F}' then 's'
    else c
  }

  predicate IsAscii(s: string)
  {
    forall i :: 0 <= i < |s| ==> s[i] < '\U{80}'
  }

  /** Equality of two strings character by character up to case folding. */
  predicate EqualFold(a: string, b: string)
  {
    |a| == |b| && forall i :: 0 <= i < |a| ==> FoldKey(a[i]) == FoldKey(b[i])
  }

  /**
   The loop `strings.EqualFold` runs, restricted to a pattern `t` of ASCII
   characters: equal runes match, an ASCII letter matches its other case,
   and `k`/`s` also match KELVIN SIGN/LONG S.
   */
  method EqualFoldAscii(s: string, t: string) returns (eq: bool)
    requires IsAscii(t)
    ensures eq <==> EqualFold(s, t)
  {
    if |s| != |t| {
      return false;
    }
    var i := 0;
    while i < |s|
      invariant 0 <= i <= |s|
      invariant forall j :: 0 <= j < i ==> FoldKey(s[j]) == FoldKey(t[j])
    {
      var sr, tr := s[i], t[i];
      if sr != tr {
        var lo := if 'A' <= tr <= 'Z' then (tr as int + 32) as char else tr;
        var matches :=
          || ('A' <= sr <= 'Z' && (sr as int + 32) as char == lo)
          || ('a' <= sr <= 'z' && sr == lo)
          || (sr == '\U{212A}' && lo == 'k')
          || (sr == '\U{017F}' && lo == 's');
        if !matches {
          return false;
        }
      }
      i := i + 1;
    }
    return true;
  }
}
