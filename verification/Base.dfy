/** Small shared vocabulary: optional values and the trimming of user-supplied text. */
module Base {

  datatype Option<+T> = None | Some(value: T)

  /** The characters that Python's `str.strip()` removes. */
  predicate IsSpace(c: char) {
    || '\t' <= c <= '\r'
    || '\U{1c}' <= c <= ' '
    || c == '\U{85}' || c == '\U{a0}' || c == '\U{1680}'
    || '\U{2000}' <= c <= '\U{200a}'
    || c == '\U{2028}' || c == '\U{2029}' || c == '\U{202f}' || c == '\U{205f}' || c == '\U{3000}'
  }

  predicate Blank(s: string) {
    forall k :: 0 <= k < |s| ==> IsSpace(s[k])
  }

  function TrimLeft(s: string): string {
    if s == "" || !IsSpace(s[0]) then s else TrimLeft(s[1..])
  }

  function TrimRight(s: string): string {
    if s == "" || !IsSpace(s[|s| - 1]) then s else TrimRight(s[..|s| - 1])
  }

  /** `s.strip()`. */
  function Strip(s: string): string {
    TrimRight(TrimLeft(s))
  }

  lemma LongerBlank(s: string, n: nat)
    requires 0 < n <= |s| && IsSpace(s[0]) && Blank(s[1..][..n - 1])
    ensures Blank(s[..n])
  {
    assert s[..n] == [s[0]] + s[1..][..n - 1];
  }

  lemma {:induction false} TrimLeftMeaning(s: string)
    ensures var r := TrimLeft(s);
            && |r| <= |s| && r == s[|s| - |r|..] && Blank(s[..|s| - |r|])
            && (r != "" ==> !IsSpace(r[0]))
  {
    if s != "" && IsSpace(s[0]) {
      TrimLeftMeaning(s[1..]);
      var r := TrimLeft(s);
      LongerBlank(s, |s| - |r|);
      assert s[|s| - |r|..] == s[1..][|s| - 1 - |r|..];
    }
  }

  lemma {:induction false} TrimRightMeaning(s: string)
    ensures var r := TrimRight(s);
            && |r| <= |s| && r == s[..|r|] && Blank(s[|r|..])
            && (r != "" ==> !IsSpace(r[|r| - 1]))
  {
    if s != "" && IsSpace(s[|s| - 1]) {
      TrimRightMeaning(s[..|s| - 1]);
      var r := TrimRight(s);
      assert s[|r|..] == s[..|s| - 1][|r|..] + [s[|s| - 1]];
    }
  }

  /** r is a piece of s with nothing but white space before and after it. */
  ghost predicate Trimmed(s: string, r: string) {
    exists i, j :: 0 <= i <= j <= |s| && r == s[i..j] && Blank(s[..i]) && Blank(s[j..])
  }

  /** Stripping cuts white space, and only white space, off both ends: it leaves nothing exactly for blank text, and
      never leaves white space at either end. */
  lemma StripMeaning(s: string)
    ensures Trimmed(s, Strip(s))
    ensures var r := Strip(s);
            && (r == "" <==> Blank(s))
            && (r != "" ==> !IsSpace(r[0]) && !IsSpace(r[|r| - 1]))
  {
    StripCuts(s);
    TrimLeftMeaning(s);
    TrimRightMeaning(TrimLeft(s));
    var t := TrimLeft(s);
    assert t != "" ==> t[0] == s[|s| - |t|];
    assert TrimRight(t) == "" ==> Blank(t) by {
      assert t[0..] == t;
    }
  }

  lemma StripCuts(s: string)
    ensures Trimmed(s, Strip(s))
  {
    TrimLeftMeaning(s);
    var t := TrimLeft(s);
    TrimRightMeaning(t);
    PieceOfPiece(s, |s| - |t|, |TrimRight(t)|);
  }

  lemma PieceOfPiece(s: string, i: nat, n: nat)
    requires i <= |s| && n <= |s| - i && Blank(s[..i]) && Blank(s[i..][n..])
    ensures Trimmed(s, s[i..][..n])
  {
    assert s[i..][..n] == s[i..i + n] && s[i..][n..] == s[i + n..];
  }

  /** From steps to runs: if in every good state the next one is good exactly when the step is safe, then all
      states of a run are good exactly when all its steps are safe. */
  lemma {:induction false} Throughout(good: nat -> bool, safe: nat -> bool, n: nat)
    requires good(0) && forall k :: 0 <= k < n && good(k) ==> (good(k + 1) <==> safe(k))
    ensures (forall k :: 0 <= k <= n ==> good(k)) <==> (forall k :: 0 <= k < n ==> safe(k))
  {
    if n > 0 {
      Throughout(good, safe, n - 1);
      assert good(n - 1) ==> (good(n - 1 + 1) <==> safe(n - 1));
    }
  }
}
