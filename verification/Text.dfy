// Trimming of surrounding white space.
module Text {
  // The characters that both implementation languages trim.
  predicate IsBlank(c: char) {
    || c == ' ' || '\t' <= c <= '\r'
    || c == '\U{A0}' || c == '\U{1680}' || '\U{2000}' <= c <= '\U{200A}'
    || c == '\U{2028}' || c == '\U{2029}' || c == '\U{202F}' || c == '\U{205F}' || c == '\U{3000}'
  }

  function TrimEnd(s: string): string {
    if s != "" && IsBlank(s[|s| - 1]) then TrimEnd(s[..|s| - 1]) else s
  }

  function TrimStart(s: string): string {
    if s != "" && IsBlank(s[0]) then TrimStart(s[1..]) else s
  }

  function Trim(s: string): string {
    TrimStart(TrimEnd(s))
  }

  // The text has a character that is not white space.
  predicate HasInk(s: string) {
    exists i :: 0 <= i < |s| && !IsBlank(s[i])
  }

  lemma {:induction false} TrimEndIs(s: string)
    ensures TrimEnd(s) <= s && forall i :: |TrimEnd(s)| <= i < |s| ==> IsBlank(s[i])
    ensures TrimEnd(s) != "" ==> !IsBlank(TrimEnd(s)[|TrimEnd(s)| - 1])
  {
    if s != "" && IsBlank(s[|s| - 1]) {
      TrimEndIs(s[..|s| - 1]);
    }
  }

  lemma {:induction false} TrimStartIs(s: string)
    ensures |TrimStart(s)| <= |s| && TrimStart(s) == s[|s| - |TrimStart(s)|..]
    ensures forall i :: 0 <= i < |s| - |TrimStart(s)| ==> IsBlank(s[i])
    ensures TrimStart(s) != "" ==> !IsBlank(TrimStart(s)[0])
  {
    if s != "" && IsBlank(s[0]) {
      TrimStartIs(s[1..]);
      assert TrimStart(s) == s[1..][|s| - 1 - |TrimStart(s)|..];
      forall i | 0 <= i < |s| - |TrimStart(s)| ensures IsBlank(s[i]) {
        if i > 0 { assert IsBlank(s[1..][i - 1]); }
      }
    }
  }

  // Trimming cuts out the part from the first to the last character that is not white space.
  lemma TrimIs(s: string) returns (from: nat, to: nat)
    ensures from <= to <= |s| && Trim(s) == s[from..to]
    ensures forall i :: 0 <= i < |s| && (i < from || to <= i) ==> IsBlank(s[i])
    ensures from < to ==> !IsBlank(s[from]) && !IsBlank(s[to - 1])
    ensures Trim(s) != "" <==> HasInk(s)
  {
    TrimEndIs(s);
    var t := TrimEnd(s);
    TrimStartIs(t);
    from, to := |t| - |TrimStart(t)|, |t|;
    assert forall i :: 0 <= i < |t| ==> t[i] == s[i];
    if TrimStart(t) != "" {
      assert !IsBlank(t[from]);
      assert TrimStart(t)[|TrimStart(t)| - 1] == t[|t| - 1];
    }
  }
}
