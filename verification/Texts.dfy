/** String helpers with the meaning JavaScript gives them. */
module Texts {

  /** The characters `trim` removes. */
  predicate IsSpace(c: char) {
    c in {' ', '\t', '\n', '\r', '\U{000B}', '\U{000C}', '\U{00A0}', '\U{1680}', '\U{2028}', '\U{2029}',
          '\U{202F}', '\U{205F}', '\U{3000}', '\U{FEFF}'} || '\U{2000}' <= c <= '\U{200A}'
  }

  function TrimStart(s: string): string {
    if s != "" && IsSpace(s[0]) then TrimStart(s[1..]) else s
  }

  function TrimEnd(s: string): string {
    if s != "" && IsSpace(s[|s| - 1]) then TrimEnd(s[..|s| - 1]) else s
  }

  function Trim(s: string): string { TrimEnd(TrimStart(s)) }

  predicate IsTrimmed(s: string) {
    s != "" ==> !IsSpace(s[0]) && !IsSpace(s[|s| - 1])
  }

  lemma {:induction false} TrimStartFront(s: string)
    ensures TrimStart(s) != "" ==> !IsSpace(TrimStart(s)[0])
  {
    if s == "" || !IsSpace(s[0]) {
    } else {
      TrimStartFront(s[1..]);
    }
  }

  lemma {:induction false} TrimEndBack(s: string)
    ensures TrimEnd(s) != "" ==> !IsSpace(TrimEnd(s)[|TrimEnd(s)| - 1])
    ensures TrimEnd(s) != "" ==> TrimEnd(s)[0] == s[0]
  {
    if s == "" || !IsSpace(s[|s| - 1]) {
    } else {
      TrimEndBack(s[..|s| - 1]);
    }
  }

  lemma TrimIdempotent(s: string)
    ensures IsTrimmed(Trim(s)) && Trim(Trim(s)) == Trim(s)
  {
    TrimStartFront(s);
    TrimEndBack(TrimStart(s));
  }

  ghost predicate AllSpace(s: string) { forall i :: 0 <= i < |s| ==> IsSpace(s[i]) }

  lemma {:induction false} TrimStartCuts(s: string) returns (front: string)
    ensures s == front + TrimStart(s) && AllSpace(front)
  {
    if s == "" || !IsSpace(s[0]) {
      front := "";
    } else {
      var rest := TrimStartCuts(s[1..]);
      front := [s[0]] + rest;
    }
  }

  lemma {:induction false} TrimEndCuts(s: string) returns (back: string)
    ensures s == TrimEnd(s) + back && AllSpace(back)
  {
    if s == "" || !IsSpace(s[|s| - 1]) {
      back := "";
    } else {
      var n := |s| - 1;
      var rest := TrimEndCuts(s[..n]);
      back := rest + [s[n]];
      assert s == s[..n] + [s[n]];
    }
  }

  /** Trimming takes space off both ends and nothing else, and leaves none there. */
  lemma TrimCuts(s: string) returns (front: string, back: string)
    ensures s == front + Trim(s) + back && AllSpace(front) && AllSpace(back) && IsTrimmed(Trim(s))
  {
    front := TrimStartCuts(s);
    back := TrimEndCuts(TrimStart(s));
    TrimIdempotent(s);
  }

  predicate StartsWith(s: string, prefix: string) { prefix <= s }

  function Truncate(s: string, max: nat): (r: string)
    ensures 0 < max ==> |r| <= max
    ensures |s| <= max ==> r == s
    ensures 0 < max < |s| ==> r == s[..max - 1] + "…"
  {
    if |s| <= max then s else s[..if max == 0 then 0 else max - 1] + "…"
  }
}
