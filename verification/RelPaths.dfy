/** Relative paths as lists of names and as text. A POSIX file name may hold a backslash, which the text
    form turns into a slash. */
module RelPaths {
  import opened Texts
  import ObjectKeys

  type Names = seq<string>

  /** The name of a directory entry on a POSIX file system. */
  predicate GoodName(name: string) {
    name != "" && name != "." && name != ".." && '/' !in name
  }

  predicate GoodNames(c: Names) { forall n <- c :: GoodName(n) }

  predicate NoBackslash(c: Names) { forall n <- c :: '\\' !in n }

  function Join(c: Names): string {
    if c == [] then "" else if |c| == 1 then c[0] else Join(c[..|c| - 1]) + "/" + c[|c| - 1]
  }

  function PosixRel(c: Names): string { ObjectKeys.Posix(Join(c)) }

  /** The pieces of a text between its slashes. */
  function Split(s: string): (r: Names)
    ensures r != []
  {
    if s == "" then [""]
    else
      var n := |s| - 1;
      if s[n] == '/' then Split(s[..n]) + [""] else Grown(Split(s[..n]), s[n])
  }

  /** The last piece with one more character. */
  function Grown(pieces: Names, ch: char): Names
    requires pieces != []
  {
    pieces[..|pieces| - 1] + [pieces[|pieces| - 1] + [ch]]
  }

  lemma GrownConcat(a: Names, b: Names, ch: char)
    requires b != []
    ensures Grown(a + b, ch) == a + Grown(b, ch)
  {
  }

  type Cutter = string -> Names

  /** A name cut at its backslashes. */
  function CutName(name: string): Names { Split(ObjectKeys.Posix(name)) }

  function CutAll(cut: Cutter, c: Names): Names {
    if c == [] then [] else CutAll(cut, c[..|c| - 1]) + cut(c[|c| - 1])
  }

  /** The names cut at their backslashes. */
  function Cuts(c: Names): Names { CutAll(CutName, c) }

  lemma {:induction false} SplitAfterSlash(u: string, t: string)
    requires u != "" && u[|u| - 1] == '/'
    ensures Split(u + t) == Split(u[..|u| - 1]) + Split(t)
  {
    if t == "" {
      assert u + t == u;
    } else {
      var n := |t| - 1;
      SplitAfterSlash(u, t[..n]);
      assert (u + t)[..|u| + n] == u + t[..n];
      SplitOneMore(u + t, |u| + n, Split(u[..|u| - 1]), Split(t[..n]), t[n]);
    }
  }

  lemma SplitOneMore(s: string, n: nat, front: Names, back: Names, ch: char)
    requires |s| == n + 1 && s[n] == ch && back != []
    requires Split(s[..n]) == front + back
    ensures Split(s) == front + if ch == '/' then back + [""] else Grown(back, ch)
  {
    if ch != '/' { GrownConcat(front, back, ch); }
  }

  lemma {:induction false} SplitName(name: string)
    requires '/' !in name
    ensures Split(name) == [name]
  {
    if name == "" {
    } else {
      var n := |name| - 1;
      SplitName(name[..n]);
      assert name == name[..n] + [name[n]];
    }
  }

  /** Splitting loses nothing. */
  lemma {:induction false} JoinSplit(s: string)
    ensures Join(Split(s)) == s
  {
    if s == "" {
    } else {
      var n := |s| - 1;
      var front := Split(s[..n]);
      JoinSplit(s[..n]);
      if s[n] == '/' {
        assert (front + [""])[..|front|] == front;
      } else {
        var k := |front| - 1;
        assert (front[..k] + [front[k] + [s[n]]])[..k] == front[..k];
      }
      assert s == s[..n] + [s[n]];
    }
  }

  lemma PosixConcat(s: string, t: string)
    ensures ObjectKeys.Posix(s + "/" + t) == ObjectKeys.Posix(s) + "/" + ObjectKeys.Posix(t)
  {
  }

  lemma CutJoined(a: string, b: string)
    ensures CutName(a + "/" + b) == CutName(a) + CutName(b)
  {
    PosixConcat(a, b);
    var front := ObjectKeys.Posix(a) + "/";
    assert front[..|front| - 1] == ObjectKeys.Posix(a);
    SplitAfterSlash(front, ObjectKeys.Posix(b));
  }

  /** Cutting a joined path is cutting its names, if cutting goes through slashes. */
  lemma {:induction false} CutJoin(cut: Cutter, c: Names)
    requires c != [] && forall a, b :: cut(a + "/" + b) == cut(a) + cut(b)
    ensures cut(Join(c)) == CutAll(cut, c)
  {
    var n := |c| - 1;
    if n == 0 {
      assert CutAll(cut, c[..0]) == [];
    } else {
      CutJoin(cut, c[..n]);
      assert Join(c) == Join(c[..n]) + "/" + c[n];
    }
  }

  lemma SplitPosixRel(c: Names)
    requires c != []
    ensures Split(PosixRel(c)) == Cuts(c)
  {
    forall a, b ensures CutName(a + "/" + b) == CutName(a) + CutName(b) {
      CutJoined(a, b);
    }
    CutJoin(CutName, c);
  }

  /** Two paths have the same text exactly when their names, cut at backslashes, are the same. */
  lemma SamePathIff(a: Names, b: Names)
    requires a != [] && b != []
    ensures PosixRel(a) == PosixRel(b) <==> Cuts(a) == Cuts(b)
  {
    SplitPosixRel(a);
    SplitPosixRel(b);
    JoinSplit(PosixRel(a));
    JoinSplit(PosixRel(b));
  }

  lemma PosixKeeps(s: string)
    requires '\\' !in s
    ensures ObjectKeys.Posix(s) == s
  {
  }

  lemma {:induction false} CutNone(cut: Cutter, c: Names)
    requires forall k :: 0 <= k < |c| ==> cut(c[k]) == [c[k]]
    ensures CutAll(cut, c) == c
  {
    if c == [] {
    } else {
      CutNone(cut, c[..|c| - 1]);
    }
  }

  /** Names without backslashes are not cut. */
  lemma CutsOfPlain(c: Names)
    requires forall k :: 0 <= k < |c| ==> '\\' !in c[k] && '/' !in c[k]
    ensures Cuts(c) == c
  {
    forall k | 0 <= k < |c| ensures CutName(c[k]) == [c[k]] {
      PosixKeeps(c[k]);
      SplitName(c[k]);
    }
    CutNone(CutName, c);
  }

  lemma {:induction false} JoinFront(c: Names)
    requires c != []
    ensures c[0] <= Join(c) && (|c| == 1 ==> Join(c) == c[0])
    ensures |c| > 1 ==> |Join(c)| > |c[0]| && Join(c)[|c[0]|] == '/'
  {
    if |c| == 1 {
    } else {
      JoinFront(c[..|c| - 1]);
    }
  }

  // What splitting an include item can yield.

  predicate DotAfterSlash(s: string) {
    exists i :: 0 <= i < |s| - 1 && s[i] == '/' && s[i + 1] == '.'
  }

  /** No piece holds a slash or a new backslash; the last one is empty only after a slash; and without a dot
      after a slash no piece but the first starts with a dot. */
  ghost predicate FinePieces(c: Names, s: string) {
    && c != []
    && (forall n <- c :: '/' !in n)
    && ('\\' !in s ==> NoBackslash(c))
    && (|c| > 1 && c[|c| - 1] == "" ==> s != "" && s[|s| - 1] == '/')
    && (!DotAfterSlash(s) ==> forall k :: 1 <= k < |c| ==> !StartsWith(c[k], "."))
  }

  lemma {:induction false} SplitPieces(s: string)
    ensures FinePieces(Split(s), s)
  {
    if s == "" {
    } else {
      var n := |s| - 1;
      SplitPieces(s[..n]);
      assert s == s[..n] + [s[n]];
      assert DotAfterSlash(s[..n]) ==> DotAfterSlash(s) by {
        if i :| 0 <= i < n - 1 && s[..n][i] == '/' && s[..n][i + 1] == '.' {
          assert s[i] == '/' && s[i + 1] == '.';
        }
      }
      if s[n] != '/' { GrownIsFine(Split(s[..n]), s, n); }
    }
  }

  lemma StartsWithDot(s: string)
    ensures StartsWith(s, ".") <==> s != "" && s[0] == '.'
  {
  }

  lemma GrownIsFine(c: Names, s: string, n: nat)
    requires |s| == n + 1 && s[n] != '/' && FinePieces(c, s[..n])
    requires DotAfterSlash(s[..n]) ==> DotAfterSlash(s)
    ensures FinePieces(Grown(c, s[n]), s)
  {
    var last := |c| - 1;
    assert c[last] in c;
    if !DotAfterSlash(s) {
      forall k | 1 <= k < |c| ensures !StartsWith(Grown(c, s[n])[k], ".") {
        StartsWithDot(c[k]);
        StartsWithDot(Grown(c, s[n])[k]);
        if k == last && c[last] == "" {
          assert s[n - 1] == '/';
        }
      }
    }
  }
}
