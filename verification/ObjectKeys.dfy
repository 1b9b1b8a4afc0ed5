/** Object keys of synced files under a team prefix. */
module ObjectKeys {
  import opened Collections
  import opened Texts

  const MANIFEST_REL_KEY := ".clawql/sync/manifest.v1.json"

  function NormalizePrefix(prefix: string): string {
    var t := Trim(prefix);
    if t == "" then "" else if t[|t| - 1] == '/' then t else t + "/"
  }

  /** Backslashes become slashes. */
  function Posix(s: string): (r: string)
    ensures |r| == |s|
    ensures forall i :: 0 <= i < |s| ==> r[i] == if s[i] == '\\' then '/' else s[i]
  {
    if s == "" then "" else [if s[0] == '\\' then '/' else s[0]] + Posix(s[1..])
  }

  function StripSlashes(s: string): string {
    if s != "" && s[0] == '/' then StripSlashes(s[1..]) else s
  }

  function ObjectKeyForRelPath(prefix: string, relPath: string): string {
    NormalizePrefix(prefix) + StripSlashes(Posix(relPath))
  }

  function RelPathFromObjectKey(prefix: string, key: string): Option<string> {
    var p := NormalizePrefix(prefix);
    if p != "" && !StartsWith(key, p) then None else Some(key[if |p| <= |key| then |p| else |key|..])
  }

  predicate IsClean(relPath: string) {
    '\\' !in relPath && !StartsWith(relPath, "/")
  }

  lemma {:induction false} StripSlashesShorter(s: string)
    ensures |StripSlashes(s)| <= |s| && (s != "" && s[0] == '/' ==> |StripSlashes(s)| < |s|)
  {
    if s == "" || s[0] != '/' {
    } else {
      StripSlashesShorter(s[1..]);
    }
  }

  /** Stripping cuts exactly the slashes at the front. */
  lemma {:induction false} StripSlashesCuts(s: string) returns (k: nat)
    ensures k <= |s| && StripSlashes(s) == s[k..] && (forall i :: 0 <= i < k ==> s[i] == '/')
    ensures k < |s| ==> s[k] != '/'
  {
    if s == "" || s[0] != '/' {
      k := 0;
    } else {
      k := StripSlashesCuts(s[1..]);
      k := k + 1;
    }
  }

  /** What stands before every key: nothing for a blank prefix, otherwise the prefix without outer space, ending in
      a slash. */
  ghost predicate IsFront(prefix: string, front: string) {
    if Trim(prefix) == "" then front == ""
    else front == if Trim(prefix)[|Trim(prefix)| - 1] == '/' then Trim(prefix) else Trim(prefix) + "/"
  }

  /** A key is the front of its prefix and the path with slashes for backslashes and without leading ones; only
      keys with that front decode, to what follows it. */
  lemma KeysAreUnderPrefix(prefix: string, front: string, relPath: string, key: string) returns (k: nat)
    requires IsFront(prefix, front)
    ensures k <= |relPath| && (forall i :: 0 <= i < k ==> relPath[i] in {'/', '\\'})
    ensures k < |relPath| ==> relPath[k] !in {'/', '\\'}
    ensures var rest := ObjectKeyForRelPath(prefix, relPath)[|front|..];
      && ObjectKeyForRelPath(prefix, relPath) == front + rest && |rest| == |relPath| - k
      && forall i :: 0 <= i < |rest| ==> rest[i] == if relPath[k + i] == '\\' then '/' else relPath[k + i]
    ensures RelPathFromObjectKey(prefix, key).None? <==> !StartsWith(key, front)
    ensures RelPathFromObjectKey(prefix, key).Some? ==> key == front + RelPathFromObjectKey(prefix, key).value
  {
    k := StripSlashesCuts(Posix(relPath));
    assert NormalizePrefix(prefix) == front;
    var rest := StripSlashes(Posix(relPath));
    assert (front + rest)[|front|..] == rest;
  }

  /** A key decodes back to the path it was made from exactly when the path has no backslash and no leading slash. */
  lemma KeyRoundTripIff(prefix: string, relPath: string)
    ensures RelPathFromObjectKey(prefix, ObjectKeyForRelPath(prefix, relPath)) == Some(relPath) <==> IsClean(relPath)
  {
    var p, rest := NormalizePrefix(prefix), StripSlashes(Posix(relPath));
    assert (p + rest)[|p|..] == rest;
    StripSlashesShorter(Posix(relPath));
    if IsClean(relPath) {
      assert Posix(relPath) == relPath;
      assert relPath != "" ==> ("/" <= relPath <==> relPath[0] == '/');
    } else if '\\' in relPath {
      var i :| 0 <= i < |relPath| && relPath[i] == '\\';
      assert Posix(relPath)[i] == '/';
    } else {
      assert relPath[0] == '/' == Posix(relPath)[0];
    }
  }

  /** Distinct clean paths get distinct keys. */
  lemma KeysDistinct(prefix: string, a: string, b: string)
    requires IsClean(a) && IsClean(b)
    ensures ObjectKeyForRelPath(prefix, a) == ObjectKeyForRelPath(prefix, b) <==> a == b
  {
    KeyRoundTripIff(prefix, a);
    KeyRoundTripIff(prefix, b);
  }

  lemma ManifestKeyIsClean()
    ensures IsClean(MANIFEST_REL_KEY)
  {
    assert MANIFEST_REL_KEY[0] == '.';
  }

  /** Only the manifest's own path gets the manifest's key. */
  lemma ManifestKeyIsReserved(prefix: string, a: string)
    requires IsClean(a)
    ensures ObjectKeyForRelPath(prefix, a) == ObjectKeyForRelPath(prefix, MANIFEST_REL_KEY) <==> a == MANIFEST_REL_KEY
  {
    ManifestKeyIsClean();
    KeysDistinct(prefix, a, MANIFEST_REL_KEY);
  }
}
