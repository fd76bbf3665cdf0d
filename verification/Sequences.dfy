/** What several modules need of sequences: no repetition, and paths as strings. */
module Sequences {
  predicate Distinct<T(==)>(s: seq<T>) {
    forall i, j :: 0 <= i < j < |s| ==> s[i] != s[j]
  }

  /** A path as a string. */
  function Join(path: seq<string>): string {
    if path == [] then "" else if |path| == 1 then path[0] else path[0] + "/" + Join(path[1..])
  }

  /** The place of the first slash, or the length. */
  function IndexOfSlash(s: string): (i: nat)
    ensures i <= |s| && '/' !in s[..i] && (i < |s| ==> s[i] == '/')
  {
    if s == "" || s[0] == '/' then 0
    else
      var j := IndexOfSlash(s[1..]);
      assert s[..j + 1] == [s[0]] + s[1..][..j];
      j + 1
  }

  lemma {:induction false} IndexOfSlashAt(s: string, rest: string)
    requires '/' !in s
    ensures IndexOfSlash(s) == |s| && IndexOfSlash(s + "/" + rest) == |s|
  {
    if s != "" {
      assert (s + "/" + rest)[1..] == s[1..] + "/" + rest;
      IndexOfSlashAt(s[1..], rest);
    }
  }
}
