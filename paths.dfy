/** The two path operations the checksum code applies to names:
    `str.endswith` and `os.path.join` (POSIX flavour). */
module Paths {
  /** `s.endswith(suffix)`. */
  predicate EndsWith(s: string, suffix: string) {
    |s| >= |suffix| && s[|s| - |suffix|..] == suffix
  }

  /** `os.path.join(root, name)`: an absolute name replaces the root;
      otherwise the name is appended, after a `/` unless the root is empty
      or already ends in one. */
  function Join(root: string, name: string): string {
    if |name| > 0 && name[0] == '/' then name
    else if root == [] || root[|root| - 1] == '/' then root + name
    else root + "/" + name
  }

  /** The joined path ends with the name and, for a relative name, starts
      with the root. */
  lemma JoinShape(root: string, name: string)
    ensures EndsWith(Join(root, name), name)
    ensures !(|name| > 0 && name[0] == '/') ==> |root| <= |Join(root, name)| && Join(root, name)[..|root|] == root
  {
  }

  /** A suffix test on the joined path, as `calc_sum` makes it, answers the
      same as the test on the name itself when the suffix is no longer than
      the name. */
  lemma JoinKeepsSuffix(root: string, name: string, suffix: string)
    requires |suffix| <= |name|
    ensures EndsWith(Join(root, name), suffix) <==> EndsWith(name, suffix)
  {
    var r := Join(root, name);
    JoinShape(root, name);
    assert r[|r| - |suffix|..] == r[|r| - |name|..][|name| - |suffix|..];
  }
}
