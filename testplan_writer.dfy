/** `JMeterTestplanWriter`: writes a test plan bundle into a directory of
    its own under the current context directory, so that no earlier
    output is overwritten. The file system is the set of paths that
    exist; writing the bundle itself is not part of this model. */
module TestplanWriters {
  import opened Decimal
  import opened Strings
  import opened Sequences
  import opened PathHolders

  const Prefix: string := "wessbas-"

  /** The n-th candidate directory under root. */
  function DirName(root: string, n: nat): string {
    Resolve(root, Prefix + NatToString(n))
  }

  /** Different numbers name different directories. */
  lemma DirNameInjective(root: string, a: nat, b: nat)
    requires DirName(root, a) == DirName(root, b)
    ensures a == b
  {
    var x, y := Prefix + NatToString(a), Prefix + NatToString(b);
    ResolveRelativeInjective(root, x, y);
    assert NatToString(a) == x[|Prefix|..] && NatToString(b) == y[|Prefix|..];
  }

  /** The directories `mkdirs` makes exist for `path`: the path itself
      and each of its ancestors, the prefixes that end before a "/". */
  function Chain(path: string): (c: set<string>)
    ensures path in c
    ensures forall i :: 0 < i < |path| && path[i] == '/' ==> path[..i] in c
    ensures forall d :: d in c ==> d == path || (|d| < |path| && path[..|d|] == d && path[|d|] == '/')
  {
    {path} + set i | 0 < i < |path| && path[i] == '/' :: path[..i]
  }

  /** `getNewDir`: probes `wessbas-1`, `wessbas-2`, … and calls `mkdirs`
      on the first that does not exist. Whether `mkdirs` succeeds is given
      as `mkdirsSucceeds`: on success the directory and its missing
      ancestors exist afterwards; its result is ignored, so on failure
      the path is returned all the same. */
  method GetNewDir(root: string, existing: set<string>, mkdirsSucceeds: bool)
    returns (number: nat, path: string, created: set<string>)
    ensures number >= 1 && path == DirName(root, number)
    ensures path !in existing
    ensures forall m :: 1 <= m < number ==> DirName(root, m) in existing
    ensures mkdirsSucceeds ==> created == existing + Chain(path)
    ensures !mkdirsSucceeds ==> created == existing
  {
    number := 1;
    ghost var tried: set<string> := {};
    while DirName(root, number) in existing
      invariant number >= 1
      invariant forall m :: 1 <= m < number ==> DirName(root, m) in existing
      invariant forall k :: k >= number ==> DirName(root, k) !in tried
      invariant tried <= existing && |tried| == number - 1
      decreases |existing| - |tried|
    {
      LaterNamesDiffer(root, number);
      tried := tried + {DirName(root, number)};
      number := number + 1;
      SubsetCard(tried, existing);
    }
    path := DirName(root, number);
    created := if mkdirsSucceeds then existing + Chain(path) else existing;
  }

  /** A successful `mkdirs` also makes the context directory itself exist. */
  lemma RootInChain(root: string, n: nat)
    requires root != ""
    ensures root in Chain(DirName(root, n))
  {
    var name := Prefix + NatToString(n);
    assert name[0] == 'w';
    var path := DirName(root, n);
    assert path == root + "/" + name;
    assert path[..|root|] == root && path[|root|] == '/';
  }

  lemma LaterNamesDiffer(root: string, n: nat)
    ensures forall k :: k > n ==> DirName(root, k) != DirName(root, n)
  {
    forall k | k > n ensures DirName(root, k) != DirName(root, n) {
      if DirName(root, k) == DirName(root, n) {
        DirNameInjective(root, k, n);
      }
    }
  }
}
