/** The package registry's duplicate-name check: the manifest paths and the
    package names read from them are paired position by position and scanned
    in order; the first name seen a second time is reported together with
    the path it was first seen at. Finding the manifests and reading them is
    not part of this model. */
module RosRepo {
  import opened Common

  /** No name occurs twice. */
  predicate Distinct(names: seq<string>)
  {
    forall i, j :: 0 <= i < j < |names| ==> names[i] != names[j]
  }

  /** The position of the first occurrence of `name`. */
  function FirstIndex(names: seq<string>, name: string): (i: nat)
    requires name in names
    ensures i < |names| && names[i] == name && name !in names[..i]
  {
    if names[0] == name then 0
    else
      var k := FirstIndex(names[1..], name);
      assert names[..k + 1] == [names[0]] + names[1..][..k];
      k + 1
  }

  /** An occurrence with no earlier one is the first occurrence. */
  lemma FirstIndexAt(names: seq<string>, k: nat)
    requires k < |names| && names[k] !in names[..k]
    ensures FirstIndex(names, names[k]) == k
  {
  }

  /** The first position from `j` on whose name occurs earlier in the list. */
  function FirstRepeatFrom(names: seq<string>, j: nat): (r: Option<nat>)
    requires j <= |names|
    ensures r.Some? ==> j <= r.value < |names| && names[r.value] in names[..r.value]
    ensures forall k :: j <= k < |names| && (r.None? || k < r.value) ==> names[k] !in names[..k]
    decreases |names| - j
  {
    if j == |names| then None
    else if names[j] in names[..j] then Some(j)
    else FirstRepeatFrom(names, j + 1)
  }

  /** The first position whose name occurs earlier in the list. */
  function FirstRepeat(names: seq<string>): Option<nat>
  {
    FirstRepeatFrom(names, 0)
  }

  /** There is no repeated position exactly when the names are distinct. */
  lemma FirstRepeatNoneIffDistinct(names: seq<string>)
    ensures FirstRepeat(names).None? <==> Distinct(names)
  {
    if FirstRepeat(names).None? {
      forall i, j | 0 <= i < j < |names| ensures names[i] != names[j] {
        assert names[..j][i] == names[i];
      }
    } else {
      var j := FirstRepeat(names).value;
      var i :| 0 <= i < j && names[..j][i] == names[j];
      assert names[i] == names[j];
    }
  }

  /** Everything before the first repeated position is distinct. */
  lemma PrefixBeforeRepeatDistinct(names: seq<string>)
    requires FirstRepeat(names).Some?
    ensures Distinct(names[..FirstRepeat(names).value])
  {
    var j := FirstRepeat(names).value;
    forall a, b | 0 <= a < b < j ensures names[..j][a] != names[..j][b] {
      assert names[..b][a] == names[a];
    }
  }

  /** The number of pairs `izip!` forms: the length of the shorter list. */
  function PairCount(paths: seq<string>, names: seq<string>): (n: nat)
    ensures n <= |paths| && n <= |names| && (n == |paths| || n == |names|)
  {
    if |paths| <= |names| then |paths| else |names|
  }

  /** The map the duplicate-name loop has built after `n` pairs when no name
      repeated among them: each name seen, to the first path that had it. */
  function FirstPaths(paths: seq<string>, names: seq<string>, n: nat): map<string, string>
    requires n <= |paths| && n <= |names|
  {
    if n == 0 then map[]
    else
      var m := FirstPaths(paths, names, n - 1);
      if names[n - 1] in m then m else m[names[n - 1] := paths[n - 1]]
  }

  /** Its keys are the names seen, and each is mapped to the path paired with
      its first occurrence. */
  lemma {:induction false} FirstPathsSpec(paths: seq<string>, names: seq<string>, n: nat)
    requires n <= |paths| && n <= |names|
    ensures forall x :: x in FirstPaths(paths, names, n) <==> x in names[..n]
    ensures forall x :: x in FirstPaths(paths, names, n) ==> FirstPaths(paths, names, n)[x] == paths[FirstIndex(names, x)]
  {
    if n > 0 {
      FirstPathsSpec(paths, names, n - 1);
      assert names[..n] == names[..n - 1] + [names[n - 1]];
      if names[n - 1] !in names[..n - 1] {
        FirstIndexAt(names, n - 1);
      }
    }
  }

  /** A name already seen at position `i`, with no repeat before it, is the
      first repeat of the paired names. */
  lemma RepeatAt(names: seq<string>, n: nat, i: nat)
    requires i < n <= |names| && names[i] in names[..i]
    requires FirstRepeatFrom(names[..n], i) == FirstRepeat(names[..n])
    ensures FirstRepeat(names[..n]) == Some(i)
  {
    assert names[..n][..i] == names[..i];
  }

  /** A new name at position `i` moves the search for the first repeat on. */
  lemma NoRepeatAt(names: seq<string>, n: nat, i: nat)
    requires i < n <= |names| && names[i] !in names[..i]
    ensures FirstRepeatFrom(names[..n], i + 1) == FirstRepeatFrom(names[..n], i)
  {
    assert names[..n][..i] == names[..i];
  }

  /** The duplicate-name loop of `resolve`. `paths[k]` is the manifest whose
      package name is `names[k]`; `firstPath` is the map the loop fills, from
      each name seen to the first path that had it. */
  method CheckDuplicateNames(paths: seq<string>, names: seq<string>)
    returns (r: Outcome<()>, ghost firstPath: map<string, string>)
    ensures var ns := names[..PairCount(paths, names)];
      r.Ok? <==> Distinct(ns)
    ensures var ns := names[..PairCount(paths, names)];
      FirstRepeat(ns).Some? ==>
        var j := FirstRepeat(ns).value;
        r == Err(DuplicatePackageName(paths[FirstIndex(names, names[j])], paths[j], names[j]))
    ensures var ns := names[..PairCount(paths, names)];
      r.Ok? ==> forall x :: x in firstPath <==> x in ns
    ensures forall x :: x in firstPath ==>
      x in names[..PairCount(paths, names)] && firstPath[x] == paths[FirstIndex(names, x)]
  {
    var n := PairCount(paths, names);
    FirstRepeatNoneIffDistinct(names[..n]);
    var seen: map<string, string> := map[];
    var i := 0;
    while i < n
      invariant 0 <= i <= n
      invariant seen == FirstPaths(paths, names, i)
      invariant FirstRepeatFrom(names[..n], i) == FirstRepeat(names[..n])
    {
      var name := names[i];
      if name in seen {
        FirstPathsSpec(paths, names, i);
        RepeatAt(names, n, i);
        assert names[..i] == names[..n][..i];
        firstPath := seen;
        return Err(DuplicatePackageName(seen[name], paths[i], name)), firstPath;
      }
      FirstPathsSpec(paths, names, i);
      NoRepeatAt(names, n, i);
      seen := seen[name := paths[i]];
      i := i + 1;
    }
    FirstPathsSpec(paths, names, n);
    firstPath := seen;
    return Ok(()), firstPath;
  }
}
