/** The manifest's dependency buckets and the "major dependency" selection.

    A decoded JSON object is an ordered list of (key, value) pairs in the
    order the parser met them. `{...dependencies, ...devDependencies}` is the
    JavaScript object spread: a key keeps the position of its first insertion
    and takes the value of its last.
 */
module Dependencies {
  import opened Wrappers
  import opened Strings

  type Entries = seq<(string, string)>

  function Keys(es: Entries): (ks: seq<string>)
    ensures |ks| == |es| && forall i :: 0 <= i < |es| ==> ks[i] == es[i].0
  {
    seq(|es|, i requires 0 <= i < |es| => es[i].0)
  }

  predicate Distinct(ks: seq<string>) {
    forall i, j :: 0 <= i < j < |ks| ==> ks[i] != ks[j]
  }

  /** The value a key ends up with when the pairs are read in order: the last one wins. */
  function Lookup(es: Entries, key: string): (r: Option<string>)
    ensures r.Some? <==> key in Keys(es)
  {
    if |es| == 0 then None
    else
      assert Keys(es) == [es[0].0] + Keys(es[1..]);
      match Lookup(es[1..], key)
      case Some(v) => Some(v)
      case None => if es[0].0 == key then Some(es[0].1) else None
  }

  /** Assigning one property: overwrite in place if present, else append. */
  function Assign(acc: Entries, key: string, value: string): (r: Entries)
    requires Distinct(Keys(acc))
    ensures Distinct(Keys(r))
    ensures Keys(r) == if key in Keys(acc) then Keys(acc) else Keys(acc) + [key]
    decreases |acc|
  {
    if |acc| == 0 then [(key, value)]
    else
      var head, tail := acc[0], acc[1..];
      assert Keys(acc) == [head.0] + Keys(tail);
      assert head.0 !in Keys(tail);
      if head.0 == key then
        var r := [(key, value)] + tail;
        assert Keys(r) == [key] + Keys(tail);
        r
      else
        var rest := Assign(tail, key, value);
        var r := [head] + rest;
        assert Keys(r) == [head.0] + Keys(rest);
        assert head.0 !in Keys(rest);
        r
  }

  lemma {:induction false} AssignLookup(acc: Entries, key: string, value: string, k: string)
    requires Distinct(Keys(acc))
    ensures Lookup(Assign(acc, key, value), k) == if k == key then Some(value) else Lookup(acc, k)
    decreases |acc|
  {
    if |acc| > 0 {
      var r := Assign(acc, key, value);
      assert Keys(acc) == [acc[0].0] + Keys(acc[1..]);
      assert Keys(acc[1..]) == Keys(acc)[1..];
      if acc[0].0 == key {
        assert r[1..] == acc[1..];
        assert key !in Keys(acc[1..]);
      } else {
        assert r[1..] == Assign(acc[1..], key, value);
        AssignLookup(acc[1..], key, value, k);
      }
    }
  }

  /** `{...acc, ...es}`: assigns every pair of `es` in order. */
  function Spread(acc: Entries, es: Entries): (r: Entries)
    requires Distinct(Keys(acc))
    ensures Distinct(Keys(r))
    decreases |es|
  {
    if |es| == 0 then acc else Spread(Assign(acc, es[0].0, es[0].1), es[1..])
  }

  /** The manifest's dependencies and devDependencies merged into one
      object, a devDependencies entry overriding a dependencies one. */
  function Merge(dependencies: Entries, devDependencies: Entries): (r: Entries)
    ensures Distinct(Keys(r))
  {
    Spread(Spread([], dependencies), devDependencies)
  }

  /** Appends to `ks` each element of `more` it does not hold yet, in order. */
  function AddNew(ks: seq<string>, more: seq<string>): seq<string>
    decreases |more|
  {
    if |more| == 0 then ks
    else AddNew(if more[0] in ks then ks else ks + [more[0]], more[1..])
  }

  lemma {:induction false} SpreadKeys(acc: Entries, es: Entries)
    requires Distinct(Keys(acc))
    ensures Keys(Spread(acc, es)) == AddNew(Keys(acc), Keys(es))
    decreases |es|
  {
    if |es| > 0 {
      assert Keys(es) == [es[0].0] + Keys(es[1..]);
      SpreadKeys(Assign(acc, es[0].0, es[0].1), es[1..]);
    }
  }

  lemma {:induction false} AddNewDistinct(ks: seq<string>, more: seq<string>)
    requires Distinct(ks)
    ensures Distinct(AddNew(ks, more))
    ensures forall k :: k in AddNew(ks, more) <==> k in ks || k in more
    decreases |more|
  {
    if |more| > 0 {
      AddNewDistinct(if more[0] in ks then ks else ks + [more[0]], more[1..]);
    }
  }

  lemma {:induction false} AddNewAppend(ks: seq<string>, a: seq<string>, b: seq<string>)
    ensures AddNew(AddNew(ks, a), b) == AddNew(ks, a + b)
    decreases |a|
  {
    if |a| == 0 {
      assert a + b == b;
    } else {
      assert (a + b)[0] == a[0];
      assert (a + b)[1..] == a[1..] + b;
      AddNewAppend(if a[0] in ks then ks else ks + [a[0]], a[1..], b);
    }
  }

  /** Key order of the spread: every key once, at its first appearance across
      `dependencies` then `devDependencies`. */
  lemma MergeKeys(dependencies: Entries, devDependencies: Entries)
    ensures Keys(Merge(dependencies, devDependencies))
            == AddNew([], Keys(dependencies) + Keys(devDependencies))
    ensures Distinct(Keys(Merge(dependencies, devDependencies)))
  {
    SpreadKeys([], dependencies);
    SpreadKeys(Spread([], dependencies), devDependencies);
    AddNewAppend([], Keys(dependencies), Keys(devDependencies));
    AddNewDistinct([], Keys(dependencies) + Keys(devDependencies));
  }

  lemma {:induction false} SpreadLookup(acc: Entries, es: Entries, key: string)
    requires Distinct(Keys(acc))
    ensures Lookup(Spread(acc, es), key) == if key in Keys(es) then Lookup(es, key) else Lookup(acc, key)
    decreases |es|
  {
    if |es| > 0 {
      assert Keys(es) == [es[0].0] + Keys(es[1..]);
      SpreadLookup(Assign(acc, es[0].0, es[0].1), es[1..], key);
      AssignLookup(acc, es[0].0, es[0].1, key);
    }
  }

  /** Value of the spread: a devDependencies value overrides a dependencies one. */
  lemma MergeLookup(dependencies: Entries, devDependencies: Entries, key: string)
    ensures Lookup(Merge(dependencies, devDependencies), key)
            == if key in Keys(devDependencies) then Lookup(devDependencies, key)
               else Lookup(dependencies, key)
  {
    SpreadLookup(Spread([], dependencies), devDependencies, key);
    SpreadLookup([], dependencies, key);
  }

  /** With distinct keys, the value stored next to a key is its value. */
  lemma {:induction false} LookupDistinct(es: Entries, i: nat)
    requires i < |es| && Distinct(Keys(es))
    ensures Lookup(es, es[i].0) == Some(es[i].1)
    decreases |es|
  {
    assert Keys(es[1..]) == Keys(es)[1..];
    if i == 0 {
      assert es[0].0 !in Keys(es[1..]);
    } else {
      LookupDistinct(es[1..], i - 1);
    }
  }

  // ---------------------------------------------------------------------
  // Selecting the major dependencies
  // ---------------------------------------------------------------------

  const MaxExternalSystems := 5

  /** Type declarations and lint/format tooling are not architecture. */
  predicate IsTooling(name: string) {
    StartsWith(name, "@types/") || Contains(name, "eslint") || Contains(name, "prettier")
  }

  /** The entries whose name is not tooling, in their original order. */
  function WithoutTooling(es: Entries): (r: Entries)
    ensures forall p :: p in r <==> p in es && !IsTooling(p.0)
    ensures |r| <= |es|
  {
    if |es| == 0 then []
    else if IsTooling(es[0].0) then WithoutTooling(es[1..])
    else [es[0]] + WithoutTooling(es[1..])
  }

  /** The first five non-tooling entries of the merged object, each name kept
      with its version. */
  function MajorDependencies(merged: Entries): (r: Entries)
    ensures |r| == if |WithoutTooling(merged)| < MaxExternalSystems then |WithoutTooling(merged)| else MaxExternalSystems
    ensures r == WithoutTooling(merged)[..|r|]
    ensures forall p :: p in r ==> p in merged && !IsTooling(p.0)
  {
    var kept := WithoutTooling(merged);
    if |kept| <= MaxExternalSystems then
      assert kept[..|kept|] == kept;
      kept
    else
      assert forall p :: p in kept[..MaxExternalSystems] ==> p in kept;
      kept[..MaxExternalSystems]
  }

  /** The filter keeps relative order: filtering a concatenation is
      concatenating the filtered parts. */
  lemma {:induction false} WithoutToolingAppend(a: Entries, b: Entries)
    ensures WithoutTooling(a + b) == WithoutTooling(a) + WithoutTooling(b)
    decreases |a|
  {
    if |a| == 0 {
      assert a + b == b;
    } else {
      assert (a + b)[0] == a[0];
      assert (a + b)[1..] == a[1..] + b;
      WithoutToolingAppend(a[1..], b);
    }
  }

  /** A surviving entry sits in the filtered list right after the survivors
      that precede it. */
  lemma WithoutToolingPosition(es: Entries, i: nat)
    requires i < |es| && !IsTooling(es[i].0)
    ensures |WithoutTooling(es[..i])| < |WithoutTooling(es)|
    ensures WithoutTooling(es)[|WithoutTooling(es[..i])|] == es[i]
  {
    assert es == es[..i] + es[i..];
    WithoutToolingAppend(es[..i], es[i..]);
    assert es[i..][0] == es[i];
    assert es[i..][1..] == es[i + 1..];
    assert WithoutTooling(es[i..]) == [es[i]] + WithoutTooling(es[i + 1..]);
  }

  /** A survivor with fewer than five survivors before it is kept, at the
      position given by that count. */
  lemma KeptBeforeCap(merged: Entries, k: nat)
    requires k < |merged| && !IsTooling(merged[k].0)
    requires |WithoutTooling(merged[..k])| < MaxExternalSystems
    ensures |WithoutTooling(merged[..k])| < |MajorDependencies(merged)|
    ensures MajorDependencies(merged)[|WithoutTooling(merged[..k])|] == merged[k]
  {
    WithoutToolingPosition(merged, k);
  }

  /** Conversely, a survivor at index `k` is dropped only when five survivors
      come before it, and then exactly five are kept. */
  lemma DroppedOnlyPastCap(merged: Entries, k: nat)
    requires k < |merged| && !IsTooling(merged[k].0) && merged[k] !in MajorDependencies(merged)
    ensures |WithoutTooling(merged[..k])| >= MaxExternalSystems
    ensures |MajorDependencies(merged)| == MaxExternalSystems
  {
    WithoutToolingPosition(merged, k);
    KeptWhenEarly(merged, k);
  }

  lemma KeptWhenEarly(merged: Entries, k: nat)
    requires k < |merged| && !IsTooling(merged[k].0)
    ensures |WithoutTooling(merged[..k])| < MaxExternalSystems ==> merged[k] in MajorDependencies(merged)
  {
    if |WithoutTooling(merged[..k])| < MaxExternalSystems {
      KeptBeforeCap(merged, k);
    }
  }
}
