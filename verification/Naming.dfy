/** Finding a file name that is free, or that already holds the same bytes. */
module Naming {
  import opened Wrappers
  import opened Text

  /** `stem-k` with the suffix. */
  function Numbered(stem: string, suffix: string, k: nat): string {
    stem + "-" + Decimal(k) + suffix
  }

  lemma NumberedInjective(stem: string, suffix: string, j: nat, k: nat)
    requires Numbered(stem, suffix, j) == Numbered(stem, suffix, k)
    ensures j == k
  {
    var a, b := Numbered(stem, suffix, j), Numbered(stem, suffix, k);
    var m := |stem| + 1;
    assert a[m..|a| - |suffix|] == Decimal(j) && b[m..|b| - |suffix|] == Decimal(k);
    DecimalInjective(j, k);
  }

  /** The counters from 2 up to `k` were all found taken. */
  predicate Tried(names: set<string>, stem: string, suffix: string, k: nat) {
    k >= 2 && forall j: nat :: 2 <= j < k ==> Numbered(stem, suffix, j) in names
  }

  /** The pigeonhole: a finite directory holds only so many of the distinct names. */
  lemma {:induction false} Pigeonhole(names: set<string>, stem: string, suffix: string, k: nat)
    requires Tried(names, stem, suffix, k)
    ensures k - 2 <= |names|
    decreases k
  {
    if k > 2 {
      var last := Numbered(stem, suffix, k - 1);
      forall j: nat | 2 <= j < k - 1 ensures Numbered(stem, suffix, j) in names - {last} {
        if Numbered(stem, suffix, j) == last {
          NumberedInjective(stem, suffix, j, k - 1);
          assert false;
        }
      }
      Pigeonhole(names - {last}, stem, suffix, k - 1);
    }
  }

  /** The least free counter from `k` on. */
  function FirstFree(names: set<string>, stem: string, suffix: string, k: nat): (r: nat)
    requires Tried(names, stem, suffix, k)
    ensures r >= k && Numbered(stem, suffix, r) !in names && Tried(names, stem, suffix, r)
    decreases |names| + 2 - k
  {
    Pigeonhole(names, stem, suffix, k);
    if Numbered(stem, suffix, k) in names then
      Pigeonhole(names, stem, suffix, k + 1);
      FirstFree(names, stem, suffix, k + 1)
    else k
  }

  /** The loop that counts up while the name exists. It ends, whatever the directory holds. */
  method CountUp(names: set<string>, stem: string, suffix: string) returns (r: nat)
    ensures r == FirstFree(names, stem, suffix, 2)
    ensures Numbered(stem, suffix, r) !in names
  {
    r := 2;
    while Numbered(stem, suffix, r) in names
      invariant Tried(names, stem, suffix, r) && FirstFree(names, stem, suffix, 2) == FirstFree(names, stem, suffix, r)
      decreases |names| + 2 - r
    {
      Pigeonhole(names, stem, suffix, r + 1);
      r := r + 1;
    }
  }

  // --- stem and suffix of a path's last part ---------------------------------------------

  /** The index of the last `c`, or None. */
  function FindLast(s: string, c: char): (r: Option<nat>)
    ensures r.Some? ==> r.value < |s| && s[r.value] == c && c !in s[r.value + 1..]
    ensures r.None? <==> c !in s
  {
    if s == "" then None
    else if s[|s| - 1] == c then Some(|s| - 1)
    else
      var n := |s| - 1;
      var r := FindLast(s[..n], c);
      assert s == s[..n] + [s[n]];
      assert r.Some? ==> s[r.value + 1..] == s[..n][r.value + 1..] + [s[n]];
      r
  }

  /** `Path(name).suffix`: from the last dot on, unless that dot is the first or the last character. */
  function Suffix(name: string): (s: string)
    ensures |s| <= |name| && name[|name| - |s|..] == s
  {
    match FindLast(name, '.')
    case Some(i) => if 0 < i < |name| - 1 then name[i..] else ""
    case None => ""
  }

  /** `Path(name).stem` */
  function Stem(name: string): (s: string)
    ensures s + Suffix(name) == name
  {
    name[..|name| - |Suffix(name)|]
  }

  /** A stem without dots in front of a suffix leaves the suffix as it is. */
  lemma SuffixKept(stem: string, name: string)
    requires stem != "" && '.' !in stem
    ensures Suffix(stem + Suffix(name)) == Suffix(name)
  {
    var suffix := Suffix(name);
    var s := stem + suffix;
    if suffix != "" {
      var i := FindLast(name, '.').value;
      assert suffix == name[i..] && suffix[0] == '.' && suffix[1..] == name[i + 1..];
      LastUnique(s, '.', |stem|);
    } else {
      assert s == stem;
    }
  }

  lemma LastUnique(s: string, c: char, i: nat)
    requires i < |s| && s[i] == c && c !in s[i + 1..]
    ensures FindLast(s, c) == Some(i)
  {
    assert c in s;
    var j := FindLast(s, c).value;
    assert forall k :: i < k < |s| ==> s[k] == s[i + 1..][k - i - 1];
    assert forall k :: j < k < |s| ==> s[k] == s[j + 1..][k - j - 1];
  }

  // --- choosing a name ----------------------------------------------------------------------

  /** `_free_path`: the name itself when it is free or records the same digest, else the first free counter. */
  function FreeName(names: set<string>, recorded: map<string, string>, name: string, digest: Option<string>): (r: string)
    ensures r in names ==> r == name && digest.Some? && name in recorded && recorded[name] == digest.value
  {
    if name !in names || (digest.Some? && name in recorded && recorded[name] == digest.value) then name
    else Numbered(Stem(name), Suffix(name), FirstFree(names, Stem(name), Suffix(name), 2))
  }

  method FreePath(names: set<string>, recorded: map<string, string>, name: string, digest: Option<string>) returns (r: string)
    ensures r == FreeName(names, recorded, name, digest)
  {
    if name !in names {
      return name;
    }
    if digest.Some? {
      if name in recorded && recorded[name] == digest.value {
        return name;
      }
    }
    var counter := CountUp(names, Stem(name), Suffix(name));
    return Numbered(Stem(name), Suffix(name), counter);
  }

  /** `name[: -len(ext)]` when the name ends in `ext`. */
  function WithoutExt(name: string, ext: string): string {
    if ext != "" && |ext| <= |name| && name[|name| - |ext|..] == ext then name[..|name| - |ext|] else name
  }

  /** `_dedupe_name`: a name that is free, whatever the directory holds. */
  function Deduped(names: set<string>, name: string, ext: string): (r: string)
    ensures r !in names
  {
    if name !in names then name
    else Numbered(WithoutExt(name, ext), ext, FirstFree(names, WithoutExt(name, ext), ext, 2))
  }

  method DedupeName(names: set<string>, name: string, ext: string) returns (r: string)
    ensures r == Deduped(names, name, ext)
    ensures name in names ==>
              exists k: nat :: k >= 2 && r == Numbered(WithoutExt(name, ext), ext, k) && Tried(names, WithoutExt(name, ext), ext, k)
  {
    if name !in names {
      return name;
    }
    var counter := CountUp(names, WithoutExt(name, ext), ext);
    return Numbered(WithoutExt(name, ext), ext, counter);
  }

  /** The counter is the least that is free, so nothing before it was passed over. */
  lemma LeastFree(names: set<string>, recorded: map<string, string>, name: string, digest: Option<string>, k: nat)
    requires k >= 2 && FreeName(names, recorded, name, digest) == Numbered(Stem(name), Suffix(name), k)
    requires FreeName(names, recorded, name, digest) != name
    ensures forall j: nat :: 2 <= j < k ==> Numbered(Stem(name), Suffix(name), j) in names
  {
    NumberedInjective(Stem(name), Suffix(name), k, FirstFree(names, Stem(name), Suffix(name), 2));
  }
}
