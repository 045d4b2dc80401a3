/** Long and short instrument names (`Device.init_names` in
    conductor/device/device.py and device/device.py). The short name is made
    unique against the names already in use by appending `[k]`. */
module ShortNames {
  import opened Wrappers
  import opened Text
  import opened Values

  datatype Names = Names(longName: string, shortName: string)

  /** `f'{name}[{k}]'`. */
  function Suffixed(name: string, k: nat): string {
    name + "[" + NatToString(k) + "]"
  }

  /** Different suffix numbers give different names. */
  lemma SuffixedInjective(name: string, a: nat, b: nat)
    requires Suffixed(name, a) == Suffixed(name, b)
    ensures a == b
  {
    var sa := Suffixed(name, a);
    var sb := Suffixed(name, b);
    var n := |name| + 1;
    assert |NatToString(a)| == |NatToString(b)|;
    assert NatToString(a) == sa[n..|sa| - 1];
    assert NatToString(b) == sb[n..|sb| - 1];
    NatToStringInjective(a, b);
  }

  /** The suffixed names `[1]` .. `[k-1]`. */
  ghost function Tried(name: string, k: nat): (s: set<string>)
    requires k >= 1
    ensures |s| == k - 1
    ensures forall j :: 1 <= j < k ==> Suffixed(name, j) in s
    ensures forall x :: x in s ==> exists j :: 1 <= j < k && x == Suffixed(name, j)
  {
    if k == 1 then {}
    else
      var prev := Tried(name, k - 1);
      assert Suffixed(name, k - 1) !in prev by {
        if Suffixed(name, k - 1) in prev {
          var j :| 1 <= j < k - 1 && Suffixed(name, k - 1) == Suffixed(name, j);
          SuffixedInjective(name, k - 1, j);
        }
      }
      prev + {Suffixed(name, k - 1)}
  }

  /** If the first k-1 suffixed names are all taken, there are at least k-1 names. */
  lemma TriedBound(name: string, existing: set<string>, k: nat)
    requires k >= 1
    requires forall j :: 1 <= j < k ==> Suffixed(name, j) in existing
    ensures k - 1 <= |existing|
  {
    var t := Tried(name, k);
    assert t <= existing;
    SubsetCardinality(t, existing);
  }

  lemma SubsetCardinality<T>(a: set<T>, b: set<T>)
    requires a <= b
    ensures |a| <= |b|
  {
    assert b == a + (b - a);
  }

  /** The smallest suffix number from `k` on whose name is free. */
  function FirstFreeFrom(name: string, existing: set<string>, k: nat): (r: nat)
    requires k >= 1
    requires forall j :: 1 <= j < k ==> Suffixed(name, j) in existing
    ensures r >= k && Suffixed(name, r) !in existing
    ensures forall j :: 1 <= j < r ==> Suffixed(name, j) in existing
    decreases |existing| - (k - 1)
  {
    TriedBound(name, existing, k);
    if Suffixed(name, k) !in existing then k
    else
      TriedBound(name, existing, k + 1);
      FirstFreeFrom(name, existing, k + 1)
  }

  /** The short name before uniquing: the prefix plus, for a TCPIP resource,
      the last '.'-separated field of the resource name. */
  function BaseShortName(resourceName: string, shortPrefix: string): string {
    if StartsWith(resourceName, "TCPIP") then
      var fields := Split(resourceName, '.');
      shortPrefix + fields[|fields| - 1]
    else shortPrefix
  }

  function Unique(base: string, existing: seq<string>): (r: string)
    ensures r !in existing
    ensures base !in existing ==> r == base
    ensures base in existing ==> exists k :: k >= 1 && r == Suffixed(base, k)
  {
    if base !in existing then base
    else Suffixed(base, FirstFreeFrom(base, set x | x in existing, 1))
  }

  /** The conductor version: `existing_names` may be None or empty, in which
      case the base name is kept; otherwise the smallest free `[k]` is added. */
  function InitNames(resourceName: string, longPrefix: string, shortPrefix: string,
                     existing: Option<seq<string>>): (r: Names)
    ensures r.longName == longPrefix + " @ " + resourceName
    ensures existing.Some? ==> r.shortName !in existing.value
    ensures (existing.None? || BaseShortName(resourceName, shortPrefix) !in existing.value)
              ==> r.shortName == BaseShortName(resourceName, shortPrefix)
  {
    var base := BaseShortName(resourceName, shortPrefix);
    var short := if existing.Some? && existing.value != [] then Unique(base, existing.value) else base;
    Names(longPrefix + " @ " + resourceName, short)
  }

  /** When a suffix is added it is the smallest free one. */
  lemma InitNamesSmallestSuffix(resourceName: string, longPrefix: string, shortPrefix: string,
                                existing: seq<string>)
    requires BaseShortName(resourceName, shortPrefix) in existing
    ensures var base := BaseShortName(resourceName, shortPrefix);
            exists k :: k >= 1
              && InitNames(resourceName, longPrefix, shortPrefix, Some(existing)).shortName == Suffixed(base, k)
              && forall j :: 1 <= j < k ==> Suffixed(base, j) in existing
  {
    var base := BaseShortName(resourceName, shortPrefix);
    var k := FirstFreeFrom(base, set x | x in existing, 1);
    assert InitNames(resourceName, longPrefix, shortPrefix, Some(existing)).shortName == Suffixed(base, k);
  }

  /** The pyvisa version: `existing_names` must be a collection; `None` makes
      the membership test raise TypeError. */
  function InitNamesVisa(resourceName: string, longPrefix: string, shortPrefix: string,
                         existing: Option<seq<string>>): (r: Result<Names, Values.Error>)
    ensures existing.None? <==> r == Failure(TypeError)
    ensures r.Success? ==> r.value.shortName !in existing.value
    ensures r.Success? ==> r.value.longName == longPrefix + " @ " + resourceName
    ensures existing.Some? ==> r == Success(InitNames(resourceName, longPrefix, shortPrefix, existing))
  {
    if existing.None? then Failure(TypeError)
    else
      var base := BaseShortName(resourceName, shortPrefix);
      Success(Names(longPrefix + " @ " + resourceName, Unique(base, existing.value)))
  }
}
