/** How the glTF reader of rodeo-client/src/runtime/mesh.rs names bones: at most 90 bytes
    of the node's name, and a numbered suffix when that is taken. */
module BoneNames {
  import opened Finite
  import opened Numerals
  import opened Options
  import opened Utf8

  const MAX_NAME := 90

  type Name = seq<Byte>

  /** Decimal digits in ASCII. */
  function Decimal(n: nat): (d: Name)
    ensures d != []
  {
    if n < 10 then [0x30 + n] else Decimal(n / 10) + [0x30 + n % 10]
  }

  lemma {:induction false} DecimalInjective(a: nat, b: nat)
    requires Decimal(a) == Decimal(b)
    ensures a == b
  {
    var da, db := Decimal(a), Decimal(b);
    assert da[|da| - 1] == db[|db| - 1];
    if a >= 10 && b >= 10 {
      assert Decimal(a / 10) == da[..|da| - 1] && Decimal(b / 10) == db[..|db| - 1];
      DecimalInjective(a / 10, b / 10);
    }
  }

  /** What each byte of a numeral says. */
  ghost function Digits(d: Name): (digits: seq<nat>)
    requires forall i :: 0 <= i < |d| ==> 0x30 <= d[i] <= 0x39
    ensures |digits| == |d| && forall i :: 0 <= i < |d| ==> digits[i] == d[i] - 0x30
  {
    seq(|d|, i requires 0 <= i < |d| => d[i] - 0x30)
  }

  /** d is n in ASCII digits, the high ones first and no zero before them. */
  ghost predicate Numeral(d: Name, n: nat) {
    && d != [] && (forall i :: 0 <= i < |d| ==> 0x30 <= d[i] <= 0x39)
    && (|d| > 1 ==> d[0] != 0x30) && Value(Digits(d)) == n
  }

  lemma {:induction false} LeadingDigit(n: nat)
    requires n > 0
    ensures Decimal(n)[0] != 0x30
  {
    if n >= 10 { LeadingDigit(n / 10); }
  }

  lemma {:induction false} DecimalMeans(n: nat)
    ensures Numeral(Decimal(n), n)
  {
    var d := Decimal(n);
    if n < 10 {
      assert Digits(d) == [] + [n];
      ValueAppend([], n);
    } else {
      var before := Decimal(n / 10);
      DecimalMeans(n / 10);
      LeadingDigit(n / 10);
      assert Digits(d) == Digits(before) + [n % 10];
      ValueAppend(Digits(before), n % 10);
    }
  }

  lemma {:induction false} DecimalValid(n: nat)
    ensures Valid(Decimal(n))
  {
    if n >= 10 {
      DecimalValid(n / 10);
      ValidConcat(Decimal(n / 10), [0x30 + n % 10]);
    }
  }

  lemma {:induction false} DecimalLength(n: nat, k: nat)
    requires 0 < k && n < Pow10(k)
    ensures |Decimal(n)| <= k
  {
    if n >= 10 { DecimalLength(n / 10, k - 1); }
  }

  /** `format!("{name}_{n}")`. */
  function Numbered(name: Name, n: nat): Name {
    name + [0x5F] + Decimal(n)
  }

  lemma NumberedInjective(name: Name, a: nat, b: nat)
    requires Numbered(name, a) == Numbered(name, b)
    ensures a == b
  {
    assert Decimal(a) == Numbered(name, a)[|name| + 1..];
    assert Decimal(b) == Numbered(name, b)[|name| + 1..];
    DecimalInjective(a, b);
  }

  lemma NumberedValid(name: Name, n: nat)
    requires Valid(name)
    ensures Valid(Numbered(name, n))
  {
    DecimalValid(n);
    ValidConcat(name, [0x5F]);
    ValidConcat(name + [0x5F], Decimal(n));
  }

  /** The longest well-formed prefix of at most MAX_NAME bytes. */
  ghost predicate Truncated(short: Name, name: Name) {
    && short <= name && |short| <= MAX_NAME && Valid(short)
    && forall i :: |short| < i <= MAX_NAME && i <= |name| ==> !IsCharBoundary(name, i)
  }

  /** `while name.len() > 90 { name.pop(); }`, popping a whole character each time. */
  method Truncate(name: Name) returns (short: Name)
    requires Valid(name)
    ensures Truncated(short, name)
  {
    short := name;
    while |short| > MAX_NAME
      invariant short <= name && Valid(short)
      invariant forall i :: |short| < i <= MAX_NAME && i <= |name| ==> !IsCharBoundary(name, i)
      decreases |short|
    {
      var cut := |short| - 1;
      while !IsCharBoundary(short, cut)
        invariant 0 <= cut < |short|
        invariant forall i :: cut < i < |short| ==> !IsCharBoundary(name, i)
        decreases cut
      {
        assert short[cut] == name[cut];
        cut := cut - 1;
      }
      BoundaryIff(short, cut);
      short := short[..cut];
    }
  }

  // ------------------------------------------------------- which name, exactly

  /** short is own cut off behind its last whole character within 90 bytes. */
  ghost predicate Shortened(short: Name, own: Name) {
    && short <= own && |short| <= 90 && Valid(short)
    && forall i :: |short| < i <= 90 && i <= |own| ==> !Valid(own[..i])
  }

  lemma TruncatedIsShortened(short: Name, own: Name)
    requires Valid(own) && Truncated(short, own)
    ensures Shortened(short, own)
  {
    forall i: nat | |short| < i <= 90 && i <= |own| ensures !Valid(own[..i]) {
      assert !IsCharBoundary(own, i);
      if Valid(own[..i]) { BoundaryAfterPrefix(own, i); }
    }
  }

  /** name is short, an underscore and the number n. */
  ghost predicate Suffixed(name: Name, short: Name, n: nat) {
    exists d :: Numeral(d, n) && name == short + [0x5F] + d
  }

  /** name is the first of short, short_2, short_3, ... that is not taken. */
  ghost predicate FirstFree(taken: seq<Name>, short: Name, name: Name) {
    && name !in taken
    && (name == short
        || (short in taken
            && exists n: nat :: n >= 2 && Suffixed(name, short, n)
                 && forall k: nat :: 2 <= k < n ==> SomeSuffixed(taken, short, k)))
  }

  ghost predicate SomeSuffixed(taken: seq<Name>, short: Name, k: nat) {
    exists t :: t in taken && Suffixed(t, short, k)
  }

  /** The name joint j comes with, or "Bone" and its number. */
  ghost predicate OwnName(given: seq<Option<Name>>, j: nat, own: Name)
    requires j < |given|
  {
    if given[j].Some? then own == given[j].value
    else exists d :: Numeral(d, j) && own == [0x42, 0x6F, 0x6E, 0x65] + d
  }

  /** Joint j's name is the first free one after its own. */
  ghost predicate Picked(given: seq<Option<Name>>, names: seq<Name>, j: nat)
    requires j < |given| && j < |names|
  {
    exists own, short :: OwnName(given, j, own) && Shortened(short, own) && FirstFree(names[..j], short, names[j])
  }

  lemma NumberedSuffixed(short: Name, n: nat)
    ensures Suffixed(Numbered(short, n), short, n)
  {
    DecimalMeans(n);
  }

  lemma FreeIsFirst(names: seq<Name>, used: set<Name>, short: Name, name: Name, n: nat)
    requires used == Elements(names) && name !in used && n >= 2
    requires name == if n == 2 then short else Numbered(short, n - 1)
    requires 2 < n ==> short in used && forall k :: 2 <= k < n - 1 ==> Numbered(short, k) in used
    ensures FirstFree(names, short, name)
  {
    if n > 2 {
      NumberedSuffixed(short, n - 1);
      forall k: nat | 2 <= k < n - 1 ensures SomeSuffixed(names, short, k) {
        NumberedSuffixed(short, k);
        assert Numbered(short, k) in used;
        assert Suffixed(Numbered(short, k), short, k) && Numbered(short, k) in names;
      }
    }
  }

  /** The renaming loop. It stops because its candidates are pairwise different and only
      finitely many names are taken; it stops at the first free one. */
  method FreeName(name: Name, used: set<Name>) returns (candidate: Name, n: nat)
    ensures candidate !in used
    ensures 2 <= n <= |used| + 2
    ensures candidate == if n == 2 then name else Numbered(name, n - 1)
    ensures 2 < n ==> name in used && forall k :: 2 <= k < n - 1 ==> Numbered(name, k) in used
  {
    candidate := name;
    n := 2;
    ghost var tried: set<Name> := {};
    while candidate in used
      invariant 2 <= n
      invariant candidate == if n == 2 then name else Numbered(name, n - 1)
      invariant 2 < n ==> name in used && forall k :: 2 <= k < n - 1 ==> Numbered(name, k) in used
      invariant tried <= used && |tried| == n - 2
      invariant forall t :: t in tried ==> t == name || exists k :: 2 <= k < n - 1 && t == Numbered(name, k)
      decreases |used| - |tried|
    {
      assert candidate !in tried by {
        if candidate in tried {
          assert |Numbered(name, n)| > |name|;
          if n > 2 && candidate != name {
            var k :| 2 <= k < n - 1 && candidate == Numbered(name, k);
            NumberedInjective(name, k, n - 1);
          }
        }
      }
      SubsetSize(tried + {candidate}, used);
      tried := tried + {candidate};
      candidate := Numbered(name, n);
      n := n + 1;
    }
    SubsetSize(tried, used);
  }

  /** The name a joint starts from: its node's, or `Bone{j}`. */
  function BaseName(given: seq<Option<Name>>, j: nat): Name
    requires j < |given|
  {
    if given[j].Some? then given[j].value else [0x42, 0x6F, 0x6E, 0x65] + Decimal(j)
  }

  lemma BaseNameValid(given: seq<Option<Name>>, j: nat)
    requires j < |given| && (given[j].Some? ==> Valid(given[j].value))
    ensures Valid(BaseName(given, j))
  {
    if given[j].None? {
      ValidConcat([0x42], [0x6F]);
      ValidConcat([0x6E], [0x65]);
      assert [0x42, 0x6F] + [0x6E, 0x65] == [0x42, 0x6F, 0x6E, 0x65];
      assert [0x42] + [0x6F] == [0x42, 0x6F] && [0x6E] + [0x65] == [0x6E, 0x65];
      ValidConcat([0x42, 0x6F], [0x6E, 0x65]);
      DecimalValid(j);
      ValidConcat([0x42, 0x6F, 0x6E, 0x65], Decimal(j));
    }
  }

  ghost predicate Distinct(names: seq<Name>) {
    forall i, j :: 0 <= i < j < |names| ==> names[i] != names[j]
  }

  /** name is base cut off, with or without a number from 2 up. */
  ghost predicate NamedAfter(name: Name, base: Name) {
    exists short :: Truncated(short, base) && (name == short || exists n :: n >= 2 && name == Numbered(short, n))
  }

  lemma NumberedShort(short: Name, n: nat)
    requires |short| <= MAX_NAME && n < 10_000_000_000
    ensures |Numbered(short, n)| <= MAX_NAME + 11
  {
    assert Pow10(5) == 100_000;
    assert Pow10(10) == 10_000_000_000;
    DecimalLength(n, 10);
  }

  method NameJoint(base: Name, used: set<Name>) returns (name: Name)
    requires Valid(base) && |used| < 0x1_0000_0000
    ensures name !in used && NamedAfter(name, base)
    ensures Valid(name) && |name| <= MAX_NAME + 11
    ensures forall taken :: used == Elements(taken) ==> exists short :: Shortened(short, base) && FirstFree(taken, short, name)
  {
    var short := Truncate(base);
    var n;
    name, n := FreeName(short, used);
    TruncatedIsShortened(short, base);
    forall taken | used == Elements(taken) ensures FirstFree(taken, short, name) {
      FreeIsFirst(taken, used, short, name, n);
    }
    if n > 2 {
      NumberedValid(short, n - 1);
      NumberedShort(short, n - 1);
    }
  }

  /** What is promised of joint j's name. */
  ghost predicate Named(given: seq<Option<Name>>, names: seq<Name>, j: nat) {
    && j < |given| && j < |names| && Valid(names[j]) && |names[j]| <= MAX_NAME + 11
    && NamedAfter(names[j], BaseName(given, j)) && Picked(given, names, j)
  }

  type Judge = (seq<Name>, nat) -> bool

  ghost function Judging(given: seq<Option<Name>>): Judge {
    (names: seq<Name>, j: nat) => Named(given, names, j)
  }

  ghost predicate Each(ok: Judge, names: seq<Name>) {
    forall j: nat :: j < |names| ==> ok(names, j)
  }

  lemma EachNext(ok: Judge, names: seq<Name>, name: Name)
    requires Each(ok, names) && ok(names + [name], |names|)
    requires forall j: nat :: j < |names| && ok(names, j) ==> ok(names + [name], j)
    ensures Each(ok, names + [name])
  {
  }

  /** A name promised stays promised when more joints are named. */
  lemma NamedStays(given: seq<Option<Name>>, names: seq<Name>, name: Name, j: nat)
    requires j < |names| && Named(given, names, j)
    ensures Named(given, names + [name], j)
  {
    assert (names + [name])[..j] == names[..j];
  }

  lemma BaseIsOwn(given: seq<Option<Name>>, j: nat)
    requires j < |given|
    ensures OwnName(given, j, BaseName(given, j))
  {
    DecimalMeans(j);
  }

  lemma LastNamed(given: seq<Option<Name>>, names: seq<Name>, name: Name, short: Name)
    requires |names| < |given| && Valid(name) && |name| <= MAX_NAME + 11 && NamedAfter(name, BaseName(given, |names|))
    requires Shortened(short, BaseName(given, |names|)) && FirstFree(names, short, name)
    ensures Named(given, names + [name], |names|)
  {
    BaseIsOwn(given, |names|);
    assert (names + [name])[..|names|] == names;
  }

  lemma AllNamed(given: seq<Option<Name>>, names: seq<Name>)
    requires Each(Judging(given), names)
    ensures forall j: nat :: j < |names| ==> Named(given, names, j)
  {
    forall j: nat | j < |names| ensures Named(given, names, j) {
      assert Judging(given)(names, j);
    }
  }

  lemma NameNext(given: seq<Option<Name>>, names: seq<Name>, name: Name)
    requires Each(Judging(given), names) && Named(given, names + [name], |names|)
    ensures Each(Judging(given), names + [name])
    ensures Elements(names + [name]) == Elements(names) + {name}
  {
    forall j: nat | j < |names| && Judging(given)(names, j) ensures Judging(given)(names + [name], j) {
      NamedStays(given, names, name, j);
    }
    EachNext(Judging(given), names, name);
    assert (names + [name])[..|names|] == names;
  }

  /** One more joint named. */
  method NextName(given: seq<Option<Name>>, names: seq<Name>, used: set<Name>) returns (name: Name)
    requires |names| < |given| && used == Elements(names) && |used| < 0x1_0000_0000
    requires forall j :: 0 <= j < |given| && given[j].Some? ==> Valid(given[j].value)
    requires Distinct(names) && Each(Judging(given), names)
    ensures Elements(names + [name]) == used + {name} && |used + {name}| <= |used| + 1
    ensures Distinct(names + [name])
    ensures Each(Judging(given), names + [name])
  {
    BaseNameValid(given, |names|);
    name := NameJoint(BaseName(given, |names|), used);
    ghost var short :| Shortened(short, BaseName(given, |names|)) && FirstFree(names, short, name);
    LastNamed(given, names, name, short);
    NameNext(given, names, name);
  }

  /** The loop over the joints. */
  method NameAll(given: seq<Option<Name>>) returns (names: seq<Name>)
    requires |given| < 0x1_0000_0000
    requires forall j :: 0 <= j < |given| && given[j].Some? ==> Valid(given[j].value)
    ensures |names| == |given| && Distinct(names) && Each(Judging(given), names)
  {
    names := [];
    var used: set<Name> := {};
    for j := 0 to |given|
      invariant |names| == j && Distinct(names)
      invariant used == Elements(names) && |used| <= j
      invariant Each(Judging(given), names)
    {
      var name := NextName(given, names, used);
      used := used + {name};
      names := names + [name];
    }
  }

  /** All joints named: pairwise distinct, well formed, and none longer than the cut-off
      plus a separator and the digits of its number; each is the first free one after
      its own. */
  method NameJoints(given: seq<Option<Name>>) returns (names: seq<Name>)
    requires |given| < 0x1_0000_0000
    requires forall j :: 0 <= j < |given| && given[j].Some? ==> Valid(given[j].value)
    ensures |names| == |given| && Distinct(names)
    ensures forall j: nat :: j < |names| ==> Named(given, names, j)
  {
    names := NameAll(given);
    AllNamed(given, names);
  }
}
