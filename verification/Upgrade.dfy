/** Choosing the release to upgrade to: precedence of versions as in section 11 of SemVer 2.0.0,
    with this repository's two spellings of release candidates made one, and the search through
    the pages of the release listing. */
module Upgrade {
  import opened Octets

  // ---------------------------------------------------------------- order

  datatype Order = Less | Equal | Greater {
    function Flip(): Order {
      match this
      case Less => Greater
      case Equal => Equal
      case Greater => Less
    }

    function Then(next: Order): Order {
      if Equal? then next else this
    }
  }

  function CompareInts(a: int, b: int): Order {
    if a < b then Less else if a == b then Equal else Greater
  }

  /** Byte-wise order of identifiers. */
  function CompareText(a: string, b: string): Order
    decreases |a|
  {
    if a == [] || b == [] then CompareInts(|a|, |b|)
    else CompareInts(a[0] as int, b[0] as int).Then(CompareText(a[1..], b[1..]))
  }

  predicate IsDigit(c: char) {
    '0' <= c <= '9'
  }

  predicate Numeric(s: string) {
    forall i :: 0 <= i < |s| ==> IsDigit(s[i])
  }

  /** The comparison of one dot-separated identifier: numbers by length, then byte-wise, and below
      everything else. */
  function CompareIdentifier(a: string, b: string): Order {
    if Numeric(a) then if Numeric(b) then CompareInts(|a|, |b|).Then(CompareText(a, b)) else Less
    else if Numeric(b) then Greater else CompareText(a, b)
  }

  function CompareFields(a: seq<string>, b: seq<string>): Order
    decreases |a|
  {
    if a == [] || b == [] then CompareInts(|a|, |b|).Then(Equal)
    else CompareIdentifier(a[0], b[0]).Then(CompareFields(a[1..], b[1..]))
  }

  /** No prerelease is the release itself and comes last. */
  function ComparePre(a: seq<string>, b: seq<string>): Order {
    if a == [] then if b == [] then Equal else Greater
    else if b == [] then Less else CompareFields(a, b)
  }

  /** A version; the prerelease as its identifiers. */
  datatype Version = Version(major: u64, minor: u64, patch: u64, pre: seq<string>, build: string)

  /** `Version::cmp_precedence`: build metadata does not count. */
  function Compare(a: Version, b: Version): Order {
    CompareInts(a.major, b.major).Then(
      CompareInts(a.minor, b.minor).Then(
        CompareInts(a.patch, b.patch).Then(ComparePre(a.pre, b.pre))))
  }

  // ---------------------------------------------------------------- a total preorder

  /** The laws of a total preorder for one triple: comparing the other way round flips, and the
      order goes through the middle, strictly if either step is strict. */
  predicate Lawful(ab: Order, ba: Order, bc: Order, ac: Order) {
    && ba == ab.Flip()
    && (ab != Greater && bc != Greater ==> ac == ab.Then(bc))
  }

  lemma {:induction false} TextLawful(a: string, b: string, c: string)
    ensures Lawful(CompareText(a, b), CompareText(b, a), CompareText(b, c), CompareText(a, c))
    decreases |a|
  {
    if a != [] && b != [] {
      TextLawful(a[1..], b[1..], if c == [] then [] else c[1..]);
    }
  }

  lemma IdentifierLawful(a: string, b: string, c: string)
    ensures Lawful(CompareIdentifier(a, b), CompareIdentifier(b, a), CompareIdentifier(b, c), CompareIdentifier(a, c))
  {
    hide CompareText, Numeric;
    TextLawful(a, b, c);
  }

  lemma {:induction false} FieldsLawful(a: seq<string>, b: seq<string>, c: seq<string>)
    ensures Lawful(CompareFields(a, b), CompareFields(b, a), CompareFields(b, c), CompareFields(a, c))
    decreases |a|
  {
    hide CompareIdentifier;
    if a != [] && b != [] {
      FieldsLawful(a[1..], b[1..], if c == [] then [] else c[1..]);
      IdentifierLawful(a[0], b[0], if c == [] then [] else c[0]);
    }
  }

  /** Precedence is a total preorder. */
  lemma PrecedenceLawful(a: Version, b: Version, c: Version)
    ensures Lawful(Compare(a, b), Compare(b, a), Compare(b, c), Compare(a, c))
    ensures Compare(a, a) == Equal
  {
    hide CompareFields;
    FieldsLawful(a.pre, b.pre, c.pre);
    FieldsLawful(a.pre, a.pre, a.pre);
  }

  // ---------------------------------------------------------------- numbers

  /** The number a string of digits denotes. */
  function Value(s: string): nat
    requires Numeric(s)
  {
    if s == [] then 0 else 10 * Value(s[..|s| - 1]) + (s[|s| - 1] - '0') as nat
  }

  /** A numeric identifier of SemVer: no leading zero but for zero itself. */
  predicate Canonical(s: string) {
    Numeric(s) && s != [] && (|s| > 1 ==> s[0] != '0')
  }

  function Power10(n: nat): nat {
    if n == 0 then 1 else 10 * Power10(n - 1)
  }

  /** Without a leading zero, length bounds the value from both sides. */
  lemma {:induction false} ValueBounds(s: string)
    requires Numeric(s)
    ensures Value(s) < Power10(|s|)
    ensures s != [] && s[0] != '0' ==> Value(s) >= Power10(|s| - 1)
  {
    if |s| > 1 {
      ValueBounds(s[..|s| - 1]);
    }
  }

  lemma {:induction false} LongerIsMore(m: nat, n: nat)
    requires m <= n
    ensures Power10(m) <= Power10(n)
  {
    if m < n {
      LongerIsMore(m, n - 1);
    }
  }

  /** Byte-wise order splits at the last digit too. */
  lemma {:induction false} TextFromTheEnd(a: string, b: string)
    requires |a| == |b| > 0
    ensures CompareText(a, b)
            == CompareText(a[..|a| - 1], b[..|b| - 1]).Then(CompareInts(a[|a| - 1] as int, b[|b| - 1] as int))
  {
    if |a| > 1 {
      TextFromTheEnd(a[1..], b[1..]);
      assert a[1..][..|a| - 2] == a[..|a| - 1][1..];
      assert b[1..][..|b| - 2] == b[..|b| - 1][1..];
    } else {
      assert a[1..] == [] && b[1..] == [];
    }
  }

  lemma {:induction false} SameLengthByValue(a: string, b: string)
    requires Numeric(a) && Numeric(b) && |a| == |b|
    ensures CompareText(a, b) == Less <==> Value(a) < Value(b)
    ensures CompareText(a, b) == Equal <==> Value(a) == Value(b)
    ensures Value(a) == Value(b) <==> a == b
  {
    if a != [] {
      SameLengthByValue(a[..|a| - 1], b[..|b| - 1]);
      TextFromTheEnd(a, b);
      assert a == a[..|a| - 1] + [a[|a| - 1]] && b == b[..|b| - 1] + [b[|b| - 1]];
    }
  }

  /** Comparing canonical numbers by length and bytes is comparing their values, of any size. */
  lemma NumericByValue(a: string, b: string)
    requires Canonical(a) && Canonical(b)
    ensures CompareIdentifier(a, b) == Less <==> Value(a) < Value(b)
    ensures CompareIdentifier(a, b) == Equal <==> Value(a) == Value(b)
    ensures Value(a) == Value(b) <==> a == b
  {
    if |a| == |b| {
      SameLengthByValue(a, b);
    } else if |a| < |b| {
      ValueBounds(a);
      ValueBounds(b);
      LongerIsMore(|a|, |b| - 1);
    } else {
      ValueBounds(a);
      ValueBounds(b);
      LongerIsMore(|b|, |a| - 1);
    }
  }

  // ---------------------------------------------------------------- section 11 of SemVer

  /** The digits, and nothing else, are the characters of numbers. */
  lemma NumericByCharacter(s: string)
    ensures Numeric(s) <==> forall i :: 0 <= i < |s| ==> s[i] in "0123456789"
  {
    forall c: char
      ensures IsDigit(c) <==> c in "0123456789"
    {
      DigitIs(c);
    }
  }

  lemma DigitIs(c: char)
    ensures IsDigit(c) <==> c in "0123456789"
  {
    if IsDigit(c) {
      assert c == '0' || c == '1' || c == '2' || c == '3' || c == '4' || c == '5' || c == '6' || c == '7'
             || c == '8' || c == '9';
    }
  }

  /** Lexical order: a proper prefix comes first, otherwise the first differing character decides. */
  ghost predicate TextBefore(a: string, b: string) {
    a < b || exists k :: FirstDiffers(a, b, k) && a[k] < b[k]
  }

  predicate FirstDiffers<T(==)>(a: seq<T>, b: seq<T>, k: int) {
    0 <= k < |a| && k < |b| && a[..k] == b[..k] && a[k] != b[k]
  }

  lemma {:induction false} TextIsLexical(a: string, b: string)
    ensures CompareText(a, b) == Less <==> TextBefore(a, b)
    ensures CompareText(a, b) == Equal <==> a == b
    decreases |a|
  {
    if a == [] || b == [] {
      assert a == [] && b != [] ==> a < b;
    } else if a[0] == b[0] {
      TextIsLexical(a[1..], b[1..]);
      assert a == [a[0]] + a[1..] && b == [b[0]] + b[1..];
      if TextBefore(a[1..], b[1..]) && !(a[1..] < b[1..]) {
        var k :| FirstDiffers(a[1..], b[1..], k) && a[1..][k] < b[1..][k];
        assert FirstDiffers(a, b, k + 1) && a[k + 1] < b[k + 1];
      }
      if TextBefore(a, b) && !(a < b) {
        var k :| FirstDiffers(a, b, k) && a[k] < b[k];
        assert FirstDiffers(a[1..], b[1..], k - 1) by { TailDiffers(a, b, k); }
        assert a[1..][k - 1] < b[1..][k - 1];
      }
    } else {
      if a[0] < b[0] {
        assert FirstDiffers(a, b, 0);
      }
      if TextBefore(a, b) {
        var k :| FirstDiffers(a, b, k) && a[k] < b[k];
        HeadsDiffer(a, b, k);
      }
    }
  }

  lemma TailDiffers<T>(a: seq<T>, b: seq<T>, k: int)
    requires FirstDiffers(a, b, k) && a[0] == b[0]
    ensures k > 0 && FirstDiffers(a[1..], b[1..], k - 1)
  {
    assert a[1..][..k - 1] == a[..k][1..] && b[1..][..k - 1] == b[..k][1..];
  }

  lemma HeadsDiffer<T>(a: seq<T>, b: seq<T>, k: int)
    requires FirstDiffers(a, b, k) && a[0] != b[0]
    ensures k == 0
  {
  }

  /** Numbers by value and below all text, text lexically. */
  ghost predicate IdentifierBefore(a: string, b: string) {
    if Numeric(a) && Numeric(b) then Value(a) < Value(b)
    else if Numeric(a) || Numeric(b) then Numeric(a)
    else TextBefore(a, b)
  }

  /** Identifiers as a parsed version has them. */
  predicate WellFormed(a: string) {
    a != [] && (Numeric(a) ==> Canonical(a))
  }

  lemma IdentifierDecides(a: string, b: string)
    requires WellFormed(a) && WellFormed(b)
    ensures CompareIdentifier(a, b) == Less <==> IdentifierBefore(a, b)
    ensures CompareIdentifier(a, b) == Equal <==> a == b
  {
    hide Numeric, CompareText, Value;
    TextIsLexical(a, b);
    if Numeric(a) && Numeric(b) {
      NumericByValue(a, b);
    }
  }

  ghost predicate FieldsBefore(a: seq<string>, b: seq<string>) {
    a < b || exists k :: FirstDiffers(a, b, k) && IdentifierBefore(a[k], b[k])
  }

  predicate AllWellFormed(a: seq<string>) {
    forall i :: 0 <= i < |a| ==> WellFormed(a[i])
  }

  lemma {:induction false} FieldsDecide(a: seq<string>, b: seq<string>)
    requires AllWellFormed(a) && AllWellFormed(b)
    ensures CompareFields(a, b) == Less <==> FieldsBefore(a, b)
    ensures CompareFields(a, b) == Equal <==> a == b
    decreases |a|
  {
    hide CompareIdentifier, IdentifierBefore, WellFormed;
    if a == [] || b == [] {
      assert a == [] && b != [] ==> a < b;
    } else {
      IdentifierDecides(a[0], b[0]);
      if a[0] == b[0] {
        FieldsDecide(a[1..], b[1..]);
        assert a == [a[0]] + a[1..] && b == [b[0]] + b[1..];
        if FieldsBefore(a[1..], b[1..]) && !(a[1..] < b[1..]) {
          var k :| FirstDiffers(a[1..], b[1..], k) && IdentifierBefore(a[1..][k], b[1..][k]);
          assert FirstDiffers(a, b, k + 1) && IdentifierBefore(a[k + 1], b[k + 1]);
        }
        if FieldsBefore(a, b) && !(a < b) {
          var k :| FirstDiffers(a, b, k) && IdentifierBefore(a[k], b[k]);
          TailDiffers(a, b, k);
          assert IdentifierBefore(a[1..][k - 1], b[1..][k - 1]);
        }
      } else {
        if IdentifierBefore(a[0], b[0]) {
          assert FirstDiffers(a, b, 0);
        }
        if FieldsBefore(a, b) {
          var k :| FirstDiffers(a, b, k) && IdentifierBefore(a[k], b[k]);
          HeadsDiffer(a, b, k);
        }
      }
    }
  }

  /** Section 11 of SemVer 2.0.0: major, minor and patch decide in that order; with those equal a
      prerelease comes before its release, and prereleases go by their first differing identifier. */
  ghost predicate Precedes(a: Version, b: Version) {
    || a.major < b.major
    || (a.major == b.major && a.minor < b.minor)
    || (a.major == b.major && a.minor == b.minor && a.patch < b.patch)
    || (a.major == b.major && a.minor == b.minor && a.patch == b.patch && PreBefore(a.pre, b.pre))
  }

  ghost predicate PreBefore(a: seq<string>, b: seq<string>) {
    a != [] && (b == [] || FieldsBefore(a, b))
  }

  /** The comparison is the precedence of SemVer. */
  lemma PrecedenceIsSemVer(a: Version, b: Version)
    requires AllWellFormed(a.pre) && AllWellFormed(b.pre)
    ensures Compare(a, b) == Less <==> Precedes(a, b)
    ensures Compare(a, b) == Greater <==> Precedes(b, a)
    ensures Compare(a, b) == Equal
            <==> a.major == b.major && a.minor == b.minor && a.patch == b.patch && a.pre == b.pre
  {
    hide CompareFields, FieldsBefore, AllWellFormed;
    FieldsDecide(a.pre, b.pre);
    FieldsDecide(b.pre, a.pre);
    FieldsLawful(a.pre, b.pre, a.pre);
  }

  // ---------------------------------------------------------------- release candidates

  const RC: string := "rc"

  function TrimZeros(s: string): string {
    if s != [] && s[0] == '0' then TrimZeros(s[1..]) else s
  }

  /** `upgrade_version_precedence`: `rcN` is read as `rc.N`. */
  function Normalised(v: Version): Version {
    if |v.pre| == 1 && RC <= v.pre[0] && |v.pre[0]| > 2 && Numeric(v.pre[0][2..]) then
      var number := TrimZeros(v.pre[0][2..]);
      v.(pre := [RC, if number == [] then "0" else number])
    else v
  }

  lemma {:induction false} TrimKeepsValue(s: string)
    requires Numeric(s)
    ensures var t := TrimZeros(s); Numeric(t) && Value(t) == Value(s) && (t != [] ==> t[0] != '0')
  {
    if s != [] && s[0] == '0' {
      TrimKeepsValue(s[1..]);
      LeadingZero(s);
    }
  }

  lemma {:induction false} LeadingZero(s: string)
    requires Numeric(s) && s != [] && s[0] == '0'
    ensures Value(s[1..]) == Value(s)
  {
    if |s| > 1 {
      LeadingZero(s[..|s| - 1]);
      assert s[..|s| - 1][1..] == s[1..][..|s| - 2];
    } else {
      assert s[1..] == [];
    }
  }

  /** The two spellings of candidate number n of a release. */
  predicate CandidateOf(v: Version, digits: string) {
    || (v.pre == [RC + digits] && Numeric(digits) && digits != [])
    || (v.pre == [RC, digits] && Canonical(digits))
  }

  lemma NormalisedCandidate(v: Version, digits: string)
    requires CandidateOf(v, digits)
    ensures var n := Normalised(v);
            |n.pre| == 2 && n == v.(pre := [RC, n.pre[1]]) && Canonical(n.pre[1]) && Numeric(digits)
            && Value(n.pre[1]) == Value(digits)
  {
    if v.pre == [RC + digits] {
      assert v.pre[0][2..] == digits;
      TrimKeepsValue(digits);
      assert Value("0") == 0;
    }
  }

  /** Candidates of one release are ordered by their numbers, however they are spelled: rc2 before
      rc10, rc.9 before rc10, rc10 equal to rc.10. */
  lemma CandidatesByNumber(v: Version, w: Version, m: string, n: string)
    requires CandidateOf(v, m) && CandidateOf(w, n)
    requires v.major == w.major && v.minor == w.minor && v.patch == w.patch
    ensures Numeric(m) && Numeric(n)
    ensures Compare(Normalised(v), Normalised(w)) == Less <==> Value(m) < Value(n)
    ensures Compare(Normalised(v), Normalised(w)) == Equal <==> Value(m) == Value(n)
  {
    NormalisedCandidate(v, m);
    NormalisedCandidate(w, n);
    var a, b := Normalised(v).pre, Normalised(w).pre;
    NumericByValue(a[1], b[1]);
    hide CompareIdentifier, Normalised, CompareFields;
    assert a == [RC, a[1]] && b == [RC, b[1]];
    SecondField(RC, a[1], b[1]);
  }

  lemma SecondField(first: string, a: string, b: string)
    ensures CompareFields([first, a], [first, b]) == CompareIdentifier(a, b)
  {
    hide CompareIdentifier;
    SameIdentifier(first);
    assert [first, a][1..] == [a] && [first, b][1..] == [b] && [a][1..] == [] && [b][1..] == [];
    assert CompareFields([a], [b]) == CompareIdentifier(a, b);
  }

  lemma SameIdentifier(s: string)
    ensures CompareIdentifier(s, s) == Equal
  {
    IdentifierLawful(s, s, s);
  }

  // ---------------------------------------------------------------- the listing

  /** A published release; `tag` is its tag read as a canonical version, if it is one. */
  datatype Release = Release(tag: Option<Version>, draft: bool, prerelease: bool, asset: string)

  /** `parse_upgrade_version`: prereleases must end with a release number. */
  function UpgradeVersion(tag: Option<Version>): Option<Version> {
    if tag.None? then None else
    var pre := tag.value.pre;
    if pre == [] then tag else
    var last := pre[|pre| - 1];
    if last != [] && IsDigit(last[|last| - 1]) then tag else None
  }

  function Eligible(r: Release, includePrerelease: bool): Option<Version> {
    if r.draft || (!includePrerelease && r.prerelease) then None else
    var v := UpgradeVersion(r.tag);
    if v.Some? && (includePrerelease || v.value.pre == []) then v else None
  }

  function Key(r: Release): Version
    requires Eligible(r, true).Some?
  {
    Normalised(Eligible(r, true).value)
  }

  /** The first of the eligible releases of greatest precedence. */
  predicate IsBest(rs: seq<Release>, i: nat) {
    && i < |rs| && Eligible(rs[i], true).Some?
    && (forall j :: 0 <= j < i && Eligible(rs[j], true).Some? ==> Compare(Key(rs[j]), Key(rs[i])) == Less)
    && (forall j :: i < j < |rs| && Eligible(rs[j], true).Some? ==> Compare(Key(rs[j]), Key(rs[i])) != Greater)
  }

  predicate NoneEligible(rs: seq<Release>) {
    forall j :: 0 <= j < |rs| ==> Eligible(rs[j], true).None?
  }

  /** Who is eligible: no draft, with a canonical version as its tag, and if that is a prerelease
      ending in a digit; without prereleases neither marked as one nor tagged as one. */
  lemma EligibleExactly(r: Release, includePrerelease: bool)
    ensures Eligible(r, includePrerelease).Some? <==>
              && !r.draft && r.tag.Some?
              && (includePrerelease || (!r.prerelease && r.tag.value.pre == []))
              && var pre := r.tag.value.pre;
                 pre == [] || (pre[|pre| - 1] != [] && pre[|pre| - 1][|pre[|pre| - 1]| - 1] in "0123456789")
    ensures Eligible(r, includePrerelease).Some? ==> Eligible(r, includePrerelease) == r.tag
  {
    if r.tag.Some? && r.tag.value.pre != [] {
      var pre := r.tag.value.pre;
      var last := pre[|pre| - 1];
      if last != [] {
        DigitIs(last[|last| - 1]);
      }
    }
  }

  /** Only candidates written in one identifier are rewritten, and only their prerelease. */
  lemma NormalisedOnlyCandidates(v: Version)
    ensures (|v.pre| == 1 && |v.pre[0]| > 2 && v.pre[0][..2] == "rc"
             && forall i :: 2 <= i < |v.pre[0]| ==> v.pre[0][i] in "0123456789")
            || Normalised(v) == v
    ensures Normalised(v) == v.(pre := Normalised(v).pre)
    ensures AllWellFormed(v.pre) ==> AllWellFormed(Normalised(v).pre)
  {
    if |v.pre| == 1 && |v.pre[0]| > 2 && RC <= v.pre[0] && Numeric(v.pre[0][2..]) {
      var digits := v.pre[0][2..];
      NumericByCharacter(digits);
      assert forall i :: 2 <= i < |v.pre[0]| ==> v.pre[0][i] == digits[i - 2];
      assert v.pre[0] == RC + digits;
      NormalisedCandidate(v, digits);
      assert RC[0] == 'r' && !IsDigit('r');
    }
  }

  /** The chosen release, in the terms of SemVer: every eligible one before it strictly precedes it,
      and it precedes none. */
  lemma BestBySemVer(rs: seq<Release>, i: nat)
    requires forall j :: 0 <= j < |rs| && rs[j].tag.Some? ==> AllWellFormed(rs[j].tag.value.pre)
    ensures IsBest(rs, i) <==>
              && i < |rs| && Eligible(rs[i], true).Some?
              && (forall j :: 0 <= j < i && Eligible(rs[j], true).Some? ==> Precedes(Key(rs[j]), Key(rs[i])))
              && (forall j :: 0 <= j < |rs| && Eligible(rs[j], true).Some? ==> !Precedes(Key(rs[i]), Key(rs[j])))
  {
    hide Compare, Eligible, Normalised, Precedes, AllWellFormed;
    if i < |rs| && Eligible(rs[i], true).Some? {
      KeyWellFormed(rs[i]);
      forall j | 0 <= j < |rs| && Eligible(rs[j], true).Some?
        ensures Compare(Key(rs[j]), Key(rs[i])) == Less <==> Precedes(Key(rs[j]), Key(rs[i]))
        ensures Compare(Key(rs[j]), Key(rs[i])) == Greater <==> Precedes(Key(rs[i]), Key(rs[j]))
      {
        KeyWellFormed(rs[j]);
        PrecedenceIsSemVer(Key(rs[j]), Key(rs[i]));
      }
      PrecedenceIsSemVer(Key(rs[i]), Key(rs[i]));
      PrecedenceLawful(Key(rs[i]), Key(rs[i]), Key(rs[i]));
    }
  }

  lemma KeyWellFormed(r: Release)
    requires Eligible(r, true).Some?
    requires r.tag.Some? ==> AllWellFormed(r.tag.value.pre)
    ensures AllWellFormed(Key(r).pre)
  {
    hide Normalised, AllWellFormed;
    EligibleExactly(r, true);
    NormalisedOnlyCandidates(Eligible(r, true).value);
  }

  datatype Choice = Chosen(release: Release) | NothingFound | TooManyPages | Unreachable

  const PAGE: nat := 100
  const MAX_PAGES: nat := 100

  /** What the first n pages hold together. */
  function Pages(fetch: nat -> Option<seq<Release>>, n: nat): seq<Release> {
    if n == 0 then [] else
    Pages(fetch, n - 1) + (if fetch(n).Some? then fetch(n).value else [])
  }

  /** The release the loop holds after having looked at `rs`. */
  ghost predicate Holds(rs: seq<Release>, latest: Option<(Version, Release)>) {
    match latest
    case None => NoneEligible(rs)
    case Some((key, r)) => exists i: nat :: IsBest(rs, i) && rs[i] == r && Key(r) == key
  }

  lemma OneMore(rs: seq<Release>, latest: Option<(Version, Release)>, r: Release)
    requires Holds(rs, latest)
    ensures Eligible(r, true).None? ==> Holds(rs + [r], latest)
    ensures Eligible(r, true).Some? ==>
              Holds(rs + [r], if latest.None? || Compare(Key(r), latest.value.0) == Greater
                              then Some((Key(r), r)) else latest)
  {
    hide Compare, Eligible, Normalised;
    var all := rs + [r];
    if latest.Some? {
      var i: nat :| IsBest(rs, i) && rs[i] == latest.value.1 && Key(latest.value.1) == latest.value.0;
      if Eligible(r, true).Some? && Compare(Key(r), Key(rs[i])) == Greater {
        NewBest(rs, i, r);
        assert all[|rs|] == r;
      } else {
        SameBest(rs, i, r);
        assert all[i] == rs[i];
      }
    } else if Eligible(r, true).Some? {
      assert IsBest(all, |rs|) by { FirstBest(rs, r); }
      assert all[|rs|] == r;
    }
  }

  lemma FirstBest(rs: seq<Release>, r: Release)
    requires NoneEligible(rs) && Eligible(r, true).Some?
    ensures IsBest(rs + [r], |rs|)
  {
    hide Compare, Eligible, Normalised;
  }

  lemma SameBest(rs: seq<Release>, i: nat, r: Release)
    requires IsBest(rs, i) && (Eligible(r, true).Some? ==> Compare(Key(r), Key(rs[i])) != Greater)
    ensures IsBest(rs + [r], i)
  {
    hide Compare, Eligible, Normalised;
  }

  lemma NewBest(rs: seq<Release>, i: nat, r: Release)
    requires IsBest(rs, i) && Eligible(r, true).Some? && Compare(Key(r), Key(rs[i])) == Greater
    ensures IsBest(rs + [r], |rs|)
  {
    hide Compare, Eligible, Normalised;
    forall j | 0 <= j < |rs| && Eligible(rs[j], true).Some?
      ensures Compare(Key(rs[j]), Key(r)) == Less
    {
      PrecedenceLawful(Key(rs[j]), Key(rs[i]), Key(r));
      PrecedenceLawful(Key(r), Key(rs[i]), Key(rs[i]));
      PrecedenceLawful(Key(rs[i]), Key(r), Key(r));
    }
  }

  lemma NothingHeld()
    ensures Holds([], None)
  {
  }

  /** `fetch_release` with prereleases included: page by page until a short one. */
  method FetchLatest(fetch: nat -> Option<seq<Release>>) returns (choice: Choice)
    ensures choice.Chosen? ==> exists n: nat, i: nat ::
              && 1 <= n <= 100 && fetch(n).Some? && |fetch(n).value| < 100
              && (forall k :: 1 <= k < n ==> fetch(k).Some? && |fetch(k).value| >= 100)
              && IsBest(Pages(fetch, n), i) && Pages(fetch, n)[i] == choice.release
    ensures choice == NothingFound ==> exists n: nat ::
              && 1 <= n <= 100 && fetch(n).Some? && |fetch(n).value| < 100
              && (forall k :: 1 <= k < n ==> fetch(k).Some? && |fetch(k).value| >= 100)
              && NoneEligible(Pages(fetch, n))
    ensures choice == TooManyPages <==> forall k :: 1 <= k <= 100 ==> fetch(k).Some? && |fetch(k).value| >= 100
    ensures choice == Unreachable ==> exists n: nat ::
              && 1 <= n <= 100 && fetch(n).None?
              && (forall k :: 1 <= k < n ==> fetch(k).Some? && |fetch(k).value| >= 100)
  {
    hide Compare, Eligible, Normalised, NoneEligible;
    var latest: Option<(Version, Release)> := None;
    assert Holds([], latest) by { NothingHeld(); }
    for page := 1 to MAX_PAGES + 1
      invariant forall k :: 1 <= k < page ==> fetch(k).Some? && |fetch(k).value| >= PAGE
      invariant Holds(Pages(fetch, page - 1), latest)
    {
      var reply := fetch(page);
      if reply.None? {
        return Unreachable;
      }
      latest := LookAt(reply.value, Pages(fetch, page - 1), latest);
      if |reply.value| < PAGE {
        if latest.None? {
          return NothingFound;
        }
        ghost var i: nat :| IsBest(Pages(fetch, page), i) && Pages(fetch, page)[i] == latest.value.1;
        return Chosen(latest.value.1);
      }
    }
    return TooManyPages;
  }

  /** The inner loop over one page. */
  method LookAt(releases: seq<Release>, ghost before: seq<Release>, latest0: Option<(Version, Release)>)
    returns (latest: Option<(Version, Release)>)
    requires Holds(before, latest0)
    ensures Holds(before + releases, latest)
  {
    hide Holds, Compare, Eligible, Normalised;
    latest := latest0;
    assert before + releases[..0] == before;
    for i := 0 to |releases|
      invariant Holds(before + releases[..i], latest)
    {
      var release := releases[i];
      OneMore(before + releases[..i], latest, release);
      assert before + releases[..i] + [release] == before + releases[..i + 1];
      var version := Eligible(release, true);
      if version.Some? {
        var key := Normalised(version.value);
        if latest.None? || Compare(key, latest.value.0) == Greater {
          latest := Some((key, release));
        }
      }
    }
    assert releases[..|releases|] == releases;
  }

  /** Page n of a listing that does not change meanwhile. */
  function PageOf(listing: seq<Release>, n: nat): seq<Release>
    requires n >= 1
  {
    var from := (n - 1) * PAGE;
    if from >= |listing| then [] else listing[from..if from + PAGE <= |listing| then from + PAGE else |listing|]
  }

  function FetchFrom(listing: seq<Release>): nat -> Option<seq<Release>> {
    (n: nat) => if n == 0 then None else Some(PageOf(listing, n))
  }

  lemma {:induction false} PagesOfListing(listing: seq<Release>, n: nat)
    ensures Pages(FetchFrom(listing), n) == listing[..if n * PAGE <= |listing| then n * PAGE else |listing|]
  {
    if n > 0 {
      PagesOfListing(listing, n - 1);
    }
  }

  /** On a listing of fewer than 10000 releases the choice is the first eligible release of greatest
      precedence of the whole listing, and an error exactly when none is eligible; from 10000 on it
      is an error. */
  method ChooseFrom(listing: seq<Release>) returns (choice: Choice)
    ensures |listing| < 10000 ==>
              if NoneEligible(listing) then choice == NothingFound
              else choice.Chosen? && exists i: nat :: IsBest(listing, i) && listing[i] == choice.release
    ensures |listing| >= 10000 ==> choice == TooManyPages
  {
    var fetch := FetchFrom(listing);
    choice := FetchLatest(fetch);
    hide NoneEligible, Pages, PageOf, Compare, Eligible, Normalised;
    forall n: nat | n >= 1
      ensures fetch(n).Some? && (|fetch(n).value| < PAGE <==> n * PAGE > |listing|)
      ensures |fetch(n).value| < PAGE ==> Pages(fetch, n) == listing
    {
      PageFacts(listing, n);
    }
    if |listing| < MAX_PAGES * PAGE {
      assert |fetch(MAX_PAGES).value| < PAGE;
    } else {
      assert forall k: nat :: 1 <= k <= MAX_PAGES ==> |fetch(k).value| >= PAGE;
    }
    if choice.Chosen? {
      ghost var n: nat, i: nat :| 1 <= n <= MAX_PAGES && fetch(n).Some? && |fetch(n).value| < PAGE
                        && IsBest(Pages(fetch, n), i) && Pages(fetch, n)[i] == choice.release;
      assert IsBest(listing, i) && listing[i] == choice.release;
      BestExcludesNone(listing, i);
    }
  }

  lemma BestExcludesNone(rs: seq<Release>, i: nat)
    requires IsBest(rs, i)
    ensures !NoneEligible(rs)
  {
  }

  lemma PageFacts(listing: seq<Release>, n: nat)
    requires n >= 1
    ensures var fetch := FetchFrom(listing);
            && fetch(n).Some? && (|fetch(n).value| < PAGE <==> n * PAGE > |listing|)
            && (|fetch(n).value| < PAGE ==> Pages(fetch, n) == listing)
  {
    PagesOfListing(listing, n);
  }
}
