/** Release version tags "major.minor.patch" and the script's rule for the
    next release: bump minor, roll a minor of ten or more over into major,
    and always emit patch 0 (`incrementTag`). */
module Versions {
  import opened Text

  datatype Version = Version(major: nat, minor: nat, patch: nat)

  /** The minor number at which the next release rolls over into major. */
  const MinorLimit: nat := 10

  /** The tag assumed when the repository has no tag yet. */
  const Baseline: string := "0.0.0"

  predicate IsDigit(c: char) {
    '0' <= c <= '9'
  }

  predicate AllDigits(s: string) {
    forall i :: 0 <= i < |s| ==> IsDigit(s[i])
  }

  /** A non-empty run of decimal digits (leading zeros allowed, as `Number` does). */
  predicate IsNumeral(s: string) {
    s != [] && AllDigits(s)
  }

  /** The numeral a number prints as: no superfluous leading zero. */
  predicate Canonical(s: string) {
    IsNumeral(s) && (|s| > 1 ==> s[0] != '0')
  }

  function DigitValue(c: char): nat
    requires IsDigit(c)
  {
    c as nat - '0' as nat
  }

  function DigitChar(d: nat): char
    requires d < 10
  {
    ('0' as nat + d) as char
  }

  /** `Number(s)` on a string of decimal digits. */
  function NumberOf(s: string): nat
    requires AllDigits(s)
  {
    if s == [] then 0 else NumberOf(s[..|s| - 1]) * 10 + DigitValue(s[|s| - 1])
  }

  /** The decimal numeral of `n`, as a template literal prints a number:
      canonical, and read back as `n`. */
  function Decimal(n: nat): (s: string)
    ensures Canonical(s)
    ensures NumberOf(s) == n
  {
    if n < 10 then [DigitChar(n)]
    else
      var s := Decimal(n / 10) + [DigitChar(n % 10)];
      assert s[..|s| - 1] == Decimal(n / 10);
      s
  }

  lemma {:induction false} LeadingDigitPositive(s: string)
    requires IsNumeral(s) && s[0] != '0'
    ensures NumberOf(s) > 0
  {
    if |s| > 1 {
      LeadingDigitPositive(s[..|s| - 1]);
    }
  }

  lemma LastDigit(q: nat, d: nat)
    requires d < 10
    ensures (q * 10 + d) / 10 == q && (q * 10 + d) % 10 == d
  {
  }

  /** A canonical numeral is the one its number prints as. */
  lemma {:induction false} DecimalOfNumber(s: string)
    requires Canonical(s)
    ensures Decimal(NumberOf(s)) == s
  {
    var last := s[|s| - 1];
    assert DigitChar(DigitValue(last)) == last;
    if |s| > 1 {
      var init := s[..|s| - 1];
      LeadingDigitPositive(init);
      DecimalOfNumber(init);
      LastDigit(NumberOf(init), DigitValue(last));
      assert init + [last] == s;
    }
  }

  /** A well-formed tag: exactly three numerals separated by dots. */
  predicate ValidTag(tag: string) {
    var p := Split(tag, '.');
    |p| == 3 && IsNumeral(p[0]) && IsNumeral(p[1]) && IsNumeral(p[2])
  }

  /** A tag as the script itself writes one: well formed, each numeral canonical. */
  predicate CanonicalTag(tag: string) {
    var p := Split(tag, '.');
    |p| == 3 && Canonical(p[0]) && Canonical(p[1]) && Canonical(p[2])
  }

  /** `tag.split('.').map(Number)`. */
  function Parse(tag: string): Version
    requires ValidTag(tag)
  {
    var p := Split(tag, '.');
    Version(NumberOf(p[0]), NumberOf(p[1]), NumberOf(p[2]))
  }

  /** The template literal `${major}.${minor}.${patch}`: a canonical tag
      that parses back to `v`. */
  function Serialise(v: Version): (tag: string)
    ensures CanonicalTag(tag) && ValidTag(tag)
    ensures Parse(tag) == v
  {
    var parts := [Decimal(v.major), Decimal(v.minor), Decimal(v.patch)];
    assert forall i :: 0 <= i < 3 ==> '.' !in parts[i];
    SplitJoin(parts, '.');
    Join(parts, '.')
  }

  /** The other direction of the round trip: a canonical tag is printed back
      exactly as it was read. */
  lemma SerialiseParse(tag: string)
    requires CanonicalTag(tag)
    ensures ValidTag(tag) && Serialise(Parse(tag)) == tag
  {
    var p := Split(tag, '.');
    JoinSplit(tag, '.');
    DecimalOfNumber(p[0]);
    DecimalOfNumber(p[1]);
    DecimalOfNumber(p[2]);
    assert p == [p[0], p[1], p[2]];
    assert Join(p, '.') == tag;
  }

  /** A string that starts and ends with a digit has no white space to trim. */
  lemma DigitEndsUnpadded(s: string)
    requires s != [] && IsDigit(s[0]) && IsDigit(s[|s| - 1])
    ensures Unpadded(s)
  {
  }

  /** A well-formed tag starts and ends with a digit, so `trim` leaves it
      alone. */
  lemma ValidTagUnpadded(tag: string)
    requires ValidTag(tag)
    ensures Unpadded(tag) && Trim(tag) == tag
  {
    var p := Split(tag, '.');
    JoinSplit(tag, '.');
    assert p == [p[0], p[1], p[2]];
    JoinThree(p[0], p[1], p[2], '.');
    assert tag[0] == p[0][0];
    assert tag[|tag| - 1] == p[2][|p[2]| - 1];
    DigitEndsUnpadded(tag);
    assert [] + tag + [] == tag;
    TrimPadded([], tag, []);
  }

  /** (major, minor) of `a` comes strictly before that of `b`. */
  predicate Before(a: Version, b: Version) {
    a.major < b.major || (a.major == b.major && a.minor < b.minor)
  }

  /** The arithmetic of `incrementTag`: minor goes up by one; at ten or more
      it rolls over into major and restarts at zero; patch is dropped. */
  function Increment(v: Version): (r: Version)
    ensures r.patch == 0 && r.minor < MinorLimit
    ensures Before(v, r)
    ensures r.major == v.major <==> v.minor + 1 < MinorLimit
    ensures r.major == v.major ==> r.minor == v.minor + 1
    ensures r.major != v.major ==> r.major == v.major + 1 && r.minor == 0
  {
    var minor := v.minor + 1;
    if minor >= MinorLimit then Version(v.major + 1, 0, 0) else Version(v.major, minor, 0)
  }

  /** The next release is the first (major, minor) after the current one
      whose minor is a single digit. */
  lemma IncrementIsNextRelease(v: Version, w: Version)
    requires w.minor < MinorLimit && Before(v, w)
    ensures !Before(w, Increment(v))
  {
  }

  /** `incrementTag(tag)`: the result is a well-formed, canonical tag whose
      version is the increment of the input's, so it is a valid input again. */
  function IncrementTag(tag: string): (r: string)
    requires ValidTag(tag)
    ensures ValidTag(r) && CanonicalTag(r)
    ensures Parse(r) == Increment(Parse(tag))
    ensures Before(Parse(tag), Parse(r)) && Parse(r).patch == 0
  {
    Serialise(Increment(Parse(tag)))
  }

  /** The rollover rule on strings: "M.m.p" becomes "M.(m+1).0" when m + 1 is
      below ten, and "(M+1).0.0" otherwise (ten or more, not just ten). */
  lemma IncrementTagRule(tag: string)
    requires ValidTag(tag)
    ensures var v := Parse(tag);
      IncrementTag(tag) ==
        if v.minor + 1 < MinorLimit then Decimal(v.major) + "." + Decimal(v.minor + 1) + ".0"
        else Decimal(v.major + 1) + ".0.0"
  {
    var r := Increment(Parse(tag));
    assert Decimal(0) == "0";
    JoinThree(Decimal(r.major), Decimal(r.minor), Decimal(0), '.');
  }

  /** The patch number has no influence on the next version. */
  lemma IncrementIgnoresPatch(a: string, b: string)
    requires ValidTag(a) && ValidTag(b)
    requires Parse(a).major == Parse(b).major && Parse(a).minor == Parse(b).minor
    ensures IncrementTag(a) == IncrementTag(b)
  {
  }

  /** Three one-digit numbers print as five characters. */
  lemma SerialiseDigits(a: nat, b: nat, c: nat)
    requires a < 10 && b < 10 && c < 10
    ensures Serialise(Version(a, b, c)) == [DigitChar(a), '.', DigitChar(b), '.', DigitChar(c)]
  {
    JoinThree([DigitChar(a)], [DigitChar(b)], [DigitChar(c)], '.');
  }

  /** With no tag yet, the baseline "0.0.0" gives the first release "0.1.0". */
  lemma BaselineIncrement()
    ensures ValidTag(Baseline) && IncrementTag(Baseline) == "0.1.0"
  {
    SerialiseDigits(0, 0, 0);
    SerialiseDigits(0, 1, 0);
  }

  /** "1.2.3" -> "1.3.0": patch dropped, minor bumped. */
  lemma IncrementExampleBump()
    ensures ValidTag("1.2.3") && IncrementTag("1.2.3") == "1.3.0"
  {
    SerialiseDigits(1, 2, 3);
    SerialiseDigits(1, 3, 0);
  }

  /** "1.9.0" -> "2.0.0": minor reaches ten and rolls over. */
  lemma IncrementExampleRollover()
    ensures ValidTag("1.9.0") && IncrementTag("1.9.0") == "2.0.0"
  {
    SerialiseDigits(1, 9, 0);
    SerialiseDigits(2, 0, 0);
  }

  /** "1.12.0" -> "2.0.0": a minor already past nine also rolls over,
      because the test is "ten or more", not "exactly ten". */
  lemma IncrementExamplePastNine()
    ensures ValidTag("1.12.0") && IncrementTag("1.12.0") == "2.0.0"
  {
    assert Decimal(12) == "12";
    JoinThree("1", "12", "0", '.');
    assert Serialise(Version(1, 12, 0)) == "1.12.0";
    SerialiseDigits(2, 0, 0);
  }
}
