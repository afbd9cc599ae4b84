/**
 * valid_version: a peer's version string is accepted when it is three
 * dot-separated numbers and is not older than the controller's own version.
 */
module Versions {
  import opened Wrappers

  datatype Version = Version(major: nat, minor: nat, patch: nat)

  predicate IsDigit(c: char) {
    '0' <= c <= '9'
  }

  /** A non-empty run of decimal digits: what converts to a number. */
  predicate IsNumeral(s: string) {
    |s| > 0 && forall i :: 0 <= i < |s| ==> IsDigit(s[i])
  }

  /** `s` cut at every `sep`, as Python's `str.split(sep)` does: "1.0" gives ["1", "0"], "" gives [""]. */
  function Split(s: string, sep: char): (parts: seq<string>)
    ensures |parts| >= 1
    ensures forall i :: 0 <= i < |parts| ==> sep !in parts[i]
  {
    if s == [] then [""]
    else
      var rest := Split(s[1..], sep);
      if s[0] == sep then [""] + rest
      else
        var head := [s[0]] + rest[0];
        assert sep !in head;
        [head] + rest[1..]
  }

  /** The parts glued back with `sep` between them. */
  function Join(parts: seq<string>, sep: char): string
    requires |parts| >= 1
  {
    if |parts| == 1 then parts[0] else parts[0] + [sep] + Join(parts[1..], sep)
  }

  /** Split undoes Join on parts that do not contain the separator. */
  lemma {:induction false} SplitJoin(parts: seq<string>, sep: char)
    requires |parts| >= 1
    requires forall i :: 0 <= i < |parts| ==> sep !in parts[i]
    ensures Split(Join(parts, sep), sep) == parts
    decreases |parts|, |parts[0]|
  {
    var p := parts[0];
    if p == [] {
      if |parts| > 1 {
        SplitJoin(parts[1..], sep);
        assert Join(parts, sep) == [sep] + Join(parts[1..], sep);
        assert Join(parts, sep)[1..] == Join(parts[1..], sep);
      }
    } else {
      var parts' := [p[1..]] + parts[1..];
      assert p[0] != sep by { assert p[0] in p; }
      assert forall i :: 0 <= i < |parts'| ==> sep !in parts'[i] by {
        assert forall c :: c in p[1..] ==> c in p;
      }
      SplitJoin(parts', sep);
      JoinFirstChar(parts, sep);
      assert Join(parts, sep)[1..] == Join(parts', sep);
      assert [p[0]] + p[1..] == p;
      assert parts == [p] + parts[1..];
    }
  }

  /** Moving the first character of the first part out of a join. */
  lemma JoinFirstChar(parts: seq<string>, sep: char)
    requires |parts| >= 1 && parts[0] != []
    ensures Join(parts, sep) == [parts[0][0]] + Join([parts[0][1..]] + parts[1..], sep)
  {
    var p := parts[0];
    var parts' := [p[1..]] + parts[1..];
    if |parts| == 1 {
      assert p == [p[0]] + p[1..];
    } else {
      assert parts'[1..] == parts[1..];
      assert p + [sep] + Join(parts[1..], sep) == [p[0]] + (p[1..] + [sep] + Join(parts[1..], sep));
    }
  }

  /** The value of a decimal numeral, read left to right. */
  function NumeralValue(s: string): nat
    requires forall i :: 0 <= i < |s| ==> IsDigit(s[i])
  {
    if s == [] then 0
    else
      assert IsDigit(s[|s| - 1]);
      NumeralValue(s[..|s| - 1]) * 10 + (s[|s| - 1] as int - '0' as int)
  }

  /** A number written in decimal without leading zeros. */
  function Decimal(n: nat): (s: string)
    ensures IsNumeral(s)
  {
    if n < 10 then ['0' + n as char]
    else Decimal(n / 10) + ['0' + (n % 10) as char]
  }

  /** Reading back a number written in decimal gives the number. */
  lemma {:induction false} DecimalValue(n: nat)
    ensures NumeralValue(Decimal(n)) == n
  {
    if n >= 10 {
      DecimalValue(n / 10);
      var s := Decimal(n);
      assert s[..|s| - 1] == Decimal(n / 10);
    }
  }

  /** Three dot-separated numerals, or None: "1.0" and "1.1.b" are not versions. */
  function ParseVersion(s: string): Option<Version> {
    var parts := Split(s, '.');
    if |parts| == 3 && IsNumeral(parts[0]) && IsNumeral(parts[1]) && IsNumeral(parts[2])
    then Some(Version(NumeralValue(parts[0]), NumeralValue(parts[1]), NumeralValue(parts[2])))
    else None
  }

  /** A version written the usual way, "major.minor.patch". */
  function FormatVersion(v: Version): string {
    Join([Decimal(v.major), Decimal(v.minor), Decimal(v.patch)], '.')
  }

  /** Reading a formatted version gives that version back. */
  lemma ParseFormatVersion(v: Version)
    ensures ParseVersion(FormatVersion(v)) == Some(v)
  {
    var parts := [Decimal(v.major), Decimal(v.minor), Decimal(v.patch)];
    forall i | 0 <= i < 3 ensures '.' !in parts[i] {
      if '.' in parts[i] {
        var j :| 0 <= j < |parts[i]| && parts[i][j] == '.';
      }
    }
    SplitJoin(parts, '.');
    DecimalValue(v.major);
    DecimalValue(v.minor);
    DecimalValue(v.patch);
  }

  /** Component-wise order: major first, then minor, then patch. */
  predicate VersionLe(a: Version, b: Version) {
    || a.major < b.major
    || (a.major == b.major && a.minor < b.minor)
    || (a.major == b.major && a.minor == b.minor && a.patch <= b.patch)
  }

  /**
   * valid_version: false when the candidate is absent or is not a three-part
   * numeric version; otherwise whether it is at least the base version.
   */
  function ValidVersion(base: string, candidate: Option<string>): (r: bool)
    ensures r ==> candidate.Some? && ParseVersion(candidate.value).Some?
    ensures candidate.None? ==> !r
  {
    candidate.Some?
    && var b, c := ParseVersion(base), ParseVersion(candidate.value);
    b.Some? && c.Some? && VersionLe(b.value, c.value)
  }

  /** On well-formed versions, valid_version is exactly "not older than the base". */
  lemma ValidVersionIsOrder(base: Version, candidate: Version)
    ensures ValidVersion(FormatVersion(base), Some(FormatVersion(candidate))) <==> VersionLe(base, candidate)
  {
    ParseFormatVersion(base);
    ParseFormatVersion(candidate);
  }

  /**
   * A version is accepted against itself, and of two different versions the
   * newer is accepted against the older and not the other way round.
   */
  lemma ValidVersionMonotone(a: Version, b: Version)
    ensures ValidVersion(FormatVersion(a), Some(FormatVersion(a)))
    ensures VersionLe(a, b) && a != b ==>
      ValidVersion(FormatVersion(a), Some(FormatVersion(b))) && !ValidVersion(FormatVersion(b), Some(FormatVersion(a)))
  {
    ValidVersionIsOrder(a, a);
    ValidVersionIsOrder(a, b);
    ValidVersionIsOrder(b, a);
  }

  /** The UPGRADE_REQUIRED reply is never itself an acceptable version. */
  lemma UpgradeRequiredIsNotAVersion(base: string)
    ensures !ValidVersion(base, Some("UPGRADE_REQUIRED"))
  {
    var s := "UPGRADE_REQUIRED";
    assert '.' !in s;
    SplitJoin([s], '.');
  }
}
