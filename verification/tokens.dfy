/** `LoginController.generateToken`: the first fifteen characters of a random UUID's text with
    the dashes removed. The randomness is a parameter: the 32 hexadecimal digits of the UUID. */
module Tokens {

  const TokenLength := 15

  predicate IsHexDigit(c: char) {
    '0' <= c <= '9' || 'a' <= c <= 'f'
  }

  predicate IsHex(s: string) {
    forall i | 0 <= i < |s| :: IsHexDigit(s[i])
  }

  /** The 32 lower-case hexadecimal digits of a UUID. */
  predicate IsUuidDigits(d: string) {
    |d| == 32 && IsHex(d)
  }

  /** The digits of a `UUID.randomUUID()`: a version 4 UUID, so digit 12 (the version nibble) is
      always '4' and digit 16 (the variant) is one of '8', '9', 'a', 'b' (section 4.4 of RFC 4122). */
  predicate IsRandomUuid(d: string) {
    IsUuidDigits(d) && d[12] == '4' && d[16] in {'8', '9', 'a', 'b'}
  }

  /** `UUID.toString()`: the digits grouped 8-4-4-4-12 with dashes between the groups. */
  function UuidText(d: string): (r: string)
    requires IsUuidDigits(d)
    ensures |r| == 36
  {
    d[..8] + ("-" + (d[8..12] + ("-" + (d[12..16] + ("-" + (d[16..20] + ("-" + d[20..])))))))
  }

  /** `replaceAll("-", "")`. */
  function StripDashes(s: string): (r: string)
    ensures |r| <= |s|
    ensures forall i | 0 <= i < |r| :: r[i] != '-'
  {
    if s == [] then []
    else if s[0] == '-' then StripDashes(s[1..])
    else [s[0]] + StripDashes(s[1..])
  }

  lemma {:induction false} StripDashesConcat(a: string, b: string)
    ensures StripDashes(a + b) == StripDashes(a) + StripDashes(b)
    decreases |a|
  {
    if a != [] {
      assert (a + b)[1..] == a[1..] + b;
      StripDashesConcat(a[1..], b);
    } else {
      assert a + b == b;
    }
  }

  lemma {:induction false} StripDashesKeepsHex(s: string)
    requires IsHex(s)
    ensures StripDashes(s) == s
    decreases |s|
  {
    if s != [] {
      assert IsHexDigit(s[0]);
      assert IsHex(s[1..]) by {
        forall i | 0 <= i < |s[1..]| ensures IsHexDigit(s[1..][i]) {
          assert s[1..][i] == s[i + 1];
        }
      }
      StripDashesKeepsHex(s[1..]);
      assert [s[0]] + s[1..] == s;
    }
  }

  lemma HexSlice(d: string, i: int, j: int)
    requires IsHex(d) && 0 <= i <= j <= |d|
    ensures IsHex(d[i..j])
  {
    forall k | 0 <= k < j - i ensures IsHexDigit(d[i..j][k]) {
      assert d[i..j][k] == d[i + k];
    }
  }

  /** A group of digits followed by a dash loses only the dash. */
  lemma StripGroup(g: string, rest: string)
    requires IsHex(g)
    ensures StripDashes(g + ("-" + rest)) == g + StripDashes(rest)
  {
    StripDashesConcat(g, "-" + rest);
    StripDashesKeepsHex(g);
    assert ("-" + rest)[1..] == rest;
  }

  /** Removing the dashes from a UUID's text gives back its 32 digits. */
  lemma UuidTextRoundTrip(d: string)
    requires IsUuidDigits(d)
    ensures StripDashes(UuidText(d)) == d
  {
    HexSlice(d, 0, 8);
    HexSlice(d, 8, 12);
    HexSlice(d, 12, 16);
    HexSlice(d, 16, 20);
    HexSlice(d, 20, 32);
    var t4 := d[20..];
    var t3 := d[16..20] + ("-" + t4);
    var t2 := d[12..16] + ("-" + t3);
    var t1 := d[8..12] + ("-" + t2);
    StripDashesKeepsHex(t4);
    StripGroup(d[16..20], t4);
    StripGroup(d[12..16], t3);
    StripGroup(d[8..12], t2);
    StripGroup(d[..8], t1);
    assert d[..8] + (d[8..12] + (d[12..16] + (d[16..20] + d[20..]))) == d;
  }

  /** A generated token is fifteen lower-case hexadecimal digits: the UUID's first fifteen. */
  function GenerateToken(d: string): (r: string)
    requires IsUuidDigits(d)
    ensures |r| == TokenLength
    ensures IsHex(r)
    ensures r == d[..TokenLength]
    ensures IsRandomUuid(d) ==> r[12] == '4'
  {
    UuidTextRoundTrip(d);
    StripDashes(UuidText(d))[..TokenLength]
  }
}
