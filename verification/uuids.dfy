/** The service and characteristic identifiers the client looks for. Each is
    a 16-bit short form placed into the Bluetooth Base UUID
    0000xxxx-0000-1000-8000-00805F9B34FB (Bluetooth Core Specification,
    Vol 3, Part B, section 2.5.1). */
module Uuids {
  import opened Text

  const BasePrefix: string := "0000"
  const BaseSuffix: string := "-0000-1000-8000-00805F9B34FB"

  /** Heart Rate service 0x180D. */
  const ServiceUuid: string := "0000180D-0000-1000-8000-00805F9B34FB"
  /** Heart Rate Measurement characteristic 0x2A37. */
  const CharUuidHeartRate: string := "00002A37-0000-1000-8000-00805F9B34FB"
  /** Temperature characteristic 0x2A6E. */
  const CharUuidTemperature: string := "00002A6E-0000-1000-8000-00805F9B34FB"
  /** PLX Continuous Measurement characteristic 0x2A5F, used for SpO2. */
  const CharUuidSpO2: string := "00002A5F-0000-1000-8000-00805F9B34FB"

  predicate IsUpperHexDigit(c: char) {
    '0' <= c <= '9' || 'A' <= c <= 'F'
  }

  /** Four upper-case hex digits: a 16-bit short form as the constants write it. */
  predicate IsShortForm(x: string) {
    |x| == 4 && forall i :: 0 <= i < 4 ==> IsUpperHexDigit(x[i])
  }

  predicate IsDashPosition(i: int) {
    i == 8 || i == 13 || i == 18 || i == 23
  }

  /** The canonical 8-4-4-4-12 text form of a 128-bit UUID, upper case. */
  predicate IsUuidText(u: string) {
    && |u| == 36
    && forall i :: 0 <= i < 36 ==> if IsDashPosition(i) then u[i] == '-' else IsUpperHexDigit(u[i])
  }

  /** A UUID inside the Bluetooth Base UUID range. */
  predicate IsBaseUuid(u: string) {
    |u| == 36 && u[..4] == BasePrefix && u[8..] == BaseSuffix && IsShortForm(u[4..8])
  }

  /** The 128-bit form of a 16-bit short form. */
  function Expand(x: string): (u: string)
    requires IsShortForm(x)
    ensures IsBaseUuid(u)
  {
    var u := BasePrefix + x + BaseSuffix;
    assert u[..4] == BasePrefix && u[4..8] == x && u[8..] == BaseSuffix;
    u
  }

  /** Every expansion is a well-formed UUID text. */
  lemma ExpandIsUuidText(x: string)
    requires IsShortForm(x)
    ensures IsUuidText(Expand(x))
  {
    var u := Expand(x);
    assert u[..4] == BasePrefix && u[4..8] == x && u[8..] == BaseSuffix;
    assert forall i :: 8 <= i < 36 ==> u[i] == BaseSuffix[i - 8];
  }

  /** The 16-bit short form of a UUID in the base range. */
  function ShortForm(u: string): (x: string)
    requires IsBaseUuid(u)
    ensures IsShortForm(x)
  {
    u[4..8]
  }

  /** Expanding and then shortening gives back the short form ... */
  lemma ShortFormOfExpand(x: string)
    requires IsShortForm(x)
    ensures ShortForm(Expand(x)) == x
  {
    assert (BasePrefix + x + BaseSuffix)[4..8] == x;
  }

  /** ... and every UUID in the base range is the expansion of its short form. */
  lemma ExpandOfShortForm(u: string)
    requires IsBaseUuid(u)
    ensures Expand(ShortForm(u)) == u
  {
    assert u == u[..4] + u[4..8] + u[8..];
  }

  /** The service identifier is the base expansion of 180D. */
  lemma ServiceUuidIsExpansion()
    ensures ServiceUuid == Expand("180D")
  {
    var e := Expand("180D");
    forall i | 0 <= i < 36
      ensures ServiceUuid[i] == e[i]
    {
      if i < 4 {
        assert e[i] == BasePrefix[i];
      } else if i < 8 {
        assert e[i] == "180D"[i - 4];
      } else {
        assert e[i] == BaseSuffix[i - 8];
      }
    }
  }

  /** The heart-rate identifier is the base expansion of 2A37. */
  lemma HeartRateUuidIsExpansion()
    ensures CharUuidHeartRate == Expand("2A37")
  {
    var e := Expand("2A37");
    forall i | 0 <= i < 36
      ensures CharUuidHeartRate[i] == e[i]
    {
      if i < 4 {
        assert e[i] == BasePrefix[i];
      } else if i < 8 {
        assert e[i] == "2A37"[i - 4];
      } else {
        assert e[i] == BaseSuffix[i - 8];
      }
    }
  }

  /** The temperature identifier is the base expansion of 2A6E. */
  lemma TemperatureUuidIsExpansion()
    ensures CharUuidTemperature == Expand("2A6E")
  {
    var e := Expand("2A6E");
    forall i | 0 <= i < 36
      ensures CharUuidTemperature[i] == e[i]
    {
      if i < 4 {
        assert e[i] == BasePrefix[i];
      } else if i < 8 {
        assert e[i] == "2A6E"[i - 4];
      } else {
        assert e[i] == BaseSuffix[i - 8];
      }
    }
  }

  /** The SpO2 identifier is the base expansion of 2A5F. */
  lemma SpO2UuidIsExpansion()
    ensures CharUuidSpO2 == Expand("2A5F")
  {
    var e := Expand("2A5F");
    forall i | 0 <= i < 36
      ensures CharUuidSpO2[i] == e[i]
    {
      if i < 4 {
        assert e[i] == BasePrefix[i];
      } else if i < 8 {
        assert e[i] == "2A5F"[i - 4];
      } else {
        assert e[i] == BaseSuffix[i - 8];
      }
    }
  }

  /** `UUID.toString()` renders the identifier in lower case; upper-casing
      that rendering gives back the canonical upper-case text. */
  lemma UppercaseOfLowercase(u: string)
    requires IsUuidText(u)
    ensures Uppercase(Lowercase(u)) == u
  {
    forall i | 0 <= i < 36
      ensures Uppercase(Lowercase(u))[i] == u[i]
    {
      assert Lowercase(u)[i] == LowerChar(u[i]);
    }
  }

  /** Searching an expanded identifier for a four-character pattern with no
      dash, whose first character never occurs outside the short form, finds
      the pattern exactly when it is the short form itself: a match starting
      later inside the short form would have to cover the dash at index 8. */
  lemma ContainsShortPattern(x: string, p: string)
    requires IsShortForm(x) && |p| == 4
    requires p[0] !in BasePrefix && p[0] !in BaseSuffix
    requires '-' !in p
    ensures Contains(Expand(x), p) <==> x == p
  {
    var u := Expand(x);
    assert u[..4] == BasePrefix && u[4..8] == x && u[8..] == BaseSuffix;
    if Contains(u, p) {
      var i :| 0 <= i <= |u| - |p| && OccursAt(u, p, i);
      assert u[i] == p[0];
      assert 4 <= i < 8;
      assert u[8] == '-';
      if i > 4 {
        assert false;
      }
      assert u[i] == x[i - 4];
      assert x == p;
    }
    if x == p {
      assert OccursAt(u, p, 4);
    }
  }
}
