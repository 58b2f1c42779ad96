/**
 * The two grammars that recover a direction from the name of a response file.
 *
 * Listen (`IRC_1002_C_R0195_T180_P060`): the degrees after the first `_T` are
 * the azimuth; in the text after that, the degrees after the first `_P` are the
 * elevation. Each tag must be followed by a digit.
 *
 * Sadie (`azi_13,0_ele_-64,8`): exactly four `_`-separated tokens, `azi`, the
 * azimuth, `ele`, the elevation, with a comma as the decimal mark.
 *
 * These functions state what the parsing methods of the three `Response`
 * classes compute.
 */
module Directions {
  import opened Wrappers
  import opened Text
  import opened Harmonics

  /** How the degree text is converted: `std::stod` (Response.hpp) or `std::stol` (the older copies). */
  datatype Conversion = Fractional | Whole

  /** The degrees the conversion reads from the front of `text`. */
  function Degrees(text: string, conv: Conversion): real
    requires |text| > 0 && IsDigit(text[0])
  {
    match conv
    case Fractional => Stod(text).value
    case Whole => Stol(text) as real
  }

  /** Where the digits after the first `tag` start, provided a digit stands there. */
  function DigitAfter(name: string, tag: string): (r: Option<nat>)
    requires |tag| == 2
    ensures r.Some? ==> 2 <= r.value < |name| && IsDigit(name[r.value])
  {
    match Find(name, tag)
    case None => None
    case Some(pos) => if pos + 2 < |name| && IsDigit(name[pos + 2]) then Some(pos + 2) else None
  }

  /** How far the Listen grammar gets on a name. */
  datatype ListenScan =
    | Unmatched                                  // no `_T` followed by a digit
    | AzimuthOnly(azimuth: real)                 // `_T` matched, no `_P` with a digit after it
    | Matched(azimuth: real, elevation: real)

  /**
   * Where the Listen grammar finds its degrees: `a` in the name, and `e` in the
   * text `name[a..]` that is left once everything before the azimuth is erased.
   */
  datatype ListenTags = NoTags | AzimuthAt(a: nat) | BothAt(a: nat, e: nat)

  function TagsOf(name: string): (r: ListenTags)
    ensures !r.NoTags? ==> r.a < |name| && IsDigit(name[r.a])
    ensures r.BothAt? ==> r.e < |name| - r.a && IsDigit(name[r.a..][r.e])
  {
    match DigitAfter(name, "_T")
    case None => NoTags
    case Some(a) =>
      match DigitAfter(name[a..], "_P")
      case None => AzimuthAt(a)
      case Some(e) => BothAt(a, e)
  }

  function ScanListen(name: string, conv: Conversion): ListenScan {
    match TagsOf(name)
    case NoTags => Unmatched
    case AzimuthAt(a) => AzimuthOnly(Radians(Degrees(name[a..], conv)))
    case BothAt(a, e) => Matched(Radians(Degrees(name[a..], conv)), Radians(Degrees(name[a..][e..], conv)))
  }

  /**
   * The Listen tags read on the name itself: the first `_T` must be followed by
   * a digit, and then the first `_P` at or after that digit must be followed by
   * a digit too; the elevation digits stand at the same place in the name.
   */
  lemma {:induction false} TagsOnName(name: string)
    ensures TagsOf(name) ==
      match Find(name, "_T")
      case None => NoTags
      case Some(i) =>
        if i + 2 < |name| && IsDigit(name[i + 2]) then
          match FindFrom(name, "_P", i + 2)
          case None => AzimuthAt(i + 2)
          case Some(j) =>
            if j + 2 < |name| && IsDigit(name[j + 2]) then BothAt(i + 2, j - i) else AzimuthAt(i + 2)
        else NoTags
  {
    match Find(name, "_T")
    case None =>
      assert DigitAfter(name, "_T").None?;
    case Some(i) =>
      if i + 2 < |name| && IsDigit(name[i + 2]) {
        var a := i + 2;
        var rest := name[a..];
        assert DigitAfter(name, "_T") == Some(a);
        FindAfterCut(name, "_P", a);
        match FindFrom(name, "_P", a)
        case None =>
          assert DigitAfter(rest, "_P").None?;
        case Some(j) =>
          var q := j - a;
          assert Find(rest, "_P") == Some(q);
          if j + 2 < |name| && IsDigit(name[j + 2]) {
            assert rest[q + 2] == name[j + 2];
            assert DigitAfter(rest, "_P") == Some(q + 2);
          } else {
            if q + 2 < |rest| {
              assert rest[q + 2] == name[j + 2];
            }
            assert DigitAfter(rest, "_P").None?;
          }
      } else {
        assert DigitAfter(name, "_T").None?;
      }
  }

  /** Both angles are read from the name at the positions the tags give. */
  lemma {:induction false} ScanListenAt(name: string, conv: Conversion)
    ensures TagsOf(name).BothAt? ==>
      var t := TagsOf(name);
      ScanListen(name, conv) == Matched(Radians(Degrees(name[t.a..], conv)), Radians(Degrees(name[t.a + t.e..], conv)))
  {
    if TagsOf(name).BothAt? {
      var t := TagsOf(name);
      assert name[t.a..][t.e..] == name[t.a + t.e..];
    }
  }

  /** The `_P` tag is looked for only after the `_T` tag: a name whose `_P` all come before it never matches. */
  lemma {:induction false} ListenElevationAfterAzimuth(name: string, conv: Conversion, i: nat)
    requires Find(name, "_T") == Some(i)
    requires forall j: nat :: i <= j ==> !OccursAt(name, "_P", j)
    ensures !ScanListen(name, conv).Matched?
  {
    TagsOnName(name);
    if i + 2 < |name| && IsDigit(name[i + 2]) {
      assert FindFrom(name, "_P", i + 2).None?;
    }
  }

  lemma {:induction false} ScanListenUnmatched(name: string, conv: Conversion)
    requires DigitAfter(name, "_T").None?
    ensures ScanListen(name, conv) == Unmatched
  {
  }

  lemma {:induction false} ScanListenMatched(name: string, conv: Conversion, a: nat, e: nat)
    requires DigitAfter(name, "_T") == Some(a) && DigitAfter(name[a..], "_P") == Some(e)
    ensures ScanListen(name, conv) == Matched(Radians(Degrees(name[a..], conv)), Radians(Degrees(name[a..][e..], conv)))
  {
  }

  lemma {:induction false} ScanListenAzimuthOnly(name: string, conv: Conversion, a: nat)
    requires DigitAfter(name, "_T") == Some(a) && DigitAfter(name[a..], "_P").None?
    ensures ScanListen(name, conv) == AzimuthOnly(Radians(Degrees(name[a..], conv)))
  {
  }

  /** No "_T" across the boundary between a text free of it and a following "_T". */
  lemma {:induction false} FirstTag(prefix: string, tag: string, rest: string)
    requires |tag| == 2 && tag[0] != tag[1]
    requires forall m: nat :: !OccursAt(prefix, tag, m)
    ensures Find(prefix + tag + rest, tag) == Some(|prefix|)
  {
    var s := prefix + tag + rest;
    assert s[|prefix|..|prefix| + 2] == tag;
    forall m | 0 <= m < |prefix| ensures !OccursAt(s, tag, m) {
      if m + 2 <= |prefix| {
        assert !OccursAt(prefix, tag, m);
        assert s[m..m + 2] == prefix[m..m + 2];
      } else {
        assert s[m + 1] == tag[0] != tag[1];
        assert s[m..m + 2][1] == s[m + 1];
      }
    }
    FindFirst(s, tag, |prefix|);
  }

  /** The degrees of a digit run that no digit or '.' follows. */
  lemma {:induction false} DegreesOf(a: string, rest: string, conv: Conversion)
    requires |a| > 0 && AllDigits(a)
    requires rest == [] || (!IsDigit(rest[0]) && rest[0] != '.')
    ensures Degrees(a + rest, conv) == Decimal(a) as real
  {
    match conv
    case Fractional => StodOf(a, rest);
    case Whole => StolOf(a, rest);
  }

  /**
   * The Listen round trip: writing digit runs `a` and `e` after `_T` and `_P`
   * behind a prefix without `_T` reads back as `a` and `e` degrees.
   */
  lemma {:induction false} ListenRoundTrip(prefix: string, a: string, e: string, suffix: string, conv: Conversion)
    requires forall m: nat :: !OccursAt(prefix, "_T", m)
    requires |a| > 0 && AllDigits(a) && |e| > 0 && AllDigits(e)
    requires suffix == [] || (!IsDigit(suffix[0]) && suffix[0] != '.')
    ensures ScanListen(prefix + "_T" + a + "_P" + e + suffix, conv)
         == Matched(Radians(Decimal(a) as real), Radians(Decimal(e) as real))
  {
    var last := e + suffix;
    var tail := "_P" + last;
    var rest := a + "_P" + last;
    assert rest == a + tail;
    var name := prefix + "_T" + rest;
    assert prefix + "_T" + a + "_P" + e + suffix == name;
    FirstTag(prefix, "_T", rest);
    assert name[|prefix| + 2..] == rest;
    assert DigitAfter(name, "_T") == Some(|prefix| + 2);
    DegreesOf(a, tail, conv);
    assert '_' !in a;
    NotOccurring(a, "_P", '_');
    FirstTag(a, "_P", last);
    assert rest[|a| + 2..] == last;
    assert rest[|a| + 2] == e[0];
    assert DigitAfter(rest, "_P") == Some(|a| + 2);
    DegreesOf(e, suffix, conv);
    ScanListenMatched(name, conv, |prefix| + 2, |a| + 2);
    assert Degrees(name[|prefix| + 2..], conv) == Decimal(a) as real;
    assert Degrees(name[|prefix| + 2..][|a| + 2..], conv) == Decimal(e) as real;
  }

  /**
   * When the `_T` test succeeds but no `_P` follows in the text after it, only
   * the azimuth is read.
   */
  lemma {:induction false} ListenAzimuthOnly(prefix: string, a: string, rest: string, conv: Conversion)
    requires forall m: nat :: !OccursAt(prefix, "_T", m)
    requires |a| > 0 && AllDigits(a)
    requires rest == [] || (!IsDigit(rest[0]) && rest[0] != '.')
    requires forall m: nat :: !OccursAt(rest, "_P", m)
    ensures ScanListen(prefix + "_T" + a + rest, conv) == AzimuthOnly(Radians(Decimal(a) as real))
  {
    var name := prefix + "_T" + (a + rest);
    assert prefix + "_T" + a + rest == name;
    FirstTag(prefix, "_T", a + rest);
    assert name[|prefix| + 2..] == a + rest;
    DegreesOf(a, rest, conv);
    assert '_' !in a;
    TagOnlyAfter(a, rest, "_P");
    assert Find(a + rest, "_P").None?;
    ScanListenAzimuthOnly(name, conv, |prefix| + 2);
  }

  /** A tag that starts with a character `a` lacks occurs in `a + rest` only where it occurs in `rest`. */
  lemma {:induction false} TagOnlyAfter(a: string, rest: string, tag: string)
    requires |tag| > 0 && tag[0] !in a
    requires forall m: nat :: !OccursAt(rest, tag, m)
    ensures forall m: nat :: !OccursAt(a + rest, tag, m)
  {
    var text := a + rest;
    forall m: nat ensures !OccursAt(text, tag, m) {
      if m < |a| {
        assert text[m] == a[m] != tag[0];
        if m + |tag| <= |text| {
          assert text[m..m + |tag|][0] == text[m];
        }
      } else {
        OccursAfterCut(text, tag, |a|, m - |a|);
        assert text[|a|..] == rest;
      }
    }
  }

  /** A typical Listen name. */
  lemma {:induction false} ListenExample(conv: Conversion)
    ensures ScanListen("IRC_1002_C_R0195_T180_P060", conv) == Matched(Radians(180.0), Radians(60.0))
  {
    var prefix := "IRC_1002_C_R0195";
    assert prefix + "_T" + "180" + "_P" + "060" + "" == "IRC_1002_C_R0195_T180_P060";
    Decimal180();
    Decimal060();
    NotOccurring(prefix, "_T", 'T');
    ListenRoundTrip(prefix, "180", "060", "", conv);
  }

  /** A Listen name without elevation keeps the azimuth and does not match. */
  lemma {:induction false} ListenPartialExample(conv: Conversion)
    ensures ScanListen("IRC_1002_C_R0195_T180", conv) == AzimuthOnly(Radians(180.0))
  {
    var prefix := "IRC_1002_C_R0195";
    assert prefix + "_T" + "180" + "" == "IRC_1002_C_R0195_T180";
    Decimal180();
    NotOccurring(prefix, "_T", 'T');
    ListenAzimuthOnly(prefix, "180", "", conv);
  }

  /** An elevation tag before the azimuth tag is not read, although it is followed by digits. */
  lemma {:induction false} ListenTagOrderExample(conv: Conversion)
    ensures DigitAfter("IRC_P060_T180", "_P") == Some(5)
    ensures ScanListen("IRC_P060_T180", conv) == AzimuthOnly(Radians(180.0))
  {
    var name := "IRC_P060_T180";
    assert name[3..5] == "_P" && name[5] == '0';
    forall i | 0 <= i < 3
      ensures !OccursAt(name, "_P", i)
    {
      assert name[i..i + 2][0] == name[i] != '_';
    }
    FindFirst(name, "_P", 3);
    var prefix := "IRC_P060";
    assert prefix + "_T" + "180" + "" == "IRC_P060_T180";
    Decimal180();
    NotOccurring(prefix, "_T", 'T');
    ListenAzimuthOnly(prefix, "180", "", conv);
  }

  lemma {:induction false} Decimal180()
    ensures AllDigits("180") && Decimal("180") == 180
  {
    assert "180"[..2] == "18" && "18"[..1] == "1";
  }

  lemma {:induction false} Decimal060()
    ensures AllDigits("060") && Decimal("060") == 60
  {
    assert "060"[..2] == "06" && "06"[..1] == "0";
  }

  /** Without a '.' in the name, `stod` and `stol` read the same directions. */
  lemma {:induction false} ListenConversionsAgree(name: string)
    requires '.' !in name
    ensures ScanListen(name, Fractional) == ScanListen(name, Whole)
  {
    match DigitAfter(name, "_T")
    case None =>
    case Some(a) =>
      var rest := name[a..];
      NoDotAfter(name, a);
      DegreesAgree(rest);
      match DigitAfter(rest, "_P")
      case None =>
        ScanListenAzimuthOnly(name, Fractional, a);
        ScanListenAzimuthOnly(name, Whole, a);
      case Some(e) =>
        NoDotAfter(rest, e);
        DegreesAgree(rest[e..]);
        ScanListenMatched(name, Fractional, a, e);
        ScanListenMatched(name, Whole, a, e);
  }

  lemma {:induction false} NoDotAfter(s: string, a: nat)
    requires '.' !in s && a <= |s|
    ensures '.' !in s[a..]
  {
    forall k | 0 <= k < |s| - a ensures s[a..][k] != '.' {
      assert s[a..][k] == s[a + k];
    }
  }

  lemma {:induction false} DegreesAgree(text: string)
    requires |text| > 0 && IsDigit(text[0]) && '.' !in text
    ensures Degrees(text, Fractional) == Degrees(text, Whole)
  {
    StodAgreesWithStol(text);
  }

  // ---------------------------------------------------------------------------
  // Sadie
  // ---------------------------------------------------------------------------

  /** How the Sadie grammar ends on a name; `Thrown` is where `std::stod` throws. */
  datatype SadieScan = Rejected | Thrown | Accepted(azimuth: real, elevation: real)

  /** The Sadie reading of the two angle tokens, commas read as decimal points. */
  function SadieAngles(azimuth: string, elevation: string): SadieScan {
    var a := Stod(Replaced(azimuth, ',', '.'));
    var e := Stod(Replaced(elevation, ',', '.'));
    if a.None? || e.None? then Thrown else Accepted(Radians(a.value), Radians(e.value))
  }

  /** The two angle tokens of a name with the Sadie pattern, and None for any other name. */
  function SadieTokens(name: string): Option<(string, string)> {
    var tokens := Split(name, '_');
    if |tokens| == 4 && tokens[0] == "azi" && tokens[2] == "ele" then Some((tokens[1], tokens[3])) else None
  }

  function ScanSadie(name: string): SadieScan {
    match SadieTokens(name)
    case None => Rejected
    case Some((azimuth, elevation)) => SadieAngles(azimuth, elevation)
  }

  /** A name built from the Sadie pattern yields its two angle tokens. */
  lemma {:induction false} SadieOfParts(azimuth: string, elevation: string)
    requires '_' !in azimuth && '_' !in elevation
    ensures SadieTokens("azi_" + azimuth + "_ele_" + elevation) == Some((azimuth, elevation))
  {
    var parts := ["azi", azimuth, "ele", elevation];
    JoinFour(parts, "_");
    assert Join(parts, "_") == "azi_" + azimuth + "_ele_" + elevation;
    JoinSplit(parts, '_');
  }

  /** Every name with two Sadie tokens is built from the pattern, with tokens free of '_'. */
  lemma {:induction false} SadiePartsOf(name: string)
    requires SadieTokens(name).Some?
    ensures var (azimuth, elevation) := SadieTokens(name).value;
      '_' !in azimuth && '_' !in elevation && name == "azi_" + azimuth + "_ele_" + elevation
  {
    var t := Split(name, '_');
    SplitJoin(name, '_');
    SplitTokensClean(name, '_');
    JoinFour(t, "_");
    assert '_' !in t[1] && '_' !in t[3];
    SadieRegroup(t[1], t[3]);
  }

  lemma {:induction false} SadieRegroup(azimuth: string, elevation: string)
    ensures "azi" + "_" + azimuth + "_" + "ele" + "_" + elevation == "azi_" + azimuth + "_ele_" + elevation
  {
  }

  lemma {:induction false} JoinFour(t: seq<string>, sep: string)
    requires |t| == 4
    ensures Join(t, sep) == t[0] + sep + t[1] + sep + t[2] + sep + t[3]
  {
    assert t == [t[0]] + [t[1], t[2], t[3]];
    JoinCons(t[0], [t[1], t[2], t[3]], sep);
    JoinCons(t[1], [t[2], t[3]], sep);
    assert [t[2], t[3]] == [t[2]] + [t[3]];
    JoinCons(t[2], [t[3]], sep);
  }

  /** The example name of the source. */
  lemma {:induction false} SadieExample()
    ensures ScanSadie("azi_13,0_ele_-64,8") == Accepted(Radians(13.0), Radians(-64.8))
  {
    ExampleTokens();
    ExampleAzimuth();
    ExampleElevation();
    SadieAnglesOf("13,0", "-64,8", 13.0, -64.8);
  }

  lemma {:induction false} ExampleTokens()
    ensures SadieTokens("azi_13,0_ele_-64,8") == Some(("13,0", "-64,8"))
  {
    SadieOfParts("13,0", "-64,8");
    assert "azi_" + "13,0" + "_ele_" + "-64,8" == "azi_13,0_ele_-64,8";
  }

  /** Two angle tokens that `stod` reads are accepted, converted to radians. */
  lemma {:induction false} SadieAnglesOf(azimuth: string, elevation: string, x: real, y: real)
    requires Stod(Replaced(azimuth, ',', '.')) == Some(x) && Stod(Replaced(elevation, ',', '.')) == Some(y)
    ensures SadieAngles(azimuth, elevation) == Accepted(Radians(x), Radians(y))
  {
  }

  lemma {:induction false} ExampleAzimuth()
    ensures Stod(Replaced("13,0", ',', '.')) == Some(13.0)
  {
    ExampleAzimuthText();
    StodFraction("13", "0");
    ExampleDigits();
  }

  lemma {:induction false} ExampleElevation()
    ensures Stod(Replaced("-64,8", ',', '.')) == Some(-64.8)
  {
    ExampleElevationText();
    var body := "64" + ("." + "8");
    StodFraction("64", "8");
    StodNegative(body);
    ExampleDigits();
  }

  lemma {:induction false} ExampleAzimuthText()
    ensures Replaced("13,0", ',', '.') == "13" + ("." + "0")
  {
    ReplacedAt("13,0", ',', '.');
  }

  lemma {:induction false} ExampleElevationText()
    ensures Replaced("-64,8", ',', '.') == "-" + ("64" + ("." + "8"))
  {
    ReplacedAt("-64,8", ',', '.');
  }

  lemma {:induction false} ExampleDigits()
    ensures Decimal("13") == 13 && Decimal("64") == 64
    ensures FractionValue("0") == 0.0 && FractionValue("8") == 0.8
  {
    assert "13"[..1] == "1";
    assert "64"[..1] == "6";
    assert "0"[1..] == "";
    assert "8"[1..] == "";
  }
}
