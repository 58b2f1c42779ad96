/**
 * The pieces of `std::string` and of the C numeric conversions that the
 * filename grammars and the path helpers rely on: `find`, `find_last_of`,
 * the tokenising loop on a delimiter, `std::replace`, `isdigit`, `tolower`,
 * and `stol` / `stod` restricted to decimal text.
 */
module Text {
  import opened Wrappers

  /** `std::isdigit` in the C locale. */
  predicate IsDigit(c: char) {
    '0' <= c <= '9'
  }

  predicate AllDigits(s: string) {
    forall i :: 0 <= i < |s| ==> IsDigit(s[i])
  }

  function DigitValue(c: char): (r: nat)
    requires IsDigit(c)
    ensures r < 10
  {
    (c as int) - ('0' as int)
  }

  /** `std::tolower` in the C locale: only the letters 'A' to 'Z' change. */
  function ToLower(c: char): (r: char)
    ensures !('A' <= r <= 'Z')
    ensures r == c || 'A' <= c <= 'Z'
    ensures (r == '_') == (c == '_')
  {
    if 'A' <= c <= 'Z' then (c as int + 32) as char else c
  }

  /** How many times `c` occurs in `s`. */
  function Count(s: string, c: char): nat {
    multiset(s)[c]
  }

  // ---------------------------------------------------------------------------
  // find / find_last_of
  // ---------------------------------------------------------------------------

  /** `s` holds the text `p` starting at position `i`. */
  predicate OccursAt(s: string, p: string, i: nat) {
    i + |p| <= |s| && s[i..i + |p|] == p
  }

  /** `s.find(p, from)`: the first position at or after `from` that holds `p`; None is `npos`. */
  function FindFrom(s: string, p: string, from: nat): (r: Option<nat>)
    ensures r.Some? ==> from <= r.value && OccursAt(s, p, r.value)
    ensures r.Some? ==> forall i :: from <= i < r.value ==> !OccursAt(s, p, i)
    ensures r.None? ==> forall i: nat :: from <= i ==> !OccursAt(s, p, i)
    decreases |s| - from
  {
    if from + |p| > |s| then None
    else if s[from..from + |p|] == p then Some(from)
    else FindFrom(s, p, from + 1)
  }

  /** `s.find(p)`. */
  function Find(s: string, p: string): Option<nat> {
    FindFrom(s, p, 0)
  }

  /** Any occurrence of `p` bounds the position `find` reports, and none comes before it. */
  lemma {:induction false} FindFirst(s: string, p: string, q: nat)
    requires OccursAt(s, p, q)
    requires forall i :: 0 <= i < q ==> !OccursAt(s, p, i)
    ensures Find(s, p) == Some(q)
  {
  }

  /** A one-character pattern occurs exactly where that character stands. */
  lemma {:induction false} OccursAtChar(s: string, c: char, i: nat)
    ensures OccursAt(s, [c], i) <==> i < |s| && s[i] == c
  {
    if i < |s| {
      assert s[i..i + 1] == [s[i]];
    }
  }

  /** A position that holds `p`, with no earlier one from `from` on, is what `find(p, from)` reports. */
  lemma {:induction false} FindFromFirst(s: string, p: string, from: nat, q: nat)
    requires from <= q && OccursAt(s, p, q)
    requires forall i :: from <= i < q ==> !OccursAt(s, p, i)
    ensures FindFrom(s, p, from) == Some(q)
  {
  }

  /** After cutting `a` characters off the front, `p` occurs at `q` exactly where it occurred at `a + q`. */
  lemma {:induction false} OccursAfterCut(s: string, p: string, a: nat, q: nat)
    requires a <= |s|
    ensures OccursAt(s[a..], p, q) <==> OccursAt(s, p, a + q)
  {
    if a + q + |p| <= |s| {
      assert s[a..][q..q + |p|] == s[a + q..a + q + |p|];
    }
  }

  /** Searching the text left after erasing its first `a` characters is searching the whole text from `a`. */
  lemma {:induction false} FindAfterCut(s: string, p: string, a: nat)
    requires a <= |s|
    ensures Find(s[a..], p).Some? <==> FindFrom(s, p, a).Some?
    ensures Find(s[a..], p).Some? ==> FindFrom(s, p, a).value == a + Find(s[a..], p).value
  {
    match Find(s[a..], p)
    case Some(q) =>
      OccursAfterCut(s, p, a, q);
      forall i | a <= i < a + q ensures !OccursAt(s, p, i) {
        OccursAfterCut(s, p, a, i - a);
      }
      FindFromFirst(s, p, a, a + q);
    case None =>
      if FindFrom(s, p, a).Some? {
        OccursAfterCut(s, p, a, FindFrom(s, p, a).value - a);
        assert false;
      }
  }

  /** A pattern with a character that the text lacks occurs nowhere in it. */
  lemma {:induction false} NotOccurring(s: string, p: string, c: char)
    requires c in p && c !in s
    ensures forall i: nat :: !OccursAt(s, p, i)
  {
    forall i: nat ensures !OccursAt(s, p, i) {
      if OccursAt(s, p, i) {
        assert false;
      }
    }
  }

  /** `find` of a single character reports none exactly when the character is absent. */
  lemma {:induction false} FindCharNone(s: string, c: char)
    ensures Find(s, [c]).None? <==> c !in s
  {
    if Find(s, [c]).Some? {
      OccursAtChar(s, c, Find(s, [c]).value);
    } else if c in s {
      var i :| 0 <= i < |s| && s[i] == c;
      OccursAtChar(s, c, i);
      assert false;
    }
  }

  /** `s.find_last_of(c)`: the last position holding `c`; None is `npos`. */
  function FindLast(s: string, c: char): (r: Option<nat>)
    ensures r.Some? ==> r.value < |s| && s[r.value] == c
    ensures r.Some? ==> forall i :: r.value < i < |s| ==> s[i] != c
    ensures r.None? ==> c !in s
  {
    if s == [] then None
    else if s[|s| - 1] == c then Some(|s| - 1)
    else
      assert s == s[..|s| - 1] + [s[|s| - 1]];
      FindLast(s[..|s| - 1], c)
  }

  // ---------------------------------------------------------------------------
  // Tokenising on a one-character delimiter, and its inverse
  // ---------------------------------------------------------------------------

  /**
   * The tokens the source's loop collects: repeatedly cut the text before the
   * first delimiter, drop the delimiter, and finally keep what remains.
   */
  function Split(s: string, d: char): (r: seq<string>)
    ensures |r| >= 1
    decreases |s|
  {
    match Find(s, [d])
    case None => [s]
    case Some(p) => [s[..p]] + Split(s[p + 1..], d)
  }

  /** The parts with `sep` between consecutive ones and none after the last. */
  function Join(parts: seq<string>, sep: string): string {
    if |parts| == 0 then ""
    else if |parts| == 1 then parts[0]
    else parts[0] + sep + Join(parts[1..], sep)
  }

  lemma {:induction false} JoinCons(part: string, rest: seq<string>, sep: string)
    requires |rest| >= 1
    ensures Join([part] + rest, sep) == part + sep + Join(rest, sep)
  {
    assert ([part] + rest)[1..] == rest;
  }

  /** Appending a part appends the separator and the part, except to nothing. */
  lemma {:induction false} JoinSnoc(parts: seq<string>, part: string, sep: string)
    ensures Join(parts + [part], sep) == if parts == [] then part else Join(parts, sep) + sep + part
    decreases |parts|
  {
    if |parts| == 1 {
      assert (parts + [part])[1..] == [part];
    } else if |parts| > 1 {
      assert (parts + [part])[1..] == parts[1..] + [part];
      JoinSnoc(parts[1..], part, sep);
    }
  }

  /** Joining the tokens back with the delimiter gives the original text. */
  lemma {:induction false} SplitJoin(s: string, d: char)
    ensures Join(Split(s, d), [d]) == s
    decreases |s|
  {
    match Find(s, [d])
    case None =>
    case Some(p) =>
      OccursAtChar(s, d, p);
      var head, rest := s[..p], s[p + 1..];
      var tokens := Split(rest, d);
      assert Split(s, d) == [head] + tokens;
      SplitJoin(rest, d);
      JoinCons(head, tokens, [d]);
      Rejoin(s, p);
  }

  /** A text is the part before position `p`, the character there and the part after. */
  lemma {:induction false} Rejoin(s: string, p: nat)
    requires p < |s|
    ensures s[..p] + [s[p]] + s[p + 1..] == s
  {
  }

  /** No token contains the delimiter. */
  lemma {:induction false} SplitTokensClean(s: string, d: char)
    ensures forall i :: 0 <= i < |Split(s, d)| ==> d !in Split(s, d)[i]
    decreases |s|
  {
    match Find(s, [d])
    case None =>
      FindCharNone(s, d);
    case Some(p) =>
      forall i | 0 <= i < p ensures s[i] != d {
        OccursAtChar(s, d, i);
      }
      SplitTokensClean(s[p + 1..], d);
  }

  /** Splitting a join of delimiter-free parts recovers the parts. */
  lemma {:induction false} JoinSplit(parts: seq<string>, d: char)
    requires |parts| >= 1
    requires forall i :: 0 <= i < |parts| ==> d !in parts[i]
    ensures Split(Join(parts, [d]), d) == parts
  {
    if |parts| == 1 {
      FindCharNone(parts[0], d);
    } else {
      var head, rest := parts[0], Join(parts[1..], [d]);
      var s := head + [d] + rest;
      assert Join(parts, [d]) == s;
      OccursAtChar(s, d, |head|);
      forall i | 0 <= i < |head| ensures !OccursAt(s, [d], i) {
        OccursAtChar(s, d, i);
        assert s[i] == head[i];
      }
      FindFirst(s, [d], |head|);
      assert s[..|head|] == head;
      assert s[|head| + 1..] == rest;
      JoinSplit(parts[1..], d);
      assert parts == [head] + parts[1..];
    }
  }

  /** There is one token more than there are delimiters. */
  lemma {:induction false} SplitCount(s: string, d: char)
    ensures |Split(s, d)| == Count(s, d) + 1
    decreases |s|
  {
    match Find(s, [d])
    case None =>
      FindCharNone(s, d);
    case Some(p) =>
      OccursAtChar(s, d, p);
      forall i | 0 <= i < p ensures s[i] != d {
        OccursAtChar(s, d, i);
      }
      assert d !in s[..p];
      assert s == s[..p] + [d] + s[p + 1..];
      assert multiset(s) == multiset(s[..p]) + multiset([d]) + multiset(s[p + 1..]);
      SplitCount(s[p + 1..], d);
  }

  /**
   * The loop of the Sadie parser: while the delimiter is found, keep the text
   * before it as a token and erase up to and including the delimiter; then keep
   * the rest as the last token.
   */
  method Tokenize(s: string, d: char) returns (tokens: seq<string>)
    ensures tokens == Split(s, d)
  {
    var name := s;
    tokens := [];
    var pos := Find(name, [d]);
    while pos.Some?
      invariant pos == Find(name, [d])
      invariant tokens + Split(name, d) == Split(s, d)
      decreases |name|
    {
      tokens := tokens + [name[..pos.value]];
      name := name[pos.value + 1..];
      pos := Find(name, [d]);
    }
    tokens := tokens + [name];
  }

  // ---------------------------------------------------------------------------
  // std::replace
  // ---------------------------------------------------------------------------

  /** `s` with every `from` turned into `to`. */
  function Replaced(s: string, from: char, to: char): string {
    if s == [] then []
    else Replaced(s[..|s| - 1], from, to) + [if s[|s| - 1] == from then to else s[|s| - 1]]
  }

  /** Replacing changes each `from` to `to` and keeps every other character in its place. */
  lemma {:induction false} ReplacedAt(s: string, from: char, to: char)
    ensures |Replaced(s, from, to)| == |s|
    ensures forall i :: 0 <= i < |s| ==> Replaced(s, from, to)[i] == if s[i] == from then to else s[i]
  {
    if s != [] {
      ReplacedAt(s[..|s| - 1], from, to);
    }
  }

  /** After replacing, no `from` is left (unless it is its own replacement). */
  lemma {:induction false} ReplacedRemoves(s: string, from: char, to: char)
    requires from != to
    ensures from !in Replaced(s, from, to)
  {
    ReplacedAt(s, from, to);
  }

  /** `std::replace(a.begin(), a.end(), from, to)` on a character buffer. */
  method Replace(a: array<char>, from: char, to: char)
    modifies a
    ensures a[..] == Replaced(old(a[..]), from, to)
  {
    ghost var s := a[..];
    var k := 0;
    while k < a.Length
      invariant 0 <= k <= a.Length
      invariant a[..k] == Replaced(s[..k], from, to)
      invariant forall t :: k <= t < a.Length ==> a[t] == s[t]
    {
      assert s[..k + 1][..k] == s[..k];
      assert a[k] == s[k];
      if a[k] == from {
        a[k] := to;
      }
      assert a[..k + 1] == a[..k] + [a[k]];
      k := k + 1;
    }
    assert a[..] == a[..k];
    assert s == s[..k];
  }

  // ---------------------------------------------------------------------------
  // stol / stod on decimal text
  // ---------------------------------------------------------------------------

  /** Length of the run of digits that starts `s`. */
  function DigitRun(s: string): (n: nat)
    ensures n <= |s|
    ensures forall i :: 0 <= i < n ==> IsDigit(s[i])
    ensures n < |s| ==> !IsDigit(s[n])
  {
    if s == [] || !IsDigit(s[0]) then 0 else 1 + DigitRun(s[1..])
  }

  /** The value of a string of decimal digits, most significant first. */
  function Decimal(s: string): nat
    requires AllDigits(s)
  {
    if s == [] then 0 else 10 * Decimal(s[..|s| - 1]) + DigitValue(s[|s| - 1])
  }

  /** The digit run of a digit string followed by a non-digit is that string. */
  lemma {:induction false} DigitRunOf(a: string, rest: string)
    requires AllDigits(a)
    requires rest == [] || !IsDigit(rest[0])
    ensures DigitRun(a + rest) == |a|
  {
    if a != [] {
      assert (a + rest)[1..] == a[1..] + rest;
      DigitRunOf(a[1..], rest);
    }
  }

  /** `std::stol` on text that starts with a digit: the value of the leading digit run. */
  function Stol(s: string): nat
    requires |s| > 0 && IsDigit(s[0])
  {
    Decimal(s[..DigitRun(s)])
  }

  /** Length of the digits after a '.' that starts `rest`; 0 when `rest` does not start with '.'. */
  function FractionRun(rest: string): (m: nat)
    ensures m > 0 ==> m + 1 <= |rest| && AllDigits(rest[1..m + 1])
  {
    if |rest| > 0 && rest[0] == '.' then DigitRun(rest[1..]) else 0
  }

  /** A digit run with an optional fraction; None when neither part has a digit. */
  function UnsignedDecimal(body: string): (r: Option<real>)
    ensures |body| > 0 && IsDigit(body[0]) ==> r.Some? && r.value >= 0.0
  {
    var n := DigitRun(body);
    var m := FractionRun(body[n..]);
    if n == 0 && m == 0 then None
    else
      var fraction := if m > 0 then body[n..][1..m + 1] else "";
      Some(Decimal(body[..n]) as real + FractionValue(fraction))
  }

  /** The value of the digits after a decimal point: each digit weighs a tenth of the one before. */
  function FractionValue(f: string): (r: real)
    requires AllDigits(f)
    ensures 0.0 <= r < 1.0
    ensures f == "" ==> r == 0.0
  {
    if f == [] then 0.0 else (DigitValue(f[0]) as real + FractionValue(f[1..])) / 10.0
  }

  /**
   * `std::stod` on decimal text: an optional sign, a digit run, and an optional
   * '.' with a second digit run; None where the source throws because no digit
   * is there to convert.
   */
  function Stod(s: string): (r: Option<real>)
    ensures |s| > 0 && IsDigit(s[0]) ==> r.Some? && r.value >= 0.0
  {
    if |s| > 0 && s[0] == '-' then
      match UnsignedDecimal(s[1..])
      case None => None
      case Some(x) => Some(-x)
    else if |s| > 0 && s[0] == '+' then UnsignedDecimal(s[1..])
    else UnsignedDecimal(s)
  }

  /** `stol` reads exactly the digits that lead the text. */
  lemma {:induction false} StolOf(a: string, rest: string)
    requires |a| > 0 && AllDigits(a)
    requires rest == [] || !IsDigit(rest[0])
    ensures Stol(a + rest) == Decimal(a)
  {
    DigitRunOf(a, rest);
    assert (a + rest)[..|a|] == a;
  }

  /** `stod` of leading digits that neither a digit nor a '.' follows is their value. */
  lemma {:induction false} StodOf(a: string, rest: string)
    requires |a| > 0 && AllDigits(a)
    requires rest == [] || (!IsDigit(rest[0]) && rest[0] != '.')
    ensures Stod(a + rest) == Some(Decimal(a) as real)
  {
    var s := a + rest;
    DigitRunOf(a, rest);
    assert DigitRun(s) == |a|;
    assert s[..|a|] == a;
    assert s[|a|..] == rest;
    assert FractionRun(s[|a|..]) == 0;
    UnsignedWhole(s);
    assert s[0] == a[0];
    StodDigitLed(s);
  }

  /** A digit run that no fraction follows reads as its own value. */
  lemma {:induction false} UnsignedWhole(body: string)
    requires DigitRun(body) > 0 && FractionRun(body[DigitRun(body)..]) == 0
    ensures UnsignedDecimal(body) == Some(Decimal(body[..DigitRun(body)]) as real)
  {
  }

  /** Text that starts with a digit has no sign for `stod` to read. */
  lemma {:induction false} StodDigitLed(s: string)
    requires |s| > 0 && IsDigit(s[0])
    ensures Stod(s) == UnsignedDecimal(s)
  {
  }

  /** `stod` of a digit run, a '.' and a second digit run. */
  lemma {:induction false} StodFraction(a: string, f: string)
    requires |a| > 0 && AllDigits(a) && AllDigits(f)
    ensures Stod(a + ("." + f)) == Some(Decimal(a) as real + FractionValue(f))
  {
    UnsignedFraction(a, f);
    assert (a + ("." + f))[0] == a[0];
    StodDigitLed(a + ("." + f));
  }

  /** A leading '-' negates what `stod` reads from digit-led text. */
  lemma {:induction false} StodNegative(body: string)
    requires |body| > 0 && IsDigit(body[0])
    ensures Stod("-" + body) == Some(-Stod(body).value)
  {
    assert ("-" + body)[1..] == body;
  }

  lemma {:induction false} UnsignedFraction(a: string, f: string)
    requires |a| > 0 && AllDigits(a) && AllDigits(f)
    ensures UnsignedDecimal(a + ("." + f)) == Some(Decimal(a) as real + FractionValue(f))
  {
    var rest := "." + f;
    var body := a + rest;
    DigitRunOf(a, rest);
    assert body[..|a|] == a;
    assert body[|a|..] == rest;
    FractionRunOf(f);
    UnsignedParts(body, |a|, |f|);
    var fraction := if |f| > 0 then body[|a|..][1..|f| + 1] else "";
    assert fraction == f;
    assert Decimal(body[..|a|]) == Decimal(a);
  }

  /** `UnsignedDecimal` once the lengths of its two digit runs are known. */
  lemma {:induction false} UnsignedParts(body: string, n: nat, m: nat)
    requires DigitRun(body) == n && FractionRun(body[n..]) == m && n > 0
    ensures UnsignedDecimal(body) == Some(Decimal(body[..n]) as real + FractionValue(if m > 0 then body[n..][1..m + 1] else ""))
  {
  }

  lemma {:induction false} FractionRunOf(f: string)
    requires AllDigits(f)
    ensures FractionRun("." + f) == |f|
    ensures ("." + f)[1..|f| + 1] == f
  {
    assert ("." + f)[1..] == f + [];
    DigitRunOf(f, []);
    assert ("." + f)[1..|f| + 1] == f;
  }

  /** Without a '.', `stod` and `stol` read a digit-led text alike. */
  lemma {:induction false} StodAgreesWithStol(s: string)
    requires |s| > 0 && IsDigit(s[0])
    requires '.' !in s
    ensures Stod(s) == Some(Stol(s) as real)
  {
    var n := DigitRun(s);
    assert s == s[..n] + s[n..];
    StodOf(s[..n], s[n..]);
  }
}
