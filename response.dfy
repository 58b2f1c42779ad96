/**
 * `hoa::hrir_matrix_creator::Response` (Response.hpp): a response file whose
 * name gives the direction it was measured from, read with the grammar of its
 * database, and the stereo samples decoded from it.
 */
module Responses {
  import opened Wrappers
  import opened Text
  import opened Harmonics
  import opened Samples
  import opened Directions
  import opened Configuration
  import opened FileSystem
  import Aggregation

  /** The direction fields of a response: `m_azimuth`, `m_elevation` and `m_valid`. */
  datatype Reading = Reading(azimuth: real, elevation: real, valid: bool)

  /** The fields as the member initialisers leave them, before any name is parsed. */
  const Unparsed: Reading := Reading(0.0, 0.0, false)

  /** What `parseListenFile` leaves in the fields, starting from `before`. */
  function AfterListen(scan: ListenScan, before: Reading): Reading {
    match scan
    case Unmatched => before
    case AzimuthOnly(azimuth) => before.(azimuth := azimuth)
    case Matched(azimuth, elevation) => Reading(azimuth, elevation, true)
  }

  /** What `parseSadieFile` leaves in the fields, starting from `before`; a name on which `stod` throws has none. */
  function AfterSadie(scan: SadieScan, before: Reading): Reading
    requires !scan.Thrown?
  {
    match scan
    case Rejected => before
    case Accepted(azimuth, elevation) => Reading(azimuth, elevation, true)
  }

  /** A name the parser of `database` reads without throwing. */
  predicate Parsable(name: string, database: HrirDatabase) {
    database == Sadie ==> !ScanSadie(name).Thrown?
  }

  /**
   * The fields of a freshly constructed response. A Listen name is valid exactly
   * when both tags are matched; when only `_T` is, the azimuth is read and the
   * elevation keeps its default; when neither is, both angles keep it. A Sadie
   * name is valid exactly when it has the four-token pattern.
   */
  function Parse(name: string, database: HrirDatabase): (r: Reading)
    requires Parsable(name, database)
    ensures database == Listen ==> (r.valid <==> TagsOf(name).BothAt?)
    ensures database == Listen && !r.valid ==> r.elevation == 0.0
    ensures database == Listen && TagsOf(name).NoTags? ==> r.azimuth == 0.0
    ensures database == Sadie ==> (r.valid <==> SadieTokens(name).Some?)
    ensures database == Sadie && !r.valid ==> r == Unparsed
  {
    match database
    case Listen => AfterListen(ScanListen(name, Fractional), Unparsed)
    case Sadie => AfterSadie(ScanSadie(name), Unparsed)
  }

  /** `std::replace(token.begin(), token.end(), ',', '.')`, done in place on the characters of the token. */
  method DecimalPoint(token: string) returns (r: string)
    ensures r == Replaced(token, ',', '.')
  {
    var buffer := new char[|token|](i requires 0 <= i < |token| => token[i]);
    assert buffer[..] == token;
    Replace(buffer, ',', '.');
    r := buffer[..];
  }

  /** `DigitAfter` is the test `parseListenFile` makes after each `find`. */
  lemma {:induction false} DigitAfterFound(name: string, tag: string)
    requires |tag| == 2
    ensures var pos := Find(name, tag);
      DigitAfter(name, tag) == if pos.Some? && pos.value < |name| - 2 && IsDigit(name[pos.value + 2]) then Some(pos.value + 2) else None
  {
  }

  /** Both tags matched: the angles are `stod` of the text after each, and the response is valid. */
  lemma {:induction false} ListenFieldsMatched(name: string, a: nat, e: nat, before: Reading)
    requires DigitAfter(name, "_T") == Some(a) && DigitAfter(name[a..], "_P") == Some(e)
    ensures AfterListen(ScanListen(name, Fractional), before)
         == Reading(Radians(Stod(name[a..]).value), Radians(Stod(name[a..][e..]).value), true)
  {
    ScanListenMatched(name, Fractional, a, e);
  }

  /** Only `_T` matched: the azimuth is `stod` of the text after it, and nothing else changes. */
  lemma {:induction false} ListenFieldsAzimuth(name: string, a: nat, before: Reading)
    requires DigitAfter(name, "_T") == Some(a) && DigitAfter(name[a..], "_P").None?
    ensures AfterListen(ScanListen(name, Fractional), before) == before.(azimuth := Radians(Stod(name[a..]).value))
  {
    ScanListenAzimuthOnly(name, Fractional, a);
  }

  lemma {:induction false} ListenFieldsUnmatched(name: string, before: Reading)
    requires DigitAfter(name, "_T").None?
    ensures AfterListen(ScanListen(name, Fractional), before) == before
  {
    ScanListenUnmatched(name, Fractional);
  }

  class Response {
    /** The `System::File` the response is. */
    const file: File
    /** The decoded interleaved stereo frames. */
    var values: seq<real>
    var radius: real
    var azimuth: real
    var elevation: real
    var valid: bool

    function Fields(): Reading
      reads this
    {
      Reading(azimuth, elevation, valid)
    }

    /** `Response(file, database_type)`: the member defaults, then the parser of the database. */
    constructor(file: File, database: HrirDatabase)
      requires Parsable(file.name, database)
      ensures this.file == file && values == [] && radius == 1.0
      ensures Fields() == Parse(file.name, database)
    {
      this.file := file;
      values := [];
      radius := 1.0;
      azimuth := 0.0;
      elevation := 0.0;
      valid := false;
      new;
      match database
      case Listen => ParseListenFile();
      case Sadie => ParseSadieFile();
    }

    /**
     * `parseListenFile`: the degrees after the first `_T` become the azimuth;
     * with everything up to them erased, the degrees after the first `_P` become
     * the elevation and the response is valid.
     */
    method ParseListenFile()
      modifies this
      ensures values == old(values) && radius == old(radius)
      ensures Fields() == AfterListen(ScanListen(file.name, Fractional), old(Fields()))
    {
      var name := file.name;
      var pos := Find(name, "_T");
      if pos.Some? && pos.value < |name| - 2 && IsDigit(name[pos.value + 2]) {
        DigitAfterFound(file.name, "_T");
        name := name[pos.value + 2..];
        ParseFromAzimuth(name, pos.value + 2);
      } else {
        DigitAfterFound(file.name, "_T");
        ListenFieldsUnmatched(file.name, old(Fields()));
      }
    }

    /**
     * The rest of `parseListenFile` once the name is erased up to the digits
     * after `_T` (`name` is the name from index `a`): read the azimuth, then
     * look for `_P`.
     */
    method ParseFromAzimuth(name: string, ghost a: nat)
      requires DigitAfter(file.name, "_T") == Some(a) && name == file.name[a..]
      modifies this
      ensures values == old(values) && radius == old(radius)
      ensures Fields() == AfterListen(ScanListen(file.name, Fractional), old(Fields()))
    {
      var degrees := Radians(Stod(name).value);
      var pos := Find(name, "_P");
      DigitAfterFound(name, "_P");
      if pos.Some? && pos.value < |name| - 2 && IsDigit(name[pos.value + 2]) {
        var rest := name[pos.value + 2..];
        ListenFieldsMatched(file.name, a, pos.value + 2, old(Fields()));
        azimuth, elevation, valid := degrees, Radians(Stod(rest).value), true;
      } else {
        ListenFieldsAzimuth(file.name, a, old(Fields()));
        azimuth := degrees;
      }
    }

    /**
     * `parseSadieFile`: the name is cut into `_`-separated tokens; four tokens
     * `azi`, a, `ele`, e give the angles, read by `stod` once their commas are
     * decimal points.
     */
    method ParseSadieFile()
      requires Parsable(file.name, Sadie)
      modifies this
      ensures values == old(values) && radius == old(radius)
      ensures Fields() == AfterSadie(ScanSadie(file.name), old(Fields()))
    {
      var tokens := Tokenize(file.name, '_');
      if |tokens| == 4 && tokens[0] == "azi" && tokens[2] == "ele" {
        var azimuthText := DecimalPoint(tokens[1]);
        var elevationText := DecimalPoint(tokens[3]);
        var a, e := Stod(azimuthText), Stod(elevationText);
        assert a.Some? && e.Some?;
        azimuth := Radians(a.value);
        elevation := Radians(e.value);
        valid := true;
      }
    }

    /**
     * `read`: the frames libsndfile decodes from the file, or none when it
     * cannot open it, it is not stereo or the read comes up short (`decoded` is
     * None then).
     */
    method Read(decoded: Option<seq<real>>)
      modifies this
      ensures values == decoded.GetOr([])
      ensures Fields() == old(Fields()) && radius == old(radius)
    {
      match decoded
      case Some(frames) => values := frames;
      case None => values := [];
    }

    function GetAzimuth(): real
      reads this
    {
      azimuth
    }

    function GetElevation(): real
      reads this
    {
      elevation
    }

    function IsValid(): bool
      reads this
    {
      valid
    }

    function NumberOfSamplesPerChannel(): nat
      reads this
    {
      SamplesPerChannel(values)
    }

    function GetSample(channel: nat, index: nat): real
      reads this
    {
      Sample(values, channel, index)
    }

    /** What the accumulation reads of the response. */
    function Snapshot(): Aggregation.Sampled
      reads this
    {
      Aggregation.Sampled(azimuth, elevation, values)
    }
  }

  /** The Listen example of the source's comment: both angles, converted to radians. */
  lemma {:induction false} ListenReading()
    ensures Parse("IRC_1002_C_R0195_T180_P060", Listen) == Reading(Radians(180.0), Radians(60.0), true)
  {
    ListenExample(Fractional);
  }

  /** A name that stops after `_T`: the azimuth is read, the elevation stays 0 and the response is invalid. */
  lemma {:induction false} ListenPartialReading()
    ensures Parse("IRC_1002_C_R0195_T180", Listen) == Reading(Radians(180.0), 0.0, false)
  {
    ListenPartialExample(Fractional);
  }

  /** The Sadie example of the source's comment. */
  lemma {:induction false} SadieReading()
    ensures Parsable("azi_13,0_ele_-64,8", Sadie)
    ensures Parse("azi_13,0_ele_-64,8", Sadie) == Reading(Radians(13.0), Radians(-64.8), true)
  {
    SadieExample();
  }
}
