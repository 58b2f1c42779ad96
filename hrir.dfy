/**
 * The oldest generation (Hrir.hpp): `Response<T>`, a wave file whose Listen
 * name is parsed only when the wave itself is valid, and `Subject<D, T>`,
 * whose constructor discovers the responses and accumulates their raw planar
 * encodings.
 */
module Hrir {
  import opened Wrappers
  import Harmonics
  import opened FileSystem
  import opened Aggregation
  import Subjects
  import HrirCreator

  /** The fields the constructor leaves: the Listen parse when the wave is valid, otherwise nothing assigned. */
  function WaveAngles(name: string, waveValid: bool): (r: HrirCreator.Angles)
    ensures r.valid <==> waveValid && HrirCreator.ListenAngles(name).valid
    ensures !waveValid ==> r.azimuth.None? && r.elevation.None?
  {
    if waveValid then HrirCreator.ListenAngles(name) else HrirCreator.Angles(None, None, false)
  }

  class Response {
    const file: File
    /** `m_radius`, which nothing assigns. */
    var radius: Option<real>
    var azimuth: Option<real>
    var elevation: Option<real>
    var valid: bool
    /** The frames the underlying `Wave` reads. */
    var values: seq<real>

    function Fields(): HrirCreator.Angles
      reads this
    {
      HrirCreator.Angles(azimuth, elevation, valid)
    }

    /**
     * `Response(file)`: `m_valid = false`, then the Listen parse of the name
     * when `Wave::isValid()` (`waveValid`) holds.
     */
    constructor(file: File, waveValid: bool)
      ensures this.file == file && values == [] && radius == None
      ensures Fields() == WaveAngles(file.name, waveValid)
    {
      this.file := file;
      radius := None;
      values := [];
      azimuth, elevation, valid := None, None, false;
      if waveValid {
        var a, e, v := HrirCreator.ParseListenName(file.name);
        azimuth, elevation, valid := a, e, v;
      }
    }

    /** `Wave::read`: the decoded frames, or none. */
    method Read(decoded: Option<seq<real>>)
      modifies this
      ensures values == decoded.GetOr([])
      ensures Fields() == old(Fields()) && radius == old(radius)
    {
      values := decoded.GetOr([]);
    }

    function GetAzimuth(): Option<real>
      reads this
    {
      azimuth
    }

    /** `getElevation` as written: it answers the azimuth field. */
    function GetElevation(): (r: Option<real>)
      reads this
      ensures r == azimuth
    {
      azimuth
    }

    /** The getter as evidently intended: the elevation field. */
    function Elevation(): (r: Option<real>)
      reads this
      ensures r == elevation
    {
      elevation
    }

    function IsValid(): bool
      reads this
    {
      valid
    }

    function NumberOfSamplesPerChannel(): nat
      reads this
    {
      Samples.SamplesPerChannel(values)
    }

    function Snapshot(): Sampled
      reads this
    {
      Sampled(GetAzimuth().GetOr(0.0), Elevation().GetOr(0.0), values)
    }
  }

  /** For the example name of Response.hpp the getter answers pi, the azimuth, instead of the elevation of pi / 3. */
  lemma {:induction false} GetElevationAnswersAzimuth(r: Response)
    requires r.Fields() == WaveAngles("IRC_1002_C_R0195_T180_P060", true)
    ensures r.GetElevation() == Some(Harmonics.Radians(180.0))
    ensures r.Elevation() == Some(Harmonics.Radians(60.0))
    ensures r.GetElevation() != r.Elevation()
  {
    HrirCreator.ListenAnglesExample();
  }

  /** The responses as a snapshot through the getter as written would record them: the elevation is the azimuth. */
  function ElevationAsAzimuth(rs: seq<Sampled>): (qs: seq<Sampled>)
    ensures |qs| == |rs|
    ensures forall i :: 0 <= i < |rs| ==> qs[i] == rs[i].(elevation := rs[i].azimuth)
  {
    seq(|rs|, i requires 0 <= i < |rs| => rs[i].(elevation := rs[i].azimuth))
  }

  /**
   * The accumulation of Hrir.hpp sets only the azimuth of a planar encoder, so
   * the matrices are the same whichever getter the elevation is read with.
   */
  lemma {:induction false} GetElevationHarmless(rs: seq<Sampled>, channel: nat, size: nat, H: nat, enc: Harmonics.Encoder)
    requires H > 0
    ensures Matrix(ElevationAsAzimuth(rs), channel, size, H, enc, PlainRule) == Matrix(rs, channel, size, H, enc, PlainRule)
  {
    MatrixIgnoresElevation(rs, ElevationAsAzimuth(rs), channel, size, H, enc, PlainRule);
  }

  /** What the constructor of the subject learns of each file. */
  function Candidates(files: seq<File>, waves: File -> bool, decode: File -> Option<seq<real>>): (cs: seq<Subjects.Candidate>)
    ensures |cs| == |files|
  {
    seq(|files|, i requires 0 <= i < |files| =>
      Subjects.Candidate(HrirCreator.AsReading(WaveAngles(files[i].name, waves(files[i]))), decode(files[i]).GetOr([])))
  }

  /** `processAdd`: the raw encoding is added, with no prescale, no weight and the azimuth only. */
  const PlainRule: Rule := Rule(Unscaled, Unweighted, false)

  /**
   * The encoder is always the planar one, while the stride is the harmonic
   * count of `D`: in 3D the harmonics from 2N+1 on are never written and stay 0.
   */
  lemma {:induction false} SpatialTailZero(rs: seq<Sampled>, channel: nat, size: nat, enc: Harmonics.Encoder, j: nat, k: nat)
    requires enc.dim == Harmonics.Hoa2d && enc.WellFormed()
    requires j < size && 2 * enc.order + 1 <= k < Harmonics.NumberOfHarmonics(Harmonics.Hoa3d, enc.order)
    ensures j * Harmonics.NumberOfHarmonics(Harmonics.Hoa3d, enc.order) + k < size * Harmonics.NumberOfHarmonics(Harmonics.Hoa3d, enc.order)
    ensures Matrix(rs, channel, size, Harmonics.NumberOfHarmonics(Harmonics.Hoa3d, enc.order), enc, PlainRule)
              [j * Harmonics.NumberOfHarmonics(Harmonics.Hoa3d, enc.order) + k] == 0.0
  {
    var H := Harmonics.NumberOfHarmonics(Harmonics.Hoa3d, enc.order);
    MatrixAt(rs, channel, size, H, enc, PlainRule, j, k);
    CellPastEncoder(rs, channel, j, k, enc, PlainRule);
  }

  class Subject {
    const dim: Harmonics.Dimension
    const order: nat
    const folder: Folder
    /** The `Encoder<Hoa2d, float>::Basic(order)` of the constructor, whatever `D` is. */
    const encoder: Harmonics.Encoder
    var responses: seq<Sampled>
    var size: nat
    var left: array<real>
    var right: array<real>

    /**
     * The encoder is the library's planar one of this order; `size` is the
     * longest response; both matrices hold the plain accumulation of the
     * responses with the stride of `D`.
     */
    ghost predicate Valid()
      reads this, left, right
    {
      encoder.dim == Harmonics.Hoa2d && encoder.order == order && encoder.WellFormed()
      && size == Longest(responses)
      && left != right
      && left[..] == Matrix(responses, 0, size, NumberOfHarmonics(), encoder, PlainRule)
      && right[..] == Matrix(responses, 1, size, NumberOfHarmonics(), encoder, PlainRule)
    }

    /**
     * `Subject(order, folder)`: every `.wav` file of the folder (`files`) whose
     * response is valid is appended, read; then both matrices are sized,
     * zero-filled and accumulated. `waves` says which files `Wave` finds
     * valid, `decode` what it reads from them.
     */
    constructor(order: nat, folder: Folder, dim: Harmonics.Dimension, encoder: Harmonics.Encoder,
                files: seq<File>, waves: File -> bool, decode: File -> Option<seq<real>>)
      requires encoder.dim == Harmonics.Hoa2d && encoder.order == order && encoder.WellFormed()
      ensures this.order == order && this.folder == folder && this.dim == dim && this.encoder == encoder
      ensures responses == Subjects.Discovered(Candidates(files, waves, decode), Subjects.EveryValid)
      ensures Valid()
    {
      this.dim := dim;
      this.order := order;
      this.folder := folder;
      this.encoder := encoder;
      responses := [];
      size := 0;
      left := new real[0];
      right := new real[0];
      new;
      Discover(files, waves, decode);
      Rebuild();
    }

    function GetName(): string {
      folder.name
    }

    function NumberOfResponses(): nat
      reads this
    {
      |responses|
    }

    function ResponsesSize(): nat
      reads this
    {
      size
    }

    function NumberOfHarmonics(): (h: nat)
      ensures h >= Harmonics.NumberOfHarmonics(Harmonics.Hoa2d, order)
    {
      Harmonics.PlanarHarmonicsFewer(order);
      Harmonics.NumberOfHarmonics(dim, order)
    }

    function MatricesSize(): (n: nat)
      reads this, left, right
      ensures Valid() ==> n == left.Length && n == right.Length
    {
      ResponsesSize() * NumberOfHarmonics()
    }

    /** The loop over the files of the constructor; there is no filter besides validity. */
    method Discover(files: seq<File>, waves: File -> bool, decode: File -> Option<seq<real>>)
      requires size == Longest(responses)
      modifies this
      ensures left == old(left) && right == old(right)
      ensures responses == old(responses) + Subjects.Discovered(Candidates(files, waves, decode), Subjects.EveryValid)
      ensures size == Longest(responses)
    {
      ghost var cs := Candidates(files, waves, decode);
      var i := 0;
      while i < |files|
        invariant 0 <= i <= |files|
        invariant left == old(left) && right == old(right)
        invariant responses == old(responses) + Subjects.Discovered(cs[..i], Subjects.EveryValid)
        invariant size == Longest(responses)
      {
        Subjects.DiscoveredStep(cs, i, Subjects.EveryValid);
        Subjects.Reassociate(old(responses), Subjects.Discovered(cs[..i], Subjects.EveryValid), Subjects.Kept(cs[i], Subjects.EveryValid));
        Take(files[i], waves(files[i]), decode);
        i := i + 1;
      }
      assert cs[..i] == cs;
    }

    /** One iteration: construct the response and keep it, read, if it is valid. */
    method Take(file: File, waveValid: bool, decode: File -> Option<seq<real>>)
      requires size == Longest(responses)
      modifies this
      ensures left == old(left) && right == old(right)
      ensures responses == old(responses)
        + Subjects.Kept(Subjects.Candidate(HrirCreator.AsReading(WaveAngles(file.name, waveValid)), decode(file).GetOr([])), Subjects.EveryValid)
      ensures size == Longest(responses)
    {
      var temp := new Response(file, waveValid);
      if temp.IsValid() {
        temp.Read(decode(temp.file));
        LongestSnoc(responses, temp.Snapshot());
        responses := responses + [temp.Snapshot()];
        var samples := temp.NumberOfSamplesPerChannel();
        if size < samples {
          size := samples;
        }
      } else {
        assert responses + [] == responses;
      }
    }

    /** The end of the constructor: `resize`, `fill`, then `processAdd` of every sample at its slice. */
    method Rebuild()
      requires encoder.dim == Harmonics.Hoa2d && encoder.order == order && encoder.WellFormed()
      requires size == Longest(responses)
      modifies this
      ensures responses == old(responses) && size == old(size)
      ensures Valid()
      ensures fresh(left) && fresh(right)
    {
      var H := NumberOfHarmonics();
      left := new real[MatricesSize()](_ => 0.0);
      right := new real[MatricesSize()](_ => 0.0);
      ghost var zerosLeft, zerosRight := left[..], right[..];
      Accumulate(left, right, responses, size, H, encoder, PlainRule);
      AddedToZeros(zerosLeft, left[..], Matrix(responses, 0, size, H, encoder, PlainRule));
      AddedToZeros(zerosRight, right[..], Matrix(responses, 1, size, H, encoder, PlainRule));
    }
  }
}
