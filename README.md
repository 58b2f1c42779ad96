# HRIR matrix creator, modelled in Dafny

This project models the HRIR matrix creator of HoaLibrary-Tools. The creator
reads a folder of head-related impulse responses. These are stereo wave files
whose names give the direction each one was measured from. It projects every
time sample of every response onto the circular (2D) or spherical (3D)
harmonics of a chosen decomposition order. The left and right matrices it
builds are summed over the responses, one row of harmonics per time sample.

The repository holds three generations of this code, and all three are modelled:

- **Current.** `Response.hpp` and `Subject.hpp`, with the `System.hpp` file
  helpers and the `Config.hpp` settings record. These are the modules
  `Responses`, `Subjects`, `FileSystem` and `Configuration`. A response's name
  is read with the grammar of its database:
  - Listen names look like `IRC_1002_C_R0195_T180_P060`;
  - Sadie names look like `azi_13,0_ele_-64,8`.
- **`HrirCreator.hpp`.** The module `HrirCreator`. It reads Listen names with
  `stol` and scales the 3D harmonics differently. It builds the header name by
  mangling the folder name.
- **`Hrir.hpp`.** The module `Hrir`. Its constructor does the whole
  accumulation. It uses the planar encoder whatever the dimension is.

Shared modules:

- `Directions` holds the position-only scanners of both name grammars and
  their reference semantics.
- `Aggregation` defines the matrices as a function of the accepted responses
  (`Matrix`, built from `Cell`). It holds the imperative accumulation loops
  proved against that function.
- `Text` models the standard string routines the parsers use: `find`,
  tokenising on `_`, `std::replace`, `stod` and `stol`.
- `Samples` models the interleaved stereo frames and `getSample`.
- `Harmonics` models the harmonic count, degree-to-radian conversion, the
  harmonic encoder (a collaborator from HoaLibrary, given as a record of
  functions) and `Signal::add`.

Classes keep the source's state:

- A response is a class whose constructor parses the name into its fields.
- A subject is a class whose `Read` appends the accepted responses. It
  reallocates both matrices as `array<real>` and accumulates into them in
  place.
- `Valid()` ties the arrays to `Aggregation.Matrix` of the responses held.

## Model

| member | source | states |
|---|---|---|
| FileSystem.FormatName | Sources/System.hpp:26-40 | a formatted name never contains '.' or the path separator |
| FileSystem.StemClean | Sources/System.hpp:28-33 | cutting a name at its first '.' leaves no '.' in it |
| FileSystem.FormatNameKeepsPlainName | Sources/System.hpp:26-40 | a name without '.' and without a separator is returned unchanged |
| FileSystem.FormatNameIdempotent | Sources/System.hpp:26-40 | formatting a formatted name changes nothing |
| FileSystem.FormatNameOfPath | Sources/System.hpp:26-40 | for a directory, a base name and an extension, formatting keeps exactly the base name |
| FileSystem.FormatType | Sources/System.hpp:42-51 | a type without '.' is unchanged; otherwise the result is its suffix from the last '.', starting with the only '.' it contains |
| FileSystem.FormatTypeIdempotent | Sources/System.hpp:42-51 | formatting a formatted type changes nothing |
| FileSystem.FormatTypeAfter | Sources/System.hpp:42-51 | a prefix without '.' followed by an extension formats to that extension |
| FileSystem.FormatPath | Sources/System.hpp:53-61 | the path is a prefix of the result, at most one character shorter; the result is empty only for the empty path, and otherwise ends with the separator; a path already ending with the separator is returned unchanged |
| FileSystem.FormatPathIdempotent | Sources/System.hpp:53-61 | formatting a formatted path changes nothing |
| FileSystem.IsTypeAsWritten | Sources/System.hpp:63-66 | as written, the type test holds only when the name equals the type; it throws exactly when the name is more than twice as long as the type; a name shorter than the type is rejected |
| FileSystem.IsTypeCounterexample | Sources/System.hpp:63-66 | `a.wav` is rejected as a `.wav` file, and the example Listen file name makes the test throw, though both end with `.wav` |
| FileSystem.HasTypeIff | Sources/System.hpp:63-66 | the corrected type test holds exactly when the name is some stem followed by the type |
| FileSystem.IsFolder | Sources/System.hpp:68-71 | an entry is a folder exactly when its name has no '.' |
| FileSystem.MakeFile | Sources/System.hpp:81 | a file's name has no '.' or separator; its path is empty or ends with the separator; a dotted type is kept from its last '.' |
| FileSystem.MoveFile | Sources/System.hpp:83 | as written, the moved-to file takes name and path but has an empty type, and the source keeps its type |
| FileSystem.MovedFileLosesType | Sources/System.hpp:83-87 | the moved-to file's full name is path plus name, so it names a different file whenever the type was not empty |
| FileSystem.MoveFileIntended | Sources/System.hpp:83 | the intended move takes all three parts and leaves the source empty |
| FileSystem.MoveFileIntendedKeepsFullName | Sources/System.hpp:83-87 | the intended move keeps the full name, and it differs from the written move only in the type |
| FileSystem.MakeFolder | Sources/System.hpp:96 | a folder's name has no '.' or separator; its path is empty or ends with the separator |
| FileSystem.MoveFolder | Sources/System.hpp:98 | a moved-to folder equals the original, which is left empty |
| FileSystem.FullNameRoundTrip | Sources/System.hpp:81-87 | formatting a file's full name as a name or as a type gives back its name and its type |
| FileSystem.SelectFiles | Sources/System.hpp:102-122 | never more files than directory entries |
| FileSystem.SelectFilesMembers | Sources/System.hpp:110-117 | a file is listed exactly when some entry is not a folder, has the requested type (or none is requested) and gives rise to it |
| FileSystem.PushedFilesLoseType | Sources/System.hpp:112-116 | even with the type test corrected, every file `push_back` moves into the list loses its type, and its full name then differs from the file's own |
| FileSystem.GetFilesAsWritten | Sources/System.hpp:102-122 | as written, the listing never holds more files than entries; it is None when the type test throws |
| FileSystem.GetFilesAsWrittenLosesType | Sources/System.hpp:110-117 | as written, no listed file carries a type |
| FileSystem.GetFilesAsWrittenSkips | Sources/System.hpp:114-117 | as written, a dotted entry that the type test rejects is skipped |
| FileSystem.GetFilesAsWrittenStops | Sources/System.hpp:114 | as written, a dotted entry on which the type test throws ends the listing, whatever came before it |
| FileSystem.GetFilesAsWrittenSkipsWave | Sources/System.hpp:114-117 | as written, `a.wav` is not listed as a `.wav` file |
| FileSystem.GetFilesAsWrittenStopsOnListenName | Sources/System.hpp:114 | as written, a wave entry as long as a Listen name ends the listing |
| Text.ToLower | Sources/HrirCreator.hpp:230 | the result is never an upper-case letter; only upper-case letters change; '_' maps to itself and nothing else does |
| Text.FindFrom | Sources/Response.hpp:140 | the result is the first occurrence at or after the start, and there is none exactly when no occurrence exists |
| Text.FindFirst | Sources/Response.hpp:140 | an occurrence with none before it is what `find` returns |
| Text.FindAfterCut | Sources/Response.hpp:146-148 | a search in the erased name is a search in the whole name from the cut, shifted by the cut |
| Text.FindCharNone | Sources/System.hpp:70 | a character search fails exactly when the character does not occur |
| Text.FindLast | Sources/System.hpp:45 | the result is the last occurrence, and there is none exactly when the character does not occur |
| Text.Split | Sources/Response.hpp:115-122 | a name always gives at least one token |
| Text.SplitJoin | Sources/Response.hpp:115-122 | joining the tokens with the delimiter gives the name back |
| Text.JoinSplit | Sources/Response.hpp:115-122 | splitting a join of delimiter-free tokens gives back those tokens |
| Text.SplitTokensClean | Sources/Response.hpp:115-122 | no token contains the delimiter |
| Text.SplitCount | Sources/Response.hpp:115-122 | there is one more token than delimiters in the name |
| Text.Tokenize | Sources/Response.hpp:115-122 | the find/erase loop produces exactly the tokens of `Split` |
| Text.ReplacedAt | Sources/Response.hpp:126-127 | replacing keeps the length and changes exactly the matching characters |
| Text.ReplacedRemoves | Sources/Response.hpp:126-127 | after replacing, the replaced character no longer occurs |
| Text.Replace | Sources/Response.hpp:126-127 | the in-place loop leaves the array equal to `Replaced` of its old contents |
| Text.DigitRun | Sources/Response.hpp:147 | the leading digit run: every character in it is a digit, and the next character is not |
| Text.Stod | Sources/Response.hpp:147 | text that starts with a digit always converts, to a non-negative value |
| Text.StodOf | Sources/Response.hpp:147 | a digit run followed by neither a digit nor '.' converts to its decimal value |
| Text.StodFraction | Sources/Response.hpp:129-130 | digits, '.', digits convert to the integer part plus the fraction |
| Text.StodNegative | Sources/Response.hpp:130 | a leading '-' negates the value |
| Text.StolOf | Sources/HrirCreator.hpp:39 | a digit run followed by a non-digit converts to its decimal value |
| Text.StodAgreesWithStol | Sources/HrirCreator.hpp:39-46 | on text without '.', `stod` and `stol` agree |
| Samples.SamplesPerChannel | Sources/Response.hpp:86-89 | twice the per-channel count is the frame count, or one less when that is odd |
| Samples.SampleOfInterleave | Sources/Response.hpp:91-99 | from interleaved channels, `getSample` answers sample j of the channel asked for, and 0 for a channel past 1 or an index past the end |
| Samples.ChannelsRoundTrip | Sources/Response.hpp:91-99 | an even frame sequence is the interleaving of its two channels |
| Harmonics.NumberOfHarmonics | Sources/Subject.hpp:68-71 | an order-N decomposition has at least 2N + 1 harmonics |
| Harmonics.PlanarHarmonicsFewer | Sources/Hrir.hpp:94-98 | the planar harmonic count never exceeds the spatial one, and equals it only at order 0 |
| Harmonics.RadiansInverse | Sources/Response.hpp:129-130 | the degree-to-radian conversion is invertible and maps only 0 to 0 |
| Harmonics.Add | Sources/Subject.hpp:254 | `Signal::add` adds the input at the offset to the buffer and leaves every other cell unchanged |
| Directions.DigitAfter | Sources/Response.hpp:142-144 | a tag match points at a digit within the name, after the tag |
| Directions.TagsOf | Sources/Response.hpp:140-151 | the azimuth position is a digit of the name; the elevation position is a digit of the name erased up to it |
| Directions.TagsOnName | Sources/Response.hpp:140-151 | read on the unerased name, the tags are: the first `_T` followed by a digit, then the first `_P` at or after that digit, itself followed by a digit; a failed test at either step ends the scan there |
| Directions.ScanListenAt | Sources/Response.hpp:146-155 | when both tags are matched, both angles are read from the unerased name: from the azimuth digits, and from the elevation digits at the sum of the two offsets |
| Directions.ScanListenUnmatched | Sources/Response.hpp:142-144 | no digit after the first `_T` means nothing is read |
| Directions.ScanListenMatched | Sources/Response.hpp:146-155 | both tags matched give an azimuth and an elevation, each read from the text after its tag |
| Directions.ScanListenAzimuthOnly | Sources/Response.hpp:146-149 | `_T` matched without `_P` gives the azimuth only |
| Directions.ListenElevationAfterAzimuth | Sources/Response.hpp:148 | a `_P` that occurs only before the first `_T` is never matched |
| Directions.ListenRoundTrip | Sources/Response.hpp:135-160 | a name built as prefix, `_T`, digits, `_P`, digits, suffix reads back both numbers as angles |
| Directions.ListenAzimuthOnly | Sources/Response.hpp:135-160 | a name with `_T` and digits but no `_P` after them reads back the azimuth only |
| Directions.ListenExample | Sources/Response.hpp:137 | the example name reads 180 and 60 degrees |
| Directions.ListenPartialExample | Sources/Response.hpp:142-158 | the example name cut after `_T180` reads the azimuth only |
| Directions.ListenTagOrderExample | Sources/Response.hpp:148 | in `IRC_P060_T180` the name has a `_P` with digits after it, but it stands before `_T` and is ignored: only the azimuth is read |
| Directions.ListenConversionsAgree | Sources/HrirCreator.hpp:39-46 | on names without '.', reading with `stol` and reading with `stod` give the same scan |
| Directions.DegreesAgree | Sources/HrirCreator.hpp:39 | on digit-led text without '.', both conversions agree |
| Directions.SadieOfParts | Sources/Response.hpp:115-124 | `azi_` a `_ele_` e, with no `_` in a or e, has exactly the tokens a and e in the angle positions |
| Directions.SadiePartsOf | Sources/Response.hpp:115-124 | conversely, every name with the four-token pattern is built that way |
| Directions.SadieAnglesOf | Sources/Response.hpp:126-131 | converted tokens give the angles in radians |
| Directions.SadieExample | Sources/Response.hpp:110 | the example name reads 13 and -64.8 degrees |
| Responses.Parse | Sources/Response.hpp:29-37 | Listen: valid exactly when both tags are matched; when not valid the elevation stays 0, and with no tag the azimuth stays 0 too. Sadie: valid exactly when the four-token pattern holds, and otherwise every field keeps its default |
| Responses.DecimalPoint | Sources/Response.hpp:126-127 | the in-place replace turns the token into `Replaced(token, ',', '.')` |
| Responses.ListenFieldsMatched | Sources/Response.hpp:146-155 | with both tags, the fields are the text after `_T` read as the azimuth, the text after `_P`, valid |
| Responses.ListenFieldsAzimuth | Sources/Response.hpp:146-147 | with `_T` only, only the azimuth changes |
| Responses.ListenFieldsUnmatched | Sources/Response.hpp:142-144 | without `_T` and a digit, no field changes |
| Responses.Response.constructor | Sources/Response.hpp:29-37 | the member defaults (radius 1, no frames), then the fields are `Parse` of the name for the database |
| Responses.Response.ParseListenFile | Sources/Response.hpp:135-160 | the find/erase/`stod` steps leave exactly the fields the Listen scan gives, starting from the old fields; frames and radius are untouched |
| Responses.Response.ParseFromAzimuth | Sources/Response.hpp:146-157 | the steps after the `_T` erase leave exactly the fields the Listen scan gives |
| Responses.Response.ParseSadieFile | Sources/Response.hpp:108-133 | the tokenise/replace/`stod` steps leave exactly the fields the Sadie scan gives |
| Responses.Response.Read | Sources/Response.hpp:39-67 | the frames become what decoding yields, or none on any failure; direction fields and radius are untouched |
| Responses.ListenReading | Sources/Response.hpp:137 | the example Listen name gives a valid response at 180 and 60 degrees |
| Responses.ListenPartialReading | Sources/Response.hpp:142-158 | a name without `_P` gives the azimuth, elevation 0, and an invalid response |
| Responses.SadieReading | Sources/Response.hpp:110 | the example Sadie name parses without throwing, to a valid response at 13 and -64.8 degrees |
| Aggregation.Matrix | Sources/Subject.hpp:241-244 | a matrix has `size` times H cells |
| Aggregation.LongestSnoc | Sources/Subject.hpp:233-237 | appending a response raises the running maximum to its per-channel count when that is larger |
| Aggregation.LongestIsMaximum | Sources/Subject.hpp:233-237 | `m_size` bounds every accepted response's length, equals one of them, and is 0 with no response |
| Aggregation.MatrixAt | Sources/Subject.hpp:261-266 | the cell at `j * H + k` is the sum over responses for time sample j and harmonic k |
| Aggregation.CellAppend | Sources/Subject.hpp:257-271 | a cell over two groups of responses is the sum of their cells |
| Aggregation.CellPermutation | Sources/Subject.hpp:257-271 | a cell depends only on the multiset of the responses, not on their order |
| Aggregation.MatrixPermutation | Sources/Subject.hpp:257-271 | any reordering of the listed files (equal multisets of responses) gives the same matrices |
| Aggregation.CellPastEncoder | Sources/Hrir.hpp:98-107 | harmonics the encoder does not write stay 0 |
| Aggregation.CellIgnoresElevation | Sources/Hrir.hpp:101-107 | under a rule that does not steer the encoder by the elevation, responses that agree on azimuth and frames give the same cell |
| Aggregation.MatrixIgnoresElevation | Sources/Hrir.hpp:101-107 | the same for whole matrices |
| Aggregation.ContributionPastEnd | Sources/Response.hpp:91-99 | a response adds nothing past its own length or for a channel past 1 |
| Aggregation.CellWeighted | Sources/Subject.hpp:250-255 | a per-harmonic weight scales the whole cell |
| Aggregation.CellFourPi | Sources/HrirCreator.hpp:382-393 | the four-pi weighting is the odd-degree weighting times 4 pi on every harmonic of nonzero order |
| Aggregation.CellPrescaled | Sources/Subject.hpp:265-268 | with a linear encoder, dividing each sample by d divides the cell by d |
| Aggregation.ContributionLinear | Sources/Subject.hpp:250-255 | with a linear encoder, a contribution is weight times prescaled sample times the encoding of 1 |
| Aggregation.Weigh | Sources/Subject.hpp:310-314 | the weighting loop multiplies harmonic k by its weight and changes nothing else |
| Aggregation.ProcessSample | Sources/Subject.hpp:250-255 | encode, weigh and add: the buffer gains the weighted encoding at the offset, elsewhere nothing |
| Aggregation.Accumulate | Sources/Subject.hpp:257-271 | after the loops over responses and time samples, each array cell is its old value plus the `Matrix` cell of its channel |
| Aggregation.AddResponse | Sources/Subject.hpp:259-270 | the time-sample loop of one response extends the accumulation invariant by that response |
| Aggregation.AccumulatedMatrix | Sources/Subject.hpp:257-271 | the accumulation invariant over all responses gives the old contents plus `Matrix` |
| Aggregation.AddedToZeros | Sources/Subject.hpp:241-244 | added to the zero-filled matrices the result is exactly `Matrix` |
| Subjects.Candidates | Sources/Subject.hpp:226-228 | one candidate per listed file |
| Subjects.DiscoveredBounds | Sources/Subject.hpp:229 | never more responses than files; in 2D every kept response is at elevation 0 |
| Subjects.DiscoveredAll | Sources/Subject.hpp:229 | every file is kept exactly when every reading passes the filter |
| Subjects.DiscoveredNone | Sources/Subject.hpp:285 | when no reading is valid nothing is kept |
| Subjects.PlanarCell | Sources/Subject.hpp:246-271 | a 2D cell is the plain sum of encodings divided by order + 1, halved at harmonic 0 only |
| Subjects.SpatialCell | Sources/Subject.hpp:302-336 | a 3D cell is the plain sum of steered encodings divided by the number of responses, times 2l + 1 |
| Subjects.Subject.constructor | Sources/Subject.hpp:40-44 | a new subject holds the settings and no response, and is valid |
| Subjects.Subject.NumberOfHarmonics | Sources/Subject.hpp:68-71 | there is at least one harmonic |
| Subjects.Subject.MatricesSize | Sources/Subject.hpp:73-76 | the product is the length of both matrices |
| Subjects.Subject.Read | Sources/Subject.hpp:223-272 | appends the responses of the listed files that pass the filter (2D: valid and elevation 0; 3D, lines 278-337: valid); both matrices become `Matrix` of all responses held, under the rule of the dimension |
| Subjects.Subject.Discover | Sources/Subject.hpp:226-239 | the file loop appends exactly the kept responses and keeps `m_size` their longest length |
| Subjects.Subject.Take | Sources/Subject.hpp:228-238 | one file: its response is appended, decoded, exactly when it passes the filter |
| Subjects.Subject.Rebuild | Sources/Subject.hpp:241-271 | the reallocated matrices are `Matrix` of the responses held |
| Subjects.DefaultOutputFileName | Sources/Subject.hpp:80-87 | with the default settings the header is `./Hoa_Hrir_` class name `_2D.hpp` or `_3D.hpp` |
| Subjects.OutputFileNamesDiffer | Sources/Subject.hpp:84 | the 2D and the 3D header names never coincide |
| Subjects.RenderedAll | Sources/Subject.hpp:195-200 | one rendering for each value, in order |
| Subjects.DataLiteral | Sources/Subject.hpp:192-202 | the loop writes the braced values joined by `, `, with no separator after the last one |
| Subjects.DataLiteralEnds | Sources/Subject.hpp:198 | an empty matrix gives `{}`, and one value gives no separator |
| Subjects.ZerosLiteral | Sources/Subject.hpp:162-165 | zeros are written `0.f` as float and `0.` as double |
| HrirCreator.ListenAngles | Sources/HrirCreator.hpp:30-54 | valid exactly when both tags are matched; the elevation is assigned exactly then, and the azimuth exactly when `_T` is matched |
| HrirCreator.AnglesAgreeWithParse | Sources/HrirCreator.hpp:30-54 | on names without '.', this generation accepts the same names as `Response.hpp`, with the same angles |
| HrirCreator.ListenAnglesExample | Sources/HrirCreator.hpp:30-54 | the example name gives 180 and 60 degrees |
| HrirCreator.ParseListenName | Sources/HrirCreator.hpp:32-53 | the find/erase/`stol` steps produce exactly `ListenAngles` of the name |
| HrirCreator.Response.constructor | Sources/HrirCreator.hpp:30-54 | a new response has no frames, count 0, an unassigned radius, and the fields of `ListenAngles` |
| HrirCreator.Response.Read | Sources/HrirCreator.hpp:56-83 | the frames become what decoding yields, or none; nothing else changes |
| HrirCreator.PlanarRuleUnchanged | Sources/HrirCreator.hpp:157-164 | the 2D scaling is that of `Subject.hpp`: the two rules are literally the same, so the lemma needs no proof |
| HrirCreator.SpatialRuleFourPi | Sources/HrirCreator.hpp:382-408 | a 3D cell is the `Subject.hpp` one times 4 pi on every harmonic of nonzero order |
| HrirCreator.Subject.constructor | Sources/HrirCreator.hpp:113-114 | a new subject has no response and is valid |
| HrirCreator.Subject.NumberOfHarmonics | Sources/HrirCreator.hpp:121-122 | there is at least one harmonic |
| HrirCreator.Subject.MatricesSize | Sources/HrirCreator.hpp:123 | the product is the length of both matrices |
| HrirCreator.Subject.Read | Sources/HrirCreator.hpp:125-173 | appends the responses of the `.wav` files that pass the filter (2D: valid at elevation 0; 3D, lines 344-418: valid); both matrices become `Matrix` of the responses under this generation's rule |
| HrirCreator.Subject.Discover | Sources/HrirCreator.hpp:127-140 | the file loop appends exactly the kept responses and keeps the longest length |
| HrirCreator.Subject.Take | Sources/HrirCreator.hpp:130-139 | one file: appended, decoded, exactly when it passes the filter |
| HrirCreator.Subject.Rebuild | Sources/HrirCreator.hpp:142-166 | the reallocated matrices are `Matrix` of the responses held |
| HrirCreator.Subject.HeaderPath | Sources/HrirCreator.hpp:233 | the header path is `../Results/Hrir`, the mangled folder name, `2D.hpp` or `3D.hpp` |
| HrirCreator.MangleName | Sources/HrirCreator.hpp:219-232 | the erase/lower loop produces exactly `Mangled` of the folder name |
| HrirCreator.MangledTailShorter | Sources/HrirCreator.hpp:221-232 | mangling never lengthens a name, and an underscore-free tail keeps its length |
| HrirCreator.MangledTailLowers | Sources/HrirCreator.hpp:221-232 | an underscore-free tail is lowered character by character |
| HrirCreator.MangledKeepsFirst | Sources/HrirCreator.hpp:221-232 | the first character is kept as it is |
| HrirCreator.MangledListenFolder | Sources/HrirCreator.hpp:219-232 | `IRC_1002` becomes `Irc1002` |
| HrirCreator.MangledDoubleUnderscore | Sources/HrirCreator.hpp:223-227 | the character after an erased `_` is skipped, so `A__B` becomes `A_b` |
| HrirCreator.ListenFolderHeader | Sources/HrirCreator.hpp:233 | the 2D header of the folder `IRC_1002` is `../Results/HrirIrc10022D.hpp` |
| Hrir.WaveAngles | Sources/Hrir.hpp:27-55 | an invalid wave leaves the response invalid with no angle assigned; a valid one gets the Listen parse |
| Hrir.Response.constructor | Sources/Hrir.hpp:27-55 | a new response has the fields of `WaveAngles` and no frames |
| Hrir.Response.Read | Sources/Hrir.hpp:87 | the frames become what decoding yields; nothing else changes |
| Hrir.Response.GetElevation | Sources/Hrir.hpp:60 | as written, the getter answers the azimuth field |
| Hrir.Response.Elevation | Sources/Hrir.hpp:60 | the intended getter answers the elevation field |
| Hrir.GetElevationAnswersAzimuth | Sources/Hrir.hpp:60 | for the example name the getter answers pi instead of the elevation pi / 3 |
| Hrir.ElevationAsAzimuth | Sources/Hrir.hpp:60 | the responses as the getter as written reports them: each elevation replaced by the azimuth, all else kept |
| Hrir.GetElevationHarmless | Sources/Hrir.hpp:98-108 | the matrices of `Hrir.hpp` are the same whether the elevations are read through the getter as written or as intended |
| Hrir.Candidates | Sources/Hrir.hpp:80-84 | one candidate per listed file |
| Hrir.SpatialTailZero | Sources/Hrir.hpp:94-107 | in 3D, harmonics 2N+1 and above are never written by the planar encoder and stay 0 |
| Hrir.Subject.constructor | Sources/Hrir.hpp:77-110 | the subject holds exactly the valid responses of the files, in order, and both matrices are their plain planar accumulation with the stride of the dimension |
| Hrir.Subject.NumberOfHarmonics | Sources/Hrir.hpp:122 | the stride is at least the planar encoder's harmonic count |
| Hrir.Subject.MatricesSize | Sources/Hrir.hpp:123 | the product is the length of both matrices |
| Hrir.Subject.Discover | Sources/Hrir.hpp:80-93 | the file loop appends exactly the valid responses and keeps the longest length |
| Hrir.Subject.Take | Sources/Hrir.hpp:83-92 | one file: appended, decoded, exactly when valid |
| Hrir.Subject.Rebuild | Sources/Hrir.hpp:94-109 | the zero-filled matrices receive the plain accumulation of every response |

## Left out

- Directory listing and wave decoding (`opendir`/`readdir`, libsndfile, `Wave.hpp`) are I/O. The model takes three inputs instead:
  - the file list and the directory entries (`SelectFiles` is the selection rule of `getFiles`);
  - a decoding function from file to frames, with None for every failure;
  - in `Hrir.hpp`, the wave's validity as a flag. `Wave.hpp` is not part of this model. Its `read`, `getSample` and `isValid`, which `Hrir.hpp` calls, are given the semantics of `Response.hpp`: the decoded frames or none, and a sample of 0 for a channel past 1 or an index past the end.
- FileSystem.SelectFiles: builds each listed file as the intended move would, by copy, and not through the move constructor that `push_back` runs (lines 112 and 116). As written every listed file loses its type, so `read` opens the path and name without `.wav` and decodes nothing. `GetFilesAsWritten` and `PushedFilesLoseType` state that behaviour; the subjects are given the corrected listing.
- `System::getFolders` is left out. It is directory I/O; its filter is `IsFolder`.
- Writing the header files is left out: `writeForCPP`'s full text, `writeForPD` and `Hrir.hpp`'s `write` are stream output. The names they open (`OutputFileName`, `OutputPath`) and the array literal of `writeData` (`DataLiteral`) are modelled.
- Rendering nonzero numbers with `max_digits10` precision is left out. Floating-point formatting is a parameter `render`; only the zero case is fixed.
- Subjects.DataLiteral: does not model the narrowing of doubles to float before rendering, because floating point is modelled as exact reals.
- HrirCreator's float-literal branches (`x - (int)x`, lines 245-288) are left out. They are floating-point formatting of the header text.
- All arithmetic is on exact reals. There is no double rounding, no `float` narrowing in `Hrir.hpp`, and no NaN.
- Text.Stod: reads only leading digits, an optional '.' fraction and a leading '-'. `std::stod` also accepts exponents (so a Sadie token such as `1e2` would read as 100), `inf`, `nan`, hexadecimal and leading white space; those are not modelled.
- `stol` is modelled without its `out_of_range` on huge numbers, because integers are unbounded.
- Responses.Response.constructor: requires a Sadie name on which `stod` does not throw, because the uncaught `invalid_argument` ends the program. The rest of `ScanSadie` models which names throw. `Responses.Response.ParseSadieFile`, `Subjects.Subject.Read`, `Subjects.Subject.Discover`, `Subjects.Subject.Take` and `Subjects.Candidates` carry the same precondition, for the same reason.
- Out-of-memory paths are left out: the `resize` failure in `read`, and the failed `new double[]` in `HrirCreator.hpp`.
- Matrices are fresh arrays of the new size rather than vectors resized in place. The contents are the same after `fill`.
- The harmonic encoder of HoaLibrary is an abstract collaborator. It is a record of functions known only to write `NumberOfHarmonics` values, and where a lemma needs it, to be linear in the sample. Its actual trigonometry is not modelled.
- `getRadius` is not modelled as a computation. `Response.hpp` fixes it at 1; the older generations never assign it, which is modelled as None.
- The command-line drivers (`main.cpp` of both tools) are not part of this model.
- The Sadie grammar is not accepted by `HrirCreator.hpp` and `Hrir.hpp`, which read Listen names only, as the source does.

## Findings

| source | as written | input that shows it | evidently intended | confidence | as-written member | corrected member |
|---|---|---|---|---|---|---|
| Sources/System.hpp:65 | `type.compare(name.size() - type.size(), type.size(), name)` compares the tail of the type with the whole name, so the test holds only when the name equals the type; and the offset exceeds the type's length when the name is more than twice as long, so `compare` throws `out_of_range` inside a `noexcept` function | `isType("a.wav", ".wav")` is false; `isType("IRC_1002_C_R0195_T180_P060.wav", ".wav")` throws, so `getFiles(".wav")` terminates on a real folder | the name ends with the type | not executed | FileSystem.IsTypeCounterexample | FileSystem.HasTypeIff |
| Sources/System.hpp:83 | the move constructor swaps `m_type` with itself, so the new file's type stays empty and the moved-from file keeps it | `getFiles` moves every file it lists into its vector with `push_back` (lines 112 and 116). So with the type test corrected, listing a folder `w/` holding `a.wav` gives a file whose full name is `w/a`, and `read` (Response.hpp:41, HrirCreator.hpp:58) fails to open it | the type is swapped out of `other` like name and path | not executed | FileSystem.PushedFilesLoseType | FileSystem.MoveFileIntendedKeepsFullName |
| Sources/Hrir.hpp:60 | `getElevation` returns `m_azimuth` | the example name `IRC_1002_C_R0195_T180_P060` gives an elevation of pi instead of pi / 3 | it returns `m_elevation` | not executed | Hrir.GetElevationAnswersAzimuth | Hrir.Response.Elevation |

The corrected test `HasType` and the corrected move are the ones `SelectFiles` uses.

The `getElevation` bug has no effect on the matrices, as written or corrected. The `Hrir.hpp` subject never calls the getter: it sets only the azimuth of a planar encoder. `GetElevationHarmless` proves that its matrices are the same either way, so only other callers of the getter would see the wrong value.
