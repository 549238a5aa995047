# CosmicMozart core, modelled in Dafny

CosmicMozart turns a picture into sound. The image stage scans the columns of a
grey-scale grid, maps each column's brightest sample to a tone between 600 Hz
and 1000 Hz, and halves the list of tones by keeping the lower tone of each
adjacent pair. The synthesizer then shares 20 seconds equally among those
tones. A second, independent stage re-renders a list of frequencies on a piano.
Each frequency snaps to the nearest of the 88 equal-tempered keys, A0 to C8,
with A4 at 440 Hz and the lower key winning a tie. The stage looks up the
recorded clip of that key, skips keys whose clip is missing, down-mixes
multi-channel clips to one channel, and joins the clips in input order. The
song takes the sample rate of the first clip found.

The project has three files:

- `wrappers.dfy`: `Option` (Python's `None`) and `Result` (a value or a raised error).
- `generator.dfy`, module `Generator`: the upload filter `allowed_file`, and the
  image pipeline up to the tone length, as in `Generator.py`.
- `piano_converter.dfy`, module `PianoConverter`: the key tables, the nearest-key
  search, the down-mix and the song builder of `PainoConverter.py`.

Modelling choices:

- The image is an `array2<Intensity>` (8-bit values) that is only read. The
  column scan is a method with the source's two nested loops. Its result is
  tied to the function `ColumnPeak`, which the lemma `ColumnPeakIsMax` proves
  to be the column maximum, starting from 0.
- Frequencies are exact `real`s. The source's endpoints 600 and 1000 are exact
  in floating point too.
- A tone length that cannot be computed is an error value,
  `Failure(DivisionByZero)`. The source raises Python's `ZeroDivisionError` at
  `20 / len(freq_array)` when the image has no columns.
- The frequency table is a parameter `t` with a ratio `semitone`, constrained
  by `EqualTempered`: 88 entries, `t[48] = 440`, each key `semitone` times the
  one below, `semitone > 0` and `semitone^12 = 2`. These conditions have exactly
  one solution, `t[n] = 440 * 2^((n - 48)/12)`: the exact values that the
  source's floating-point table approximates. The nearest-key lemmas and
  `StandardPitch` ask only for 88 strictly ascending entries with A4 at 440 Hz,
  which the floating-point table satisfies as well.
  The name table is the source's literal list.
- The clip directory is a map from key name to a decoded clip, `Clip(rate, data)`.
  A missing key stands for a missing `.wav` file.
- The module-level list `notes` is the field of class `Converter`.
  `create_song_from_wav` is its method `CreateSongFromWav`, which keeps the
  source's loop.
- Decoded WAV data is either `Mono(samples)`, a 1-D array, or
  `Frames(channels, frames)`, a 2-D array. `np.mean(...).astype(dtype)` becomes
  the integer mean rounded toward zero, written out as `TruncDiv`. Dafny's own
  `/` rounds down, so it would differ on negative sums. The floating-point mean
  of integer samples of at most 32 bits cannot round across an integer, so the truncated value
  matches the exact one.

Facts about the code that the model keeps:

- The code scans `min(width, 250)` columns (250 after the resize) and
  `min(height, 250)` rows.
- `stereo_to_mono` averages over any number of channels.
- The code keeps no count of skipped notes; the model proves that a missing
  clip adds nothing.

## Model

| member | source | states |
|---|---|---|
| `Generator.AllowedFile` | Generator.py:21-33 | accepted exactly when the name has a '.' and the text after its last '.', lower-cased, is png, jpg, jpeg or bmp |
| `Generator.Lower` | Generator.py:33 | `.lower()` on ASCII: same length, each capital letter becomes its lower-case letter, every other character unchanged |
| `Generator.LastDot` | Generator.py:33 | finds the split point of `rsplit('.', 1)`: the index of a '.' with no '.' after it, or none when the name has no '.' |
| `Generator.AcceptedExamples` | Generator.py:33 | "a.tar.PNG" is accepted: only the last extension counts, in any letter case |
| `Generator.RefusedExamples` | Generator.py:33 | "png" (no dot) and "a." (empty extension) are refused |
| `Generator.ColumnPeak` | Generator.py:98-102 | specification function: the value `max_intensity` holds after the inner loop has read the first `rows` samples of column x; its meaning is proved by `ColumnPeakIsMax` |
| `Generator.ColumnPeakIsMax` | Generator.py:98-102 | the running maximum of a column is at least every scanned sample, and is one of them unless it is the starting 0 |
| `Generator.BlackColumn` | Generator.py:98-102 | a column of zeros has peak 0 |
| `Generator.Frequency` | Generator.py:91-104 | every intensity 0..255 maps into [600, 1000] Hz; 0 gives exactly 600, 255 exactly 1000 |
| `Generator.FrequencyMonotone` | Generator.py:104 | the map preserves and reflects order, both weak and strict |
| `Generator.FrequencyOfMin` | Generator.py:104-109 | the smaller of two mapped frequencies is the frequency of the smaller intensity |
| `Generator.FrequencyProfile` | Generator.py:97-105 | one frequency per column for the first min(width, 250) columns, in column order, each the frequency of the column's peak over the first min(height, 250) rows |
| `Generator.PairwiseMin` | Generator.py:107-112 | the output has ceil(n/2) entries, entry i is the min of inputs 2i and 2i+1, an odd last input passes unchanged, and every output is an input |
| `Generator.SegmentDuration` | Generator.py:136-137 | fails exactly on an empty list; otherwise the positive tone length times the number of tones is the total 20 s |
| `Generator.ProcessImageToFrequencies` | Generator.py:88-137 | the tone list has ceil(min(width,250)/2) entries in [600, 1000], entry i is the frequency of the dimmer peak of columns 2i and 2i+1 (or of the last column), an all-black image gives all 600 Hz, and the tone length fails exactly when the image has no columns |
| `PianoConverter.NoteNamesTable` | PainoConverter.py:11-20 | 88 names, A0 first, C8 last, A4 at index 48 |
| `PianoConverter.EqualTempered` | PainoConverter.py:10 | specification predicate: 88 entries, A4 at 440 Hz, a constant step ratio whose twelfth power is 2; the exact values the floating-point table approximates |
| `PianoConverter.SemitoneAboveOne` | PainoConverter.py:10 | a positive ratio whose twelfth power is 2 exceeds 1 |
| `PianoConverter.TableShift` | PainoConverter.py:10 | k keys up multiplies the frequency by semitone^k |
| `PianoConverter.OctaveDoubles` | PainoConverter.py:10 | twelve keys up doubles the frequency |
| `PianoConverter.AKeys` | PainoConverter.py:9-20 | A0 = 27.5, A3 = 220, A5 = 880, A7 = 3520 Hz, under the names A0, A3, A5, A7 |
| `PianoConverter.TablePositive` | PainoConverter.py:10 | every key frequency is positive |
| `PianoConverter.TableAscending` | PainoConverter.py:10 | the frequency table is strictly ascending |
| `PianoConverter.ArgminFrom` | PainoConverter.py:32 | the scan returns an index of the table, no earlier than its current best |
| `PianoConverter.ArgminFromIsFirstNearest` | PainoConverter.py:32 | a scan started from a first-nearest index below i ends on a first-nearest index of the whole table |
| `PianoConverter.ClosestNoteIndex` | PainoConverter.py:32 | the arg-min is an index of the table |
| `PianoConverter.ClosestIsFirstNearest` | PainoConverter.py:32 | the chosen entry is at least as near to f as every entry and strictly nearer than every earlier one (first minimum wins) |
| `PianoConverter.ClosestPianoNote` | PainoConverter.py:31-33 | specification function: the frequency and name of the entry chosen by `ClosestNoteIndex`; its meaning is proved by `ClosestPianoNoteIsNearest` |
| `PianoConverter.ClosestPianoNoteIsNearest` | PainoConverter.py:31-33 | the returned frequency and name come from one key, and that key is nearest |
| `PianoConverter.ExactMatch` | PainoConverter.py:32 | on an ascending table a frequency equal to entry m selects m |
| `PianoConverter.BetweenNeighbours` | PainoConverter.py:32 | between two neighbouring keys the nearer is selected, the lower one on a tie |
| `PianoConverter.MidpointGoesLow` | PainoConverter.py:32 | the exact midpoint of two neighbours selects the lower key |
| `PianoConverter.OutsideTheKeyboard` | PainoConverter.py:32 | at or below the lowest key selects A0, at or above the highest selects C8 |
| `PianoConverter.StandardPitch` | PainoConverter.py:9-33 | on any strictly ascending 88-entry table with A4 at 440 Hz, 440 Hz selects (440, "A4") |
| `PianoConverter.TruncDiv` | PainoConverter.py:38 | the integer quotient rounded toward zero: its remainder has the sign of the dividend and is smaller than the divisor |
| `PianoConverter.ChannelMean` | PainoConverter.py:38 | specification function: `np.mean(...).astype` of one frame, the channel sum divided by the channel count and truncated toward zero; bounded by `MeanWithinRange` and `MeanOfEqualChannels` |
| `PianoConverter.StereoToMono` | PainoConverter.py:36-39 | one sample per frame; 1-D data is returned unchanged; a 2-D frame becomes the truncated mean of its channels |
| `PianoConverter.MeanWithinRange` | PainoConverter.py:38 | the truncated mean of channels in [lo, hi] lies in [lo, hi], so casting back to the sample type cannot wrap |
| `PianoConverter.MeanOfEqualChannels` | PainoConverter.py:38 | identical channels down-mix to that same value |
| `PianoConverter.MonoWithinRange` | PainoConverter.py:36-39 | down-mixing keeps every sample within the range of the input |
| `PianoConverter.FoundClips` | PainoConverter.py:47-67 | at most one clip per input frequency, each one a clip of the directory, and all well-formed when the directory is |
| `PianoConverter.FoundClipsSingle` | PainoConverter.py:54-67 | one frequency contributes its nearest key's clip, or nothing when that clip is missing |
| `PianoConverter.FoundClipsSplit` | PainoConverter.py:47-67 | the clips of a concatenated input are the clips of each part, in order |
| `PianoConverter.JoinClips` | PainoConverter.py:61-67 | specification function: the down-mixed samples of the clips, concatenated in order; its length and range are proved by `JoinClipsLength` and `JoinClipsInRange` |
| `PianoConverter.JoinClipsSplit` | PainoConverter.py:67 | joining concatenated clip lists concatenates the joined samples |
| `PianoConverter.JoinClipsLength` | PainoConverter.py:67 | the song's length is the sum of its clips' frame counts |
| `PianoConverter.SongRate` | PainoConverter.py:64-65 | specification function: the rate of the first found clip, none when no clip is found; characterized by `SongRateSplit` |
| `PianoConverter.SongRateSplit` | PainoConverter.py:64-65 | the song's rate is the first found clip's rate; later input never changes it once set |
| `PianoConverter.JoinClipsInRange` | PainoConverter.py:67-70 | clips holding 16-bit samples give a song of 16-bit samples, so the final int16 cast is the identity |
| `PianoConverter.StandardPitchSong` | PainoConverter.py:47-67 | on any strictly ascending table with A4 at 440 Hz, the input [440.0] gives exactly the down-mixed A4 clip at the A4 clip's rate |
| `PianoConverter.MissingClipAddsNothing` | PainoConverter.py:56-58 | a frequency whose key has no clip adds no clips and sets no rate |
| `PianoConverter.MatchedNames` | PainoConverter.py:47-55 | specification function: the names `notes` gains, one per input frequency; characterized by `MatchedNamesAt` and `MatchedNamesSplit` |
| `PianoConverter.MatchedNamesAt` | PainoConverter.py:55 | the log gains exactly one name per input frequency, skipped ones included, each the nearest key's name |
| `PianoConverter.MatchedNamesSplit` | PainoConverter.py:55 | the names logged for a concatenated input are those of each part, in order |
| `PianoConverter.SongStep` | PainoConverter.py:47-67 | one more frequency appends its name to the log, appends its clip's down-mixed samples when the clip exists, and sets the rate only if none was set |
| `PianoConverter.Converter.constructor` | PainoConverter.py:40 | the note log starts empty |
| `PianoConverter.Converter.CreateSongFromWav` | PainoConverter.py:42-72 | the log gains the matched names of all inputs; the result is the joined down-mixed found clips in input order, at the rate of the first clip found (none if no clip was found) |

## Left out

- The web application is not modelled: the Flask app, its routes, the upload saving, `secure_filename`, `url_for` and the templates (Generator.py:5-18, 35-68, 181-182). OpenCV's `imread`, `resize` and `cvtColor` (Generator.py:81-88) are library code outside the model. The model starts from the grey-scale grid they produce, and takes its size as given rather than fixed at 250 by 250.
- The `img is None` check (Generator.py:83-84) is not modelled as an error path. It runs after `resize`, which would already have failed on a missing image.
- Tone synthesis is not modelled: the sine waves, the divide-by-3 pitch shift, the harmonics, the peak normalization, the `tanh` soft clipping and the 16-bit scaling and WAV write (Generator.py:120-177). All of it is floating-point and transcendental arithmetic. Only the non-empty requirement of the tone-length division is modelled.
- The file `frequencies.txt` is not modelled, neither its write (Generator.py:116-118) nor its read (PainoConverter.py:23-25). The frequency list is passed directly as a value.
- `wavfile.read`, `os.path.exists` and `wavfile.write` (PainoConverter.py:56, 61, 71) are replaced by the clip map and the returned samples and rate. Writing a song with no rate, when no clip was found, fails inside `wavfile.write`, and that failure is not modelled.
- The formula `440 * 2 ** ((n - 49) / 12)` (PainoConverter.py:10) yields irrational values, so it is not evaluated. The table is characterised by `EqualTempered` instead.
- `TableShift`, `OctaveDoubles`, `AKeys`, `TablePositive` and `TableAscending` are about the exact table that `EqualTempered` pins down. The source's float64 table meets them only up to rounding; only its eight A keys are exact. The nearest-key lemmas, `StandardPitch` and `StandardPitchSong` assume only an ascending 88-entry table with A4 at 440 Hz, which the float table meets.
- The dead `closest_freq is None` branch (PainoConverter.py:49-50) is not modelled, and neither are the `print` diagnostics (Generator.py:113-114, PainoConverter.py:51, 57, 72, 76).
- Generator.Frequency: floating-point rounding of `(v / 255) * 400` is not modelled. Values are exact reals, and the endpoints 600 and 1000 are exact in floating point as well.
- Generator.AllowedFile: lower-casing covers ASCII letters only. Python's `str.lower` also changes other characters, but none of them becomes one of the letters in png, jpg, jpeg or bmp, so the decision is the same.
- PianoConverter.StereoToMono: only integer sample data is modelled. For floating-point WAV data numpy's mean is not truncated. Data with no channels is excluded by `WellFormed`, because a decoded WAV file always has at least one channel. 64-bit integer data (54- to 64-bit PCM) is not modelled: numpy's float64 mean rounds it before truncating. `ChannelMean` and `MeanOfEqualChannels` therefore match the source only for samples of at most 32 bits.
- PianoConverter.ClosestNoteIndex: NaN frequencies are not modelled, and neither are +inf and frequencies above about 10^18 Hz. Frequencies are reals. In float64 the distances to neighbouring keys tie beyond that point, and the first minimum then picks a lower key: A0 for +inf and for frequencies of about 10^20 Hz and more. `OutsideTheKeyboard` proves C8 for every real frequency at or above the highest key.
- PianoConverter.JoinClipsInRange: the final `np.int16` cast (PainoConverter.py:70) is the identity on in-range samples, as this lemma shows for 16-bit clips. Its wrap-around on out-of-range samples is not modelled.
- Clip sample rates that differ from one another are not reconciled, as in the source. The song takes the first clip's rate.
