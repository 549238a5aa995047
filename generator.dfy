/**
 * The image side of the program: the upload filter on file extensions, and the
 * part of the image-to-sound pipeline that turns a grey-scale grid into the list
 * of tone frequencies and the duration of each tone.
 */
module Generator {
  import opened Wrappers

  // ---------------------------------------------------------------------------
  // Upload filter

  /** The extensions the upload form accepts, in lower case. */
  const AllowedExtensions: set<string> := {"png", "jpg", "jpeg", "bmp"}

  /** ASCII lower-casing of one character. */
  function ToLowerAscii(c: char): char
  {
    if 'A' <= c <= 'Z' then (c as int + 32) as char else c
  }

  /** The string with every ASCII capital letter lower-cased. */
  function Lower(s: string): (r: string)
    ensures |r| == |s|
    ensures forall i :: 0 <= i < |r| ==> !('A' <= r[i] <= 'Z')
    ensures forall i :: 0 <= i < |s| && !('A' <= s[i] <= 'Z') ==> r[i] == s[i]
    ensures forall i :: 0 <= i < |s| && 'A' <= s[i] <= 'Z' ==> r[i] as int == s[i] as int + ('a' as int - 'A' as int)
  {
    seq(|s|, i requires 0 <= i < |s| => ToLowerAscii(s[i]))
  }

  /** The index of the last '.' of `s`, if it has one. */
  function LastDot(s: string): (r: Option<nat>)
    ensures r.Some? ==> r.value < |s| && s[r.value] == '.'
                        && forall j :: r.value < j < |s| ==> s[j] != '.'
    ensures r.None? ==> forall j :: 0 <= j < |s| ==> s[j] != '.'
  {
    if |s| == 0 then None
    else if s[|s| - 1] == '.' then Some(|s| - 1)
    else LastDot(s[..|s| - 1])
  }

  /**
   * A file name is accepted exactly when it contains a '.' and the text after
   * its last '.', lower-cased, is one of the allowed extensions.
   */
  function AllowedFile(filename: string): (ok: bool)
    ensures ok <==> exists k :: 0 <= k < |filename| && filename[k] == '.'
                               && (forall j :: k < j < |filename| ==> filename[j] != '.')
                               && Lower(filename[k + 1..]) in AllowedExtensions
  {
    match LastDot(filename)
    case None => false
    case Some(k) => Lower(filename[k + 1..]) in AllowedExtensions
  }

  /** Only the last extension counts, and it counts in any letter case. */
  lemma AcceptedExamples()
    ensures AllowedFile("a.tar.PNG")
  {
    var name := "a.tar.PNG";
    assert name[5] == '.' && name[6..] == "PNG" && Lower("PNG") == "png";
  }

  /** A bare extension, or a name ending in '.', is refused. */
  lemma RefusedExamples()
    ensures !AllowedFile("png")
    ensures !AllowedFile("a.")
  {
    var dotted := "a.";
    assert dotted[2..] == "";
  }

  // ---------------------------------------------------------------------------
  // Column profile and frequency mapping

  /** One grey-scale sample (an 8-bit unsigned value). */
  type Intensity = x: int | 0 <= x < 256

  /** At most this many columns, and this many rows of each, are scanned. */
  const ProfileCap: nat := 250

  /** The frequency band, in Hz, that intensities 0..255 are spread over. */
  const FBase: real := 600.0
  const FMax: real := 1000.0

  /** Total length of the synthesized sound, in seconds. */
  const TotalDuration: real := 20.0

  function Min(a: int, b: int): int
  {
    if a <= b then a else b
  }

  function RealMin(a: real, b: real): real
  {
    if a <= b then a else b
  }

  /**
   * The value `max_intensity` holds after the inner loop of the column scan has
   * looked at rows 0..rows-1 of column x: the largest of those samples, starting
   * from 0.
   */
  function ColumnPeak(img: array2<Intensity>, x: nat, rows: nat): Intensity
    reads img
    requires x < img.Length1 && rows <= img.Length0
  {
    if rows == 0 then 0
    else
      var m := ColumnPeak(img, x, rows - 1);
      if img[rows - 1, x] > m then img[rows - 1, x] else m
  }

  /**
   * The peak is at least every scanned sample of its column, and it is one of
   * them unless it is the starting value 0.
   */
  lemma {:induction false} ColumnPeakIsMax(img: array2<Intensity>, x: nat, rows: nat)
    requires x < img.Length1 && rows <= img.Length0
    ensures forall y :: 0 <= y < rows ==> img[y, x] <= ColumnPeak(img, x, rows)
    ensures ColumnPeak(img, x, rows) == 0 || exists y :: 0 <= y < rows && img[y, x] == ColumnPeak(img, x, rows)
  {
    if rows > 0 {
      ColumnPeakIsMax(img, x, rows - 1);
    }
  }

  /** A column whose scanned samples are all 0 has peak 0. */
  lemma BlackColumn(img: array2<Intensity>, x: nat, rows: nat)
    requires x < img.Length1 && rows <= img.Length0
    requires forall y :: 0 <= y < rows ==> img[y, x] == 0
    ensures ColumnPeak(img, x, rows) == 0
  {
    ColumnPeakIsMax(img, x, rows);
  }

  /** The linear map from an intensity to a frequency in the band. */
  function Frequency(v: Intensity): (f: real)
    ensures FBase <= f <= FMax
    ensures v == 0 ==> f == FBase
    ensures v == 255 ==> f == FMax
  {
    FBase + (v as real / 255.0) * (FMax - FBase)
  }

  /** The map is strictly increasing, so it preserves and reflects the order of intensities. */
  lemma FrequencyMonotone(v1: Intensity, v2: Intensity)
    ensures v1 <= v2 <==> Frequency(v1) <= Frequency(v2)
    ensures v1 < v2 <==> Frequency(v1) < Frequency(v2)
  {
  }

  /** Taking the smaller of two frequencies is taking the frequency of the smaller intensity. */
  lemma FrequencyOfMin(v1: Intensity, v2: Intensity)
    ensures RealMin(Frequency(v1), Frequency(v2)) == Frequency(Min(v1, v2))
  {
    FrequencyMonotone(v1, v2);
  }

  /**
   * The column scan: for each of the first min(width, 250) columns, the peak of
   * its first min(height, 250) rows, mapped to a frequency, in column order.
   */
  method FrequencyProfile(img: array2<Intensity>) returns (fArray: seq<real>)
    ensures |fArray| == Min(img.Length1, ProfileCap)
    ensures forall x :: 0 <= x < |fArray| ==>
              fArray[x] == Frequency(ColumnPeak(img, x, Min(img.Length0, ProfileCap)))
  {
    var height, width := img.Length0, img.Length1;
    fArray := [];
    for x := 0 to Min(width, ProfileCap)
      invariant |fArray| == x
      invariant forall i :: 0 <= i < x ==>
                  fArray[i] == Frequency(ColumnPeak(img, i, Min(height, ProfileCap)))
    {
      var maxIntensity: Intensity := 0;
      for y := 0 to Min(height, ProfileCap)
        invariant maxIntensity == ColumnPeak(img, x, y)
      {
        var intensity := img[y, x];
        if intensity > maxIntensity {
          maxIntensity := intensity;
        }
      }
      fArray := fArray + [Frequency(maxIntensity)];
    }
  }

  // ---------------------------------------------------------------------------
  // Pairwise reduction

  /**
   * Halves the list: the smaller of each adjacent pair, and an unpaired last
   * element unchanged.
   */
  method PairwiseMin(fArray: seq<real>) returns (freqArray: seq<real>)
    ensures |freqArray| == (|fArray| + 1) / 2
    ensures forall i :: 0 <= i < |freqArray| && 2 * i + 1 < |fArray| ==>
              freqArray[i] == RealMin(fArray[2 * i], fArray[2 * i + 1])
    ensures |fArray| % 2 == 1 ==> freqArray[|freqArray| - 1] == fArray[|fArray| - 1]
    ensures forall i :: 0 <= i < |freqArray| ==> freqArray[i] in fArray
  {
    freqArray := [];
    var i := 0;
    while i < |fArray|
      invariant 0 <= i <= |fArray| + 1
      invariant i == 2 * |freqArray|
      invariant forall k :: 0 <= k < |freqArray| && 2 * k + 1 < |fArray| ==>
                  freqArray[k] == RealMin(fArray[2 * k], fArray[2 * k + 1])
      invariant forall k :: 0 <= k < |freqArray| && 2 * k + 1 >= |fArray| ==>
                  freqArray[k] == fArray[2 * k]
      invariant forall k :: 0 <= k < |freqArray| ==> freqArray[k] in fArray
    {
      if i + 1 < |fArray| {
        freqArray := freqArray + [RealMin(fArray[i], fArray[i + 1])];
      } else {
        freqArray := freqArray + [fArray[i]];
      }
      i := i + 2;
    }
  }

  // ---------------------------------------------------------------------------
  // Tone length

  /** The error raised instead of a tone length. */
  datatype Error = DivisionByZero

  /**
   * The length of one tone: the total duration shared equally by the
   * frequencies. An empty list has no share to give.
   */
  function SegmentDuration(freqArray: seq<real>): (d: Result<real, Error>)
    ensures d.Failure? <==> freqArray == []
    ensures d.Success? ==> d.value > 0.0 && d.value * (|freqArray| as real) == TotalDuration
  {
    if |freqArray| == 0 then Failure(DivisionByZero)
    else Success(TotalDuration / |freqArray| as real)
  }

  // ---------------------------------------------------------------------------
  // The pipeline up to the tone length

  /**
   * The intensity behind output i of the reduction: the dimmer peak of
   * columns 2i and 2i+1, or the peak of column 2i when it is the last one.
   */
  function PairPeak(img: array2<Intensity>, i: nat): Intensity
    reads img
    requires 2 * i < Min(img.Length1, ProfileCap)
  {
    var cols, rows := Min(img.Length1, ProfileCap), Min(img.Length0, ProfileCap);
    if 2 * i + 1 < cols then Min(ColumnPeak(img, 2 * i, rows), ColumnPeak(img, 2 * i + 1, rows))
    else ColumnPeak(img, 2 * i, rows)
  }

  /** Every scanned sample is 0. */
  ghost predicate AllBlack(img: array2<Intensity>)
    reads img
  {
    forall y, x :: 0 <= y < Min(img.Length0, ProfileCap) && 0 <= x < Min(img.Length1, ProfileCap) ==>
      img[y, x] == 0
  }

  /**
   * The image-to-frequency pipeline: column scan, frequency map, pairwise
   * reduction and the tone length, which fails exactly when the image has no
   * columns.
   */
  method ProcessImageToFrequencies(img: array2<Intensity>)
      returns (freqArray: seq<real>, duration: Result<real, Error>)
    ensures |freqArray| == (Min(img.Length1, ProfileCap) + 1) / 2
    ensures forall i :: 0 <= i < |freqArray| ==> freqArray[i] == Frequency(PairPeak(img, i))
    ensures forall i :: 0 <= i < |freqArray| ==> FBase <= freqArray[i] <= FMax
    ensures duration == SegmentDuration(freqArray)
    ensures duration.Failure? <==> img.Length1 == 0
    ensures AllBlack(img) ==> forall i :: 0 <= i < |freqArray| ==> freqArray[i] == FBase
  {
    var fArray := FrequencyProfile(img);
    freqArray := PairwiseMin(fArray);
    var rows := Min(img.Length0, ProfileCap);
    forall i | 0 <= i < |freqArray|
      ensures freqArray[i] == Frequency(PairPeak(img, i))
    {
      if 2 * i + 1 < |fArray| {
        FrequencyOfMin(ColumnPeak(img, 2 * i, rows), ColumnPeak(img, 2 * i + 1, rows));
      }
    }
    if AllBlack(img) {
      forall i | 0 <= i < |freqArray|
        ensures freqArray[i] == FBase
      {
        BlackColumn(img, 2 * i, rows);
        if 2 * i + 1 < |fArray| {
          BlackColumn(img, 2 * i + 1, rows);
        }
      }
    }
    duration := SegmentDuration(freqArray);
  }
}
