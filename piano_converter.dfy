/**
 * The piano stage: each frequency is re-rendered as the recorded clip of the
 * nearest of the 88 piano keys, and the clips are joined into one song.
 */
module PianoConverter {
  import opened Wrappers

  // ---------------------------------------------------------------------------
  // The note tables

  /** Number of keys, A0 to C8. */
  const NoteCount: nat := 88

  /** The key of the standard pitch A4 (the 49th key), and its frequency in Hz. */
  const A4Index: nat := 48
  const A4Freq: real := 440.0

  /** The key names in ascending order; a flat is written with 'b'. */
  const NoteNames: seq<string> :=
    ["A0", "Bb0", "B0", "C1", "Db1", "D1", "Eb1", "E1", "F1", "Gb1", "G1", "Ab1"]
    + ["A1", "Bb1", "B1", "C2", "Db2", "D2", "Eb2", "E2", "F2", "Gb2", "G2", "Ab2"]
    + ["A2", "Bb2", "B2", "C3", "Db3", "D3", "Eb3", "E3", "F3", "Gb3", "G3", "Ab3"]
    + ["A3", "Bb3", "B3", "C4", "Db4", "D4", "Eb4", "E4", "F4", "Gb4", "G4", "Ab4"]
    + ["A4", "Bb4", "B4", "C5", "Db5", "D5", "Eb5", "E5", "F5", "Gb5", "G5", "Ab5"]
    + ["A5", "Bb5", "B5", "C6", "Db6", "D6", "Eb6", "E6", "F6", "Gb6", "G6", "Ab6"]
    + ["A6", "Bb6", "B6", "C7", "Db7", "D7", "Eb7", "E7", "F7", "Gb7", "G7", "Ab7"]
    + ["A7", "Bb7", "B7", "C8"]

  lemma NoteNamesTable()
    ensures |NoteNames| == NoteCount
    ensures NoteNames[A4Index] == "A4"
    ensures NoteNames[0] == "A0" && NoteNames[NoteCount - 1] == "C8"
  {
  }

  function Pow(x: real, n: nat): real
  {
    if n == 0 then 1.0 else x * Pow(x, n - 1)
  }

  /**
   * The frequency table: 88 entries, A4 at 440 Hz, and each key a factor
   * `semitone` above the one below it, where twelve semitones make an octave.
   * These conditions determine the table: entry n is 440 * 2^((n - 48) / 12).
   */
  ghost predicate EqualTempered(t: seq<real>, semitone: real)
  {
    SemitoneSteps(t, semitone) && Pow(semitone, 12) == 2.0
  }

  /** The table conditions without the octave: A4 at 440 Hz and a constant positive step ratio. */
  ghost predicate SemitoneSteps(t: seq<real>, semitone: real)
  {
    |t| == NoteCount && t[A4Index] == A4Freq && semitone > 0.0
    && forall i :: 0 <= i < NoteCount - 1 ==> StepAt(t, semitone, i)
  }

  /** Key i + 1 is a factor `semitone` above key i. */
  ghost predicate StepAt(t: seq<real>, semitone: real, i: nat)
    requires i + 1 < |t|
  {
    t[i + 1] == semitone * t[i]
  }

  ghost predicate StrictlyAscending(t: seq<real>)
  {
    forall i, j :: 0 <= i < j < |t| ==> t[i] < t[j]
  }

  lemma {:induction false} PowPositive(x: real, n: nat)
    requires x > 0.0
    ensures Pow(x, n) > 0.0
  {
    if n > 0 {
      PowPositive(x, n - 1);
    }
  }

  lemma {:induction false} PowAtMostOne(x: real, n: nat)
    requires 0.0 <= x <= 1.0
    ensures 0.0 <= Pow(x, n) <= 1.0
  {
    if n > 0 {
      PowAtMostOne(x, n - 1);
      UnitProduct(x, Pow(x, n - 1));
    }
  }

  /** A factor in [0, 1] does not enlarge a value in [0, 1]. */
  lemma UnitProduct(a: real, b: real)
    requires 0.0 <= a <= 1.0 && 0.0 <= b <= 1.0
    ensures 0.0 <= a * b <= b
  {
  }

  /** A semitone raises the pitch: its twelfth power is 2. */
  lemma SemitoneAboveOne(semitone: real)
    requires semitone > 0.0 && Pow(semitone, 12) == 2.0
    ensures semitone > 1.0
  {
    if semitone <= 1.0 {
      PowAtMostOne(semitone, 12);
    }
  }

  lemma ScaleUp(s: real, x: real)
    requires s > 1.0 && x > 0.0
    ensures s * x > x
  {
    assert s * x - x == (s - 1.0) * x;
  }

  /** k keys up multiplies the frequency by semitone^k. */
  lemma {:induction false} TableShift(t: seq<real>, semitone: real, i: nat, k: nat)
    requires SemitoneSteps(t, semitone) && i + k < NoteCount
    ensures t[i + k] == Pow(semitone, k) * t[i]
  {
    if k > 0 {
      TableShift(t, semitone, i, k - 1);
      var below, p := t[i + k - 1], Pow(semitone, k - 1);
      assert StepAt(t, semitone, i + k - 1);
      assert t[i + k] == semitone * below;
      assert below == p * t[i];
      assert Pow(semitone, k) == semitone * p;
      assert semitone * (p * t[i]) == (semitone * p) * t[i];
    }
  }

  /** Twelve keys up is twice the frequency. */
  lemma OctaveDoubles(t: seq<real>, semitone: real, i: nat)
    requires EqualTempered(t, semitone) && i + 12 < NoteCount
    ensures t[i + 12] == 2.0 * t[i]
  {
    TableShift(t, semitone, i, 12);
  }

  /** The A keys: A0 = 27.5 Hz, A3 = 220 Hz, A5 = 880 Hz, A7 = 3520 Hz. */
  lemma AKeys(t: seq<real>, semitone: real)
    requires EqualTempered(t, semitone)
    ensures t[0] == 27.5 && t[36] == 220.0 && t[60] == 880.0 && t[84] == 3520.0
    ensures NoteNames[0] == "A0" && NoteNames[36] == "A3" && NoteNames[60] == "A5" && NoteNames[84] == "A7"
  {
    assert t[48] == 440.0;
    OctaveDoubles(t, semitone, 0);
    OctaveDoubles(t, semitone, 12);
    OctaveDoubles(t, semitone, 24);
    OctaveDoubles(t, semitone, 36);
    OctaveDoubles(t, semitone, 48);
    OctaveDoubles(t, semitone, 60);
    OctaveDoubles(t, semitone, 72);
  }

  lemma TablePositive(t: seq<real>, semitone: real, i: nat)
    requires SemitoneSteps(t, semitone) && i < NoteCount
    ensures t[i] > 0.0
  {
    if i <= A4Index {
      TableShift(t, semitone, i, A4Index - i);
      PowPositive(semitone, A4Index - i);
    } else {
      TableShift(t, semitone, A4Index, i - A4Index);
      PowPositive(semitone, i - A4Index);
    }
  }

  lemma {:induction false} ChainAscending(t: seq<real>, i: nat, j: nat)
    requires forall k :: 0 <= k < |t| - 1 ==> t[k] < t[k + 1]
    requires i < j < |t|
    ensures t[i] < t[j]
    decreases j - i
  {
    if j > i + 1 {
      ChainAscending(t, i, j - 1);
      assert t[j - 1] < t[j];
    }
  }

  /** The table rises strictly from A0 to C8. */
  lemma TableAscending(t: seq<real>, semitone: real)
    requires EqualTempered(t, semitone)
    ensures StrictlyAscending(t)
  {
    SemitoneAboveOne(semitone);
    StepsAscending(t, semitone);
  }

  lemma StepsAscending(t: seq<real>, semitone: real)
    requires SemitoneSteps(t, semitone) && semitone > 1.0
    ensures StrictlyAscending(t)
  {
    forall k | 0 <= k < |t| - 1
      ensures t[k] < t[k + 1]
    {
      TablePositive(t, semitone, k);
      ScaleUp(semitone, t[k]);
      assert StepAt(t, semitone, k);
    }
    forall i, j | 0 <= i < j < |t|
      ensures t[i] < t[j]
    {
      ChainAscending(t, i, j);
    }
  }

  // ---------------------------------------------------------------------------
  // Nearest key

  function Dist(a: real, b: real): real
  {
    if a >= b then a - b else b - a
  }

  /**
   * The scan behind the arg-min: `best` is the first index below i whose
   * entry is nearest to f; a later entry replaces it only when strictly nearer.
   */
  function ArgminFrom(t: seq<real>, f: real, i: nat, best: nat): (k: nat)
    requires best < i <= |t|
    ensures best <= k < |t|
    decreases |t| - i
  {
    if i == |t| then best
    else if Dist(t[i], f) < Dist(t[best], f) then ArgminFrom(t, f, i + 1, i)
    else ArgminFrom(t, f, i + 1, best)
  }

  /** Scanning on from a first-nearest index below i gives a first-nearest index of the whole table. */
  lemma {:induction false} ArgminFromIsFirstNearest(t: seq<real>, f: real, i: nat, best: nat)
    requires best < i <= |t|
    requires forall j :: 0 <= j < i ==> Dist(t[best], f) <= Dist(t[j], f)
    requires forall j :: 0 <= j < best ==> Dist(t[best], f) < Dist(t[j], f)
    ensures var k := ArgminFrom(t, f, i, best);
            (forall j :: 0 <= j < |t| ==> Dist(t[k], f) <= Dist(t[j], f))
            && (forall j :: 0 <= j < k ==> Dist(t[k], f) < Dist(t[j], f))
    decreases |t| - i
  {
    if i < |t| {
      if Dist(t[i], f) < Dist(t[best], f) {
        ArgminFromIsFirstNearest(t, f, i + 1, i);
      } else {
        ArgminFromIsFirstNearest(t, f, i + 1, best);
      }
    }
  }

  /**
   * The index of the table entry nearest to f; of several equally near
   * entries, the first.
   */
  function ClosestNoteIndex(t: seq<real>, f: real): (k: nat)
    requires |t| == NoteCount
    ensures k < |t|
  {
    ArgminFrom(t, f, 1, 0)
  }

  /** The selected entry is at least as near as every entry, and strictly nearer than every earlier one. */
  lemma ClosestIsFirstNearest(t: seq<real>, f: real)
    requires |t| == NoteCount
    ensures var k := ClosestNoteIndex(t, f);
            (forall j :: 0 <= j < |t| ==> Dist(t[k], f) <= Dist(t[j], f))
            && (forall j :: 0 <= j < k ==> Dist(t[k], f) < Dist(t[j], f))
  {
    ArgminFromIsFirstNearest(t, f, 1, 0);
  }

  /** The nearest key's frequency and name. */
  function ClosestPianoNote(t: seq<real>, f: real): (real, string)
    requires |t| == NoteCount
  {
    var k := ClosestNoteIndex(t, f);
    (t[k], NoteNames[k])
  }

  /** The frequency and the name returned come from the same key, the nearest one. */
  lemma ClosestPianoNoteIsNearest(t: seq<real>, f: real)
    requires |t| == NoteCount
    ensures exists k :: 0 <= k < NoteCount && ClosestPianoNote(t, f) == (t[k], NoteNames[k])
                        && forall j :: 0 <= j < NoteCount ==> Dist(t[k], f) <= Dist(t[j], f)
  {
    ClosestIsFirstNearest(t, f);
    var k := ClosestNoteIndex(t, f);
    assert ClosestPianoNote(t, f) == (t[k], NoteNames[k]);
  }

  /** A frequency that is a table entry selects that entry. */
  lemma ExactMatch(t: seq<real>, f: real, m: nat)
    requires |t| == NoteCount && StrictlyAscending(t)
    requires m < |t| && f == t[m]
    ensures ClosestNoteIndex(t, f) == m
  {
    ClosestIsFirstNearest(t, f);
    var k := ClosestNoteIndex(t, f);
    assert Dist(t[k], f) <= Dist(t[m], f);
  }

  /**
   * Between two neighbouring keys the nearer one is selected, and the lower
   * one when f is exactly half-way.
   */
  lemma BetweenNeighbours(t: seq<real>, f: real, j: nat)
    requires |t| == NoteCount && StrictlyAscending(t)
    requires j + 1 < |t| && t[j] <= f <= t[j + 1]
    ensures ClosestNoteIndex(t, f) == if f - t[j] <= t[j + 1] - f then j else j + 1
  {
    ClosestIsFirstNearest(t, f);
    var k := ClosestNoteIndex(t, f);
    assert Dist(t[k], f) <= Dist(t[j], f) && Dist(t[k], f) <= Dist(t[j + 1], f);
  }

  /** The lower key wins on an exact midpoint. */
  lemma MidpointGoesLow(t: seq<real>, j: nat)
    requires |t| == NoteCount && StrictlyAscending(t)
    requires j + 1 < |t|
    ensures ClosestNoteIndex(t, (t[j] + t[j + 1]) / 2.0) == j
  {
    BetweenNeighbours(t, (t[j] + t[j + 1]) / 2.0, j);
  }

  /** Below the lowest key A0 is selected, above the highest key C8. */
  lemma OutsideTheKeyboard(t: seq<real>, f: real)
    requires |t| == NoteCount && StrictlyAscending(t)
    ensures f <= t[0] ==> ClosestNoteIndex(t, f) == 0
    ensures f >= t[NoteCount - 1] ==> ClosestNoteIndex(t, f) == NoteCount - 1
  {
    ClosestIsFirstNearest(t, f);
    var k := ClosestNoteIndex(t, f);
    assert Dist(t[k], f) <= Dist(t[0], f) && Dist(t[k], f) <= Dist(t[NoteCount - 1], f);
  }

  /** 440 Hz is A4, on any ascending table with A4 at 440 Hz. */
  lemma StandardPitch(t: seq<real>)
    requires |t| == NoteCount && StrictlyAscending(t) && t[A4Index] == A4Freq
    ensures ClosestPianoNote(t, A4Freq) == (A4Freq, "A4")
  {
    ExactMatch(t, A4Freq, A4Index);
  }

  // ---------------------------------------------------------------------------
  // Down-mixing

  /**
   * Decoded WAV data: a 1-D array of samples, or a 2-D array of frames with
   * one sample per channel.
   */
  datatype WavData = Mono(samples: seq<int>) | Frames(channels: nat, frames: seq<seq<int>>)

  /** A decoded 2-D array is rectangular and has at least one channel. */
  ghost predicate WellFormed(d: WavData)
  {
    d.Frames? ==> d.channels > 0 && forall i :: 0 <= i < |d.frames| ==> |d.frames[i]| == d.channels
  }

  function FrameCount(d: WavData): nat
  {
    match d
    case Mono(s) => |s|
    case Frames(_, fr) => |fr|
  }

  function Sum(s: seq<int>): int
  {
    if s == [] then 0 else s[0] + Sum(s[1..])
  }

  /** Integer division rounded toward zero, as a float-to-integer cast rounds. */
  function TruncDiv(a: int, b: int): (q: int)
    requires b > 0
    ensures 0 <= a ==> q * b <= a < q * b + b
    ensures a < 0 ==> q * b - b < a <= q * b
  {
    if a >= 0 then a / b else -((-a) / b)
  }

  /** The mean of one frame's channels, truncated to an integer. */
  function ChannelMean(frame: seq<int>): int
    requires |frame| > 0
  {
    TruncDiv(Sum(frame), |frame|)
  }

  /** One sample per frame: 1-D data unchanged, 2-D data averaged across channels. */
  function StereoToMono(d: WavData): (m: seq<int>)
    requires WellFormed(d)
    ensures |m| == FrameCount(d)
    ensures d.Mono? ==> m == d.samples
    ensures d.Frames? ==> forall i :: 0 <= i < |m| ==> m[i] == ChannelMean(d.frames[i])
  {
    match d
    case Mono(s) => s
    case Frames(_, fr) => seq(|fr|, i requires 0 <= i < |fr| => ChannelMean(fr[i]))
  }

  ghost predicate InRange(s: seq<int>, lo: int, hi: int)
  {
    forall i :: 0 <= i < |s| ==> lo <= s[i] <= hi
  }

  lemma {:induction false} SumBounds(s: seq<int>, lo: int, hi: int)
    requires InRange(s, lo, hi)
    ensures lo * |s| <= Sum(s) <= hi * |s|
  {
    if s != [] {
      assert InRange(s[1..], lo, hi) by {
        forall i | 0 <= i < |s[1..]| ensures lo <= s[1..][i] <= hi {
          assert s[1..][i] == s[i + 1];
        }
      }
      SumBounds(s[1..], lo, hi);
      assert lo * |s| == lo + lo * |s[1..]|;
      assert hi * |s| == hi + hi * |s[1..]|;
    }
  }

  lemma FactorLe(x: int, y: int, b: int)
    requires b > 0 && x * b <= y * b
    ensures x <= y
  {
  }

  /** A frame whose channels lie in [lo, hi] has its mean in [lo, hi]. */
  lemma MeanWithinRange(frame: seq<int>, lo: int, hi: int)
    requires |frame| > 0 && InRange(frame, lo, hi)
    ensures lo <= ChannelMean(frame) <= hi
  {
    var n := |frame|;
    SumBounds(frame, lo, hi);
    var q := ChannelMean(frame);
    var a := Sum(frame);
    if a >= 0 {
      FactorLe(q, hi, n);
      FactorLe(lo, q + 1, n);
    } else {
      FactorLe(lo, q, n);
      FactorLe(q - 1, hi, n);
    }
  }

  /** A frame whose channels all hold v has mean v. */
  lemma {:induction false} MeanOfEqualChannels(frame: seq<int>, v: int)
    requires |frame| > 0 && forall i :: 0 <= i < |frame| ==> frame[i] == v
    ensures ChannelMean(frame) == v
  {
    assert InRange(frame, v, v);
    MeanWithinRange(frame, v, v);
  }

  /** Down-mixing keeps every sample within the range of the input. */
  lemma MonoWithinRange(d: WavData, lo: int, hi: int)
    requires WellFormed(d)
    requires d.Mono? ==> InRange(d.samples, lo, hi)
    requires d.Frames? ==> forall i :: 0 <= i < |d.frames| ==> InRange(d.frames[i], lo, hi)
    ensures InRange(StereoToMono(d), lo, hi)
  {
    var m := StereoToMono(d);
    if d.Frames? {
      forall i | 0 <= i < |m| ensures lo <= m[i] <= hi {
        MeanWithinRange(d.frames[i], lo, hi);
      }
    }
  }

  // ---------------------------------------------------------------------------
  // The song

  /** A decoded note clip: its sample rate and its data. */
  datatype Clip = Clip(rate: int, data: WavData)

  /** Every clip in the note directory decodes to well-formed data. */
  ghost predicate LibraryWellFormed(lib: map<string, Clip>)
  {
    forall name :: name in lib ==> WellFormed(lib[name].data)
  }

  /** The clips the song is made of: one per frequency whose nearest key has a clip, in input order. */
  function FoundClips(t: seq<real>, freqs: seq<real>, lib: map<string, Clip>): (cs: seq<Clip>)
    requires |t| == NoteCount
    ensures |cs| <= |freqs|
    ensures forall c :: c in cs ==> c in lib.Values
    ensures LibraryWellFormed(lib) ==> AllWellFormed(cs)
  {
    if freqs == [] then []
    else
      var name := ClosestPianoNote(t, freqs[0]).1;
      (if name in lib then [lib[name]] else []) + FoundClips(t, freqs[1..], lib)
  }

  ghost predicate AllWellFormed(cs: seq<Clip>)
  {
    forall i :: 0 <= i < |cs| ==> WellFormed(cs[i].data)
  }

  /** The down-mixed samples of the clips, one after the other. */
  function JoinClips(cs: seq<Clip>): seq<int>
    requires AllWellFormed(cs)
  {
    if cs == [] then [] else StereoToMono(cs[0].data) + JoinClips(cs[1..])
  }

  function TotalFrames(cs: seq<Clip>): nat
  {
    if cs == [] then 0 else FrameCount(cs[0].data) + TotalFrames(cs[1..])
  }

  /** The sample rate of the song: that of the first clip found, if any. */
  function SongRate(t: seq<real>, freqs: seq<real>, lib: map<string, Clip>): Option<int>
    requires |t| == NoteCount
  {
    var cs := FoundClips(t, freqs, lib);
    if cs == [] then None else Some(cs[0].rate)
  }

  /** The names logged for the frequencies: the nearest key of each, in input order. */
  function MatchedNames(t: seq<real>, freqs: seq<real>): seq<string>
    requires |t| == NoteCount
  {
    if freqs == [] then [] else [ClosestPianoNote(t, freqs[0]).1] + MatchedNames(t, freqs[1..])
  }

  /** One name per frequency, skipped ones included. */
  lemma {:induction false} MatchedNamesAt(t: seq<real>, freqs: seq<real>)
    requires |t| == NoteCount
    ensures |MatchedNames(t, freqs)| == |freqs|
    ensures forall i :: 0 <= i < |freqs| ==> MatchedNames(t, freqs)[i] == ClosestPianoNote(t, freqs[i]).1
  {
    if freqs != [] {
      MatchedNamesAt(t, freqs[1..]);
      forall i | 0 < i < |freqs|
        ensures MatchedNames(t, freqs)[i] == ClosestPianoNote(t, freqs[i]).1
      {
        assert freqs[1..][i - 1] == freqs[i];
      }
    }
  }

  lemma {:induction false} MatchedNamesSplit(t: seq<real>, a: seq<real>, b: seq<real>)
    requires |t| == NoteCount
    ensures MatchedNames(t, a + b) == MatchedNames(t, a) + MatchedNames(t, b)
  {
    if a == [] {
      assert a + b == b;
    } else {
      assert (a + b)[0] == a[0];
      assert (a + b)[1..] == a[1..] + b;
      MatchedNamesSplit(t, a[1..], b);
    }
  }

  /** One more frequency adds its nearest key's clip, if there is one, to the end. */
  lemma SongStep(t: seq<real>, freqs: seq<real>, i: nat, lib: map<string, Clip>)
    requires |t| == NoteCount && LibraryWellFormed(lib) && i < |freqs|
    ensures var name := ClosestPianoNote(t, freqs[i]).1;
            var before := FoundClips(t, freqs[..i], lib);
            var after := FoundClips(t, freqs[..i + 1], lib);
            (name in lib ==> after == before + [lib[name]]
                             && JoinClips(after) == JoinClips(before) + StereoToMono(lib[name].data))
            && (name !in lib ==> after == before)
            && MatchedNames(t, freqs[..i + 1]) == MatchedNames(t, freqs[..i]) + [name]
            && SongRate(t, freqs[..i + 1], lib) ==
                 if SongRate(t, freqs[..i], lib).Some? then SongRate(t, freqs[..i], lib)
                 else if name in lib then Some(lib[name].rate) else None
  {
    var f := freqs[i];
    assert freqs[..i + 1] == freqs[..i] + [f];
    FoundClipsSplit(t, freqs[..i], [f], lib);
    FoundClipsSingle(t, f, lib);
    MatchedNamesSplit(t, freqs[..i], [f]);
    assert [f][1..] == [];
    var name := ClosestPianoNote(t, f).1;
    if name in lib {
      var clip := lib[name];
      JoinClipsSplit(FoundClips(t, freqs[..i], lib), [clip]);
      assert [clip][1..] == [];
    }
  }

  /** A single frequency contributes its nearest key's clip, or nothing when that clip is missing. */
  lemma FoundClipsSingle(t: seq<real>, f: real, lib: map<string, Clip>)
    requires |t| == NoteCount
    ensures var name := ClosestPianoNote(t, f).1;
            FoundClips(t, [f], lib) == if name in lib then [lib[name]] else []
  {
    assert [f][1..] == [];
  }

  /** The clips of a concatenated input are the clips of each part, in order. */
  lemma {:induction false} FoundClipsSplit(t: seq<real>, a: seq<real>, b: seq<real>, lib: map<string, Clip>)
    requires |t| == NoteCount
    ensures FoundClips(t, a + b, lib) == FoundClips(t, a, lib) + FoundClips(t, b, lib)
  {
    if a == [] {
      assert a + b == b;
    } else {
      var name := ClosestPianoNote(t, a[0]).1;
      var head := if name in lib then [lib[name]] else [];
      assert (a + b)[0] == a[0];
      assert (a + b)[1..] == a[1..] + b;
      assert FoundClips(t, a + b, lib) == head + FoundClips(t, a[1..] + b, lib);
      assert FoundClips(t, a, lib) == head + FoundClips(t, a[1..], lib);
      FoundClipsSplit(t, a[1..], b, lib);
    }
  }

  /** Joining concatenated clip lists concatenates the joined samples. */
  lemma {:induction false} JoinClipsSplit(a: seq<Clip>, b: seq<Clip>)
    requires AllWellFormed(a) && AllWellFormed(b)
    ensures AllWellFormed(a + b)
    ensures JoinClips(a + b) == JoinClips(a) + JoinClips(b)
  {
    if a == [] {
      assert a + b == b;
    } else {
      assert (a + b)[0] == a[0];
      assert (a + b)[1..] == a[1..] + b;
      JoinClipsSplit(a[1..], b);
    }
  }

  /** The song is as long as its clips together. */
  lemma {:induction false} JoinClipsLength(cs: seq<Clip>)
    requires AllWellFormed(cs)
    ensures |JoinClips(cs)| == TotalFrames(cs)
  {
    if cs != [] {
      JoinClipsLength(cs[1..]);
    }
  }

  /** Once a clip has been found the rate is fixed: later input never changes it. */
  lemma SongRateSplit(t: seq<real>, a: seq<real>, b: seq<real>, lib: map<string, Clip>)
    requires |t| == NoteCount
    ensures SongRate(t, a + b, lib) == if SongRate(t, a, lib).Some? then SongRate(t, a, lib) else SongRate(t, b, lib)
  {
    FoundClipsSplit(t, a, b, lib);
  }

  /** If every clip holds 16-bit samples, so does the song, and the final 16-bit cast changes nothing. */
  lemma {:induction false} JoinClipsInRange(cs: seq<Clip>, lo: int, hi: int)
    requires AllWellFormed(cs)
    requires forall c :: c in cs ==> (c.data.Mono? ==> InRange(c.data.samples, lo, hi))
    requires forall c :: c in cs ==> (c.data.Frames? ==>
               forall i :: 0 <= i < |c.data.frames| ==> InRange(c.data.frames[i], lo, hi))
    ensures InRange(JoinClips(cs), lo, hi)
  {
    if cs != [] {
      MonoWithinRange(cs[0].data, lo, hi);
      JoinClipsInRange(cs[1..], lo, hi);
      var s := JoinClips(cs);
      var head := StereoToMono(cs[0].data);
      forall i | 0 <= i < |s| ensures lo <= s[i] <= hi {
        if i >= |head| {
          assert s[i] == JoinClips(cs[1..])[i - |head|];
        }
      }
    }
  }

  /** The input [440.0] gives exactly the down-mixed A4 clip, at its rate. */
  lemma StandardPitchSong(t: seq<real>, lib: map<string, Clip>)
    requires |t| == NoteCount && StrictlyAscending(t) && t[A4Index] == A4Freq
    requires LibraryWellFormed(lib) && "A4" in lib
    ensures JoinClips(FoundClips(t, [A4Freq], lib)) == StereoToMono(lib["A4"].data)
    ensures SongRate(t, [A4Freq], lib) == Some(lib["A4"].rate)
  {
    StandardPitch(t);
    FoundClipsSingle(t, A4Freq, lib);
    var cs := FoundClips(t, [A4Freq], lib);
    assert cs == [lib["A4"]];
    assert cs[1..] == [];
  }

  /** A frequency whose nearest key has no clip adds no samples. */
  lemma MissingClipAddsNothing(t: seq<real>, f: real, lib: map<string, Clip>)
    requires |t| == NoteCount
    requires ClosestPianoNote(t, f).1 !in lib
    ensures FoundClips(t, [f], lib) == []
    ensures SongRate(t, [f], lib) == None
  {
    FoundClipsSingle(t, f, lib);
  }

  /** The module-level state of the converter: the list of matched key names. */
  class Converter {
    var notes: seq<string>

    constructor ()
      ensures notes == []
    {
      notes := [];
    }

    /**
     * Walks the frequencies in order, logs each one's nearest key, and joins
     * the down-mixed clips of the keys that have one; the rate is taken from
     * the first clip found.
     */
    method CreateSongFromWav(t: seq<real>, frequencyArray: seq<real>, lib: map<string, Clip>)
        returns (combinedWave: seq<int>, sampleRate: Option<int>)
      requires |t| == NoteCount && LibraryWellFormed(lib)
      modifies this
      ensures notes == old(notes) + MatchedNames(t, frequencyArray)
      ensures combinedWave == JoinClips(FoundClips(t, frequencyArray, lib))
      ensures sampleRate == SongRate(t, frequencyArray, lib)
    {
      combinedWave := [];
      sampleRate := None;
      for i := 0 to |frequencyArray|
        invariant notes == old(notes) + MatchedNames(t, frequencyArray[..i])
        invariant combinedWave == JoinClips(FoundClips(t, frequencyArray[..i], lib))
        invariant sampleRate == SongRate(t, frequencyArray[..i], lib)
      {
        SongStep(t, frequencyArray, i, lib);
        var freq := frequencyArray[i];
        var note := ClosestPianoNote(t, freq);
        var noteName := note.1;
        notes := notes + [noteName];
        if noteName in lib {
          var clip := lib[noteName];
          var wavData := StereoToMono(clip.data);
          if sampleRate.None? {
            sampleRate := Some(clip.rate);
          }
          combinedWave := combinedWave + wavData;
        }
      }
      assert frequencyArray[..|frequencyArray|] == frequencyArray;
    }
  }
}
