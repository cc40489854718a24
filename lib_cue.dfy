/** The older cue-sheet image of src/lib.rs. It opens the sheet with the
    same state machine and finalisation as src/cue.rs, but its cursor starts
    unset, and its sector numbers count from the first sector the bin files
    hold, so they are those of src/cue.rs less 150. Two of its operations
    differ from what the rest of the code shows was meant: `current_index`
    and the step to the next bin file in `advance_position`. Both are given
    here as written, with the input that shows the difference, and as
    corrected. The class follows the code as written: its cursor can step
    past the last bin file, where only the queries that do not look up the
    bin file are defined. */
module LibCue {
  import opened Wrappers
  import opened Index
  import opened Disc
  import opened CueSheet
  import opened CueLayout
  import CueOpen
  import Cue

  /** An address conversion error as the older error type carries it. */
  function AsCueError(r: Result<MsfIndex, ImageError>): (o: Result<MsfIndex, CueError>)
    requires r.Err? ==> r.error.MsfError?
    ensures o.Ok? <==> r.Ok?
    ensures o.Ok? ==> o.value == r.value
    ensures o.Err? ==> o.error == MsfParseError(r.error.inner)
  {
    match r
    case Ok(x) => Ok(x)
    case Err(e) => Err(MsfParseError(e.inner))
  }

  /** The same position with its sector counted from the start of the disc,
      as src/cue.rs counts it. */
  function Shifted(loc: Location): (s: Location)
    requires loc.globalLba + FIRST_TRACK_PREGAP < M
    ensures s.globalLba == loc.globalLba + FIRST_TRACK_PREGAP
    ensures s.binFileNo == loc.binFileNo && s.trackInBin == loc.trackInBin && s.binLocalLba == loc.binLocalLba
  {
    loc.(globalLba := loc.globalLba + FIRST_TRACK_PREGAP)
  }

  // ---------------------------------------------------------------------
  // current_index

  /** `current_index` as written: the position in the bin file is compared
      with INDEX 01 counted from the start of the track, two different
      origins (the difference taken in `u32`, as a release build wraps it). */
  function IndexAtAsWritten(t: Track, binLocal: uint32): (r: uint8)
    requires 1 in t.indices
    ensures r == 0 || r == 1
    ensures t.startingLba <= t.indices[1] ==> (r == 1 <==> t.indices[1] - t.startingLba <= binLocal)
  {
    if binLocal >= WrapSub(t.indices[1], t.startingLba) then 1 else 0
  }

  /** The two agree for the first track of a bin file, which starts at its sector 0. */
  lemma IndexAsWrittenAtStart(t: Track, binLocal: uint32)
    requires 1 in t.indices && t.startingLba == 0
    ensures IndexAtAsWritten(t, binLocal) == IndexAt(t, binLocal)
  {
  }

  /** In any later track that starts before its INDEX 01, each position of
      its pregap from `INDEX 01 - start` on is reported as index 1, while the
      track-relative address there still counts down to INDEX 01. */
  lemma IndexAsWrittenInPregap(t: Track, binLocal: uint32)
    requires 1 in t.indices && t.startingLba <= binLocal < t.indices[1]
    requires t.indices[1] - t.startingLba <= binLocal
    requires t.indices[1] - binLocal <= MAX_LBA
    ensures IndexAtAsWritten(t, binLocal) == 1 && IndexAt(t, binLocal) == 0
    ensures TrackLocalMsf(t, binLocal).Ok? && ToLba(TrackLocalMsf(t, binLocal).value) == MAX_LBA - (t.indices[1] - binLocal)
  {
  }

  /** The concrete case: a track starting at sector 1000 of its bin file,
      INDEX 00 there and INDEX 01 two seconds later at 1150. At its first
      sector the track-relative address is 99:58:00, in the pregap, but
      `current_index` as written says 1. */
  lemma IndexAsWrittenExample(t: Track)
    requires t.startingLba == 1000 && t.indices == map[0 := 1000, 1 := 1150]
    ensures IndexAtAsWritten(t, 1000) == 1 && IndexAt(t, 1000) == 0
    ensures TrackLocalMsf(t, 1000) == Ok(MsfIndex(99, 58, 0))
  {
    IndexAsWrittenInPregap(t, 1000);
    ToLbaInjective(TrackLocalMsf(t, 1000).value, MsfIndex(99, 58, 0));
  }

  // ---------------------------------------------------------------------
  // set_location

  /** Where `set_location` puts the cursor for address `target`: where the
      search finds `target - 150` (a `u32` difference), with that number as
      its sector. None is `OutOfRange`. */
  function SeekTo(bins: seq<BinFile>, target: MsfIndex): (r: Option<Location>)
    ensures r.Some? ==> InRange(bins, r.value) && r.value.globalLba == WrapSub(ToLba(target), FIRST_TRACK_PREGAP)
  {
    var left := WrapSub(ToLba(target), FIRST_TRACK_PREGAP);
    match LocateFrom(bins, 0, left)
    case None => None
    case Some((b, j, off)) => Some(Location(b, j, left, off))
  }

  /** For an address after the first track's pregap, seeking lands on the
      position src/cue.rs seeks to, its sector less 150. */
  lemma SeekToShifted(bins: seq<BinFile>, target: MsfIndex)
    requires bins != [] && bins[0].tracks != [] && ToLba(target) >= FIRST_TRACK_PREGAP
    ensures SeekTo(bins, target).Some? <==> Cue.SeekTo(bins, ToLba(target)).Some?
    ensures SeekTo(bins, target).Some? ==> Shifted(SeekTo(bins, target).value) == Cue.SeekTo(bins, ToLba(target)).value
  {
  }

  // ---------------------------------------------------------------------
  // advance_position

  /** The position `advance_position` as written moves to from the end of
      the last bin file: one bin file past the last, at its sector 0. */
  predicate PastLastBin(bins: seq<BinFile>, loc: Location) {
    loc.binFileNo == |bins| && loc.trackInBin == 0 && loc.binLocalLba == 0
  }

  /** `advance_position` as written: the guard before moving to the next bin
      file, `len >= bin_file_no`, always holds, so at the end of the last
      track of the last bin file the cursor moves past the last bin file;
      everywhere else it stays on the disc. */
  function AdvanceAsWritten(bins: seq<BinFile>, loc: Location): (r: (Location, Option<Event>))
    requires InRange(bins, loc)
    ensures AllHaveTracks(bins) ==> InRange(bins, r.0) || PastLastBin(bins, r.0)
    ensures r.0.globalLba == (loc.globalLba + 1) % M
    ensures r.1 == None || r.1 == Some(TrackChange)
  {
    var bin := bins[loc.binFileNo];
    var t := bin.tracks[loc.trackInBin];
    var trackEnd := WrapAdd(t.startingLba, t.numSectors);
    var g := WrapAdd(loc.globalLba, 1);
    var l := WrapAdd(loc.binLocalLba, 1);
    if l < trackEnd then
      (loc.(globalLba := g, binLocalLba := l), None)
    else if |bin.tracks| > loc.trackInBin + 1 then
      (loc.(trackInBin := loc.trackInBin + 1, globalLba := g, binLocalLba := l), Some(TrackChange))
    else
      assert |bins| >= loc.binFileNo;
      (Location(loc.binFileNo + 1, 0, g, 0), Some(TrackChange))
  }

  /** At the last sector of the last track of the last bin file, the cursor
      as written leaves the bin files, so every later query indexes past
      them, and a track change is reported though there is no next track. */
  lemma AdvanceAsWrittenLeavesDisc(bins: seq<BinFile>, loc: Location)
    requires InRange(bins, loc) && loc.binFileNo + 1 == |bins|
    requires var ts := bins[loc.binFileNo].tracks;
      && loc.trackInBin + 1 == |ts|
      && loc.binLocalLba + 1 == ts[loc.trackInBin].startingLba + ts[loc.trackInBin].numSectors < M
    ensures AdvanceAsWritten(bins, loc).0.binFileNo == |bins|
    ensures !InRange(bins, AdvanceAsWritten(bins, loc).0)
    ensures AdvanceAsWritten(bins, loc).1 == Some(TrackChange)
  {
  }

  /** `advance_position` corrected: it moves to the next bin file only when
      there is one, and otherwise reports the end of the disc, as the later
      revision in src/cue.rs does. The sums are `u32` sums. */
  function Advance(bins: seq<BinFile>, loc: Location): (r: (Location, Option<Event>))
    requires InRange(bins, loc)
    ensures AllHaveTracks(bins) ==> InRange(bins, r.0)
    ensures r.0.globalLba == (loc.globalLba + 1) % M
    ensures r.1 == Some(EndOfDisc) ==> loc.binFileNo + 1 == |bins| && loc.trackInBin + 1 == |bins[loc.binFileNo].tracks|
  {
    var bin := bins[loc.binFileNo];
    var t := bin.tracks[loc.trackInBin];
    var trackEnd := WrapAdd(t.startingLba, t.numSectors);
    var g := WrapAdd(loc.globalLba, 1);
    var l := WrapAdd(loc.binLocalLba, 1);
    if l < trackEnd then
      (loc.(globalLba := g, binLocalLba := l), None)
    else if |bin.tracks| > loc.trackInBin + 1 then
      (loc.(trackInBin := loc.trackInBin + 1, globalLba := g, binLocalLba := l), Some(TrackChange))
    else if |bins| > loc.binFileNo + 1 then
      (Location(loc.binFileNo + 1, 0, g, 0), Some(TrackChange))
    else
      (loc.(globalLba := g, binLocalLba := l), Some(EndOfDisc))
  }

  /** The two differ exactly where the finding says: elsewhere they move
      the same way; and the corrected one, moved on from a position of
      src/cue.rs's disc shifted by 150, moves exactly as src/cue.rs does, so
      it keeps positions coherent there (`Cue.AdvanceCoherent`). */
  lemma AdvanceCorrected(bins: seq<BinFile>, loc: Location)
    requires InRange(bins, loc)
    ensures Advance(bins, loc).1 != Some(EndOfDisc) ==> Advance(bins, loc) == AdvanceAsWritten(bins, loc)
    ensures loc.globalLba + FIRST_TRACK_PREGAP + 1 < M ==>
              && Advance(bins, loc).0.globalLba + FIRST_TRACK_PREGAP < M
              && Shifted(Advance(bins, loc).0) == Cue.Advance(bins, Shifted(loc)).0
              && Advance(bins, loc).1 == Cue.Advance(bins, Shifted(loc)).1
  {
  }

  // ---------------------------------------------------------------------
  // The image

  class Cuesheet {
    const binFiles: seq<BinFile>
    var location: Option<Location>

    /** There are bin files, each with tracks, and a cursor once set names a
        bin file and a track in it, or has stepped past the last bin file. */
    predicate Valid()
      reads this
    {
      && binFiles != [] && AllHaveTracks(binFiles)
      && (location.Some? ==> InRange(binFiles, location.value) || PastLastBin(binFiles, location.value))
    }

    /** The cursor, if set, is on the disc: what the queries that look up
        the cursor's bin file need, since past the last one they index
        `bin_files` out of bounds and panic. */
    predicate OnDisc()
      reads this
    {
      location.Some? ==> InRange(binFiles, location.value)
    }

    constructor (bins: seq<BinFile>)
      requires bins != [] && AllHaveTracks(bins)
      ensures Valid() && binFiles == bins && location.None?
    {
      binFiles := bins;
      location := None;
    }

    /** `num_bin_files`. */
    function BinFileCount(): (r: nat)
      reads this
      ensures r == |binFiles|
    {
      |binFiles|
    }

    /** `num_tracks`. */
    function TrackCount(): (r: nat)
      reads this
      ensures r == NumTracks(binFiles)
    {
      NumTracks(binFiles)
    }

    /** `current_track`. */
    method CurrentTrack() returns (r: Result<uint8, CueError>)
      requires Valid()
      ensures location.None? ==> r == Err(NoLocationSet)
      ensures location.Some? ==>
                && r.Ok?
                && r.value == (NumTracks(binFiles[..location.value.binFileNo]) + location.value.trackInBin + 1) % 256
    {
      if location.None? {
        return Err(NoLocationSet);
      }
      var n := CueLayout.CurrentTrack(binFiles, location.value);
      r := Ok(n);
    }

    /** `current_index`, as written (`IndexAtAsWritten`). The source unwraps INDEX 01. */
    function CurrentIndex(): (r: Result<uint8, CueError>)
      reads this
      requires Valid() && OnDisc()
      requires location.Some? ==> 1 in binFiles[location.value.binFileNo].tracks[location.value.trackInBin].indices
      ensures location.None? ==> r == Err(NoLocationSet)
      ensures location.Some? ==>
                var loc := location.value;
                var t := binFiles[loc.binFileNo].tracks[loc.trackInBin];
                && r == Ok(IndexAtAsWritten(t, loc.binLocalLba))
                && (t.startingLba <= t.indices[1] ==> (r.value == 1 <==> t.indices[1] - t.startingLba <= loc.binLocalLba))
    {
      match location
      case None => Err(NoLocationSet)
      case Some(loc) => Ok(IndexAtAsWritten(binFiles[loc.binFileNo].tracks[loc.trackInBin], loc.binLocalLba))
    }

    /** `current_track_local_msf`, the same computation as in src/cue.rs. */
    function CurrentTrackLocalMsf(): (r: Result<MsfIndex, CueError>)
      reads this
      requires Valid() && OnDisc()
      requires location.Some? ==>
        var t := binFiles[location.value.binFileNo].tracks[location.value.trackInBin];
        && 1 in t.indices && t.startingLba <= t.indices[1] && t.startingLba <= location.value.binLocalLba
        && t.indices[1] - location.value.binLocalLba <= MAX_LBA
      ensures location.None? ==> r == Err(NoLocationSet)
      ensures location.Some? ==>
        var t := binFiles[location.value.binFileNo].tracks[location.value.trackInBin];
        var x := location.value.binLocalLba;
        && (x < t.indices[1] ==> r.Ok? && ToLba(r.value) == MAX_LBA - (t.indices[1] - x))
        && (t.indices[1] <= x < t.indices[1] + MAX_LBA ==> r.Ok? && ToLba(r.value) == x - t.indices[1])
    {
      match location
      case None => Err(NoLocationSet)
      case Some(loc) => AsCueError(TrackLocalMsf(binFiles[loc.binFileNo].tracks[loc.trackInBin], loc.binLocalLba))
    }

    /** `current_global_msf`: the address of the cursor's sector plus 150. */
    function CurrentGlobalMsf(): (r: Result<MsfIndex, CueError>)
      reads this
      ensures location.None? ==> r == Err(NoLocationSet)
      ensures location.Some? ==>
        var n := (location.value.globalLba + FIRST_TRACK_PREGAP) % M;
        && (r.Ok? <==> n % LBA_WRAP < MAX_LBA)
        && (r.Ok? ==> r.value.Valid() && ToLba(r.value) == n % LBA_WRAP)
    {
      match location
      case None => Err(NoLocationSet)
      case Some(loc) => AsCueError(AddressOf(WrapAdd(loc.globalLba, FIRST_TRACK_PREGAP)))
    }

    /** `current_track_type`: None while the cursor is unset. */
    function CurrentTrackType(): (r: Option<TrackType>)
      reads this
      requires Valid() && OnDisc()
      ensures r.None? <==> location.None?
      ensures r.Some? ==> r.value == binFiles[location.value.binFileNo].tracks[location.value.trackInBin].trackType
    {
      match location
      case None => None
      case Some(loc) => Some(binFiles[loc.binFileNo].tracks[loc.trackInBin].trackType)
    }

    /** `first_track_type`. */
    function FirstTrackType(): (r: TrackType)
      reads this
      requires Valid()
      ensures r == binFiles[0].tracks[0].trackType
    {
      binFiles[0].tracks[0].trackType
    }

    /** `track_start`: as in src/cue.rs, with the older error type. */
    method TrackStart(track: uint8) returns (r: Result<MsfIndex, CueError>)
      requires track != 0 ==> IndexOnePresent(binFiles, track)
      ensures TrackStartLba(binFiles, track).None? <==> r == Err(CueError.OutOfRange)
      ensures r.Ok? <==> Cue.TrackStartMsf(binFiles, track).Ok?
      ensures r.Ok? ==> r.value == Cue.TrackStartMsf(binFiles, track).value
      ensures r.Err? && TrackStartLba(binFiles, track).Some? ==> r == Err(CueError.MsfParseError(OutOfRangeError))
    {
      var lba := CueLayout.TrackStart(binFiles, track);
      if lba.None? {
        return Err(CueError.OutOfRange);
      }
      r := AsCueError(AddressOf(lba.value));
    }

    /** `set_location`: moves the cursor where `SeekTo` says, or leaves it
        where it was and reports `OutOfRange`. */
    method SetLocation(target: MsfIndex) returns (r: Result<(), CueError>)
      requires Valid()
      modifies this
      ensures Valid()
      ensures r.Ok? <==> SeekTo(binFiles, target).Some?
      ensures r.Err? ==> r.error == CueError.OutOfRange && location == old(location)
      ensures r.Ok? ==> location == SeekTo(binFiles, target)
    {
      var targetLba := WrapSub(ToLba(target), FIRST_TRACK_PREGAP);
      var found := Locate(binFiles, targetLba);
      match found
      case None =>
        r := Err(CueError.OutOfRange);
      case Some((b, j, off)) =>
        location := Some(Location(b, j, targetLba, off));
        r := Ok(());
    }

    /** `set_location_to_track`. */
    method SetLocationToTrack(track: uint8) returns (r: Result<(), CueError>)
      requires Valid() && (track != 0 ==> IndexOnePresent(binFiles, track))
      modifies this
      ensures Valid()
      ensures Cue.TrackStartMsf(binFiles, track).Err? ==> r.Err? && location == old(location)
      ensures TrackStartLba(binFiles, track).None? ==> r == Err(CueError.OutOfRange)
      ensures Cue.TrackStartMsf(binFiles, track).Err? && TrackStartLba(binFiles, track).Some? ==>
                r == Err(CueError.MsfParseError(OutOfRangeError))
      ensures Cue.TrackStartMsf(binFiles, track).Ok? ==>
                var target := Cue.TrackStartMsf(binFiles, track).value;
                && (r.Ok? <==> SeekTo(binFiles, target).Some?)
                && location == if r.Ok? then SeekTo(binFiles, target) else old(location)
    {
      var start := TrackStart(track);
      if start.Err? {
        return Err(start.error);
      }
      r := SetLocation(start.value);
    }

    /** `advance_position`, as written (`AdvanceAsWritten`): from the end of
        the last bin file the cursor moves past it. */
    method AdvancePosition() returns (r: Result<Option<Event>, CueError>)
      requires Valid() && OnDisc()
      modifies this
      ensures Valid()
      ensures old(location).None? ==> r == Err(NoLocationSet) && location.None?
      ensures old(location).Some? ==>
                && location == Some(AdvanceAsWritten(binFiles, old(location).value).0)
                && r == Ok(AdvanceAsWritten(binFiles, old(location).value).1)
    {
      if location.None? {
        return Err(NoLocationSet);
      }
      var loc := location.value;
      var bin := binFiles[loc.binFileNo];
      var t := bin.tracks[loc.trackInBin];
      var trackEnd := WrapAdd(t.startingLba, t.numSectors);
      loc := loc.(globalLba := WrapAdd(loc.globalLba, 1), binLocalLba := WrapAdd(loc.binLocalLba, 1));
      if loc.binLocalLba < trackEnd {
        r := Ok(None);
      } else if |bin.tracks| > loc.trackInBin + 1 {
        loc := loc.(trackInBin := loc.trackInBin + 1);
        r := Ok(Some(TrackChange));
      } else {
        assert |binFiles| >= loc.binFileNo;
        loc := loc.(binFileNo := loc.binFileNo + 1, trackInBin := 0, binLocalLba := 0);
        r := Ok(Some(TrackChange));
      }
      location := Some(loc);
    }

    /** `copy_current_sector`, with `image` the bytes of the cursor's bin
        file: the bytes from the cursor's sector on, or `IoError` when the
        file ends first (the buffer is then left as it was). There is no
        pregap case here. */
    method CopyCurrentSector(buf: array<uint8>, image: seq<uint8>) returns (r: Result<(), CueError>)
      requires Valid() && OnDisc() && (location.Some? ==> |image| == binFiles[location.value.binFileNo].byteLen)
      modifies buf
      ensures location.None? ==> r == Err(NoLocationSet) && buf[..] == old(buf[..])
      ensures location.Some? ==>
                var off := location.value.binLocalLba * SECTOR_BYTES;
                && (r.Ok? <==> off + buf.Length <= |image|)
                && (r.Ok? ==> buf[..] == image[off..off + buf.Length])
                && (r.Err? ==> r.error == CueError.IoError && buf[..] == old(buf[..]))
      ensures location.Some? && buf.Length == SECTOR_BYTES && location.value.binLocalLba < NumSectors(binFiles[location.value.binFileNo]) ==> r.Ok?
    {
      if location.None? {
        return Err(NoLocationSet);
      }
      var off := location.value.binLocalLba * SECTOR_BYTES;
      if off + buf.Length > |image| {
        return Err(CueError.IoError);
      }
      forall i | 0 <= i < buf.Length {
        buf[i] := image[off + i];
      }
      r := Ok(());
    }
  }

  /** `from_cue_file`, with the cue sheet's text and the byte lengths of the
      files it names: the parse of the sheet, and an unset cursor. */
  method FromCueFile(text: string, files: map<string, nat>) returns (r: Result<Cuesheet, CueError>)
    ensures r.Ok? <==> CueOpen.Open(text, files).Ok?
    ensures r.Err? ==> r.error == CueOpen.Open(text, files).error
    ensures r.Ok? ==> && fresh(r.value) && r.value.Valid()
                      && r.value.binFiles == CueOpen.Open(text, files).value && r.value.location.None?
                      && forall k :: 0 <= k < |r.value.binFiles| ==> CueOpen.Finished(r.value.binFiles[k])
  {
    var bins := CueOpen.ParseCue(text, files);
    if bins.Err? {
      return Err(bins.error);
    }
    var c := new Cuesheet(bins.value);
    r := Ok(c);
  }
}
